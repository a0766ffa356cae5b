/** The two tables behind deferred tools: the descriptors that can be loaded and
    the mode each tool is in. */
module DeferralKeys {
  import opened Options
  import opened KeyedEdits
  import opened Tools

  // ------------------------------------------------------------------
  // Modes
  // ------------------------------------------------------------------

  datatype ModeAction =
    | Defer(id: ToolId)
    | Promote(id: ToolId)
    | PromoteBatch(ids: seq<ToolId>)
    | SetBatch(entries: seq<(ToolId, ToolLoadMode)>)

  function ModeEntries(a: ModeAction): seq<(ToolId, ToolLoadMode)> {
    match a
    case Defer(id) => [(id, Deferred)]
    case Promote(id) => [(id, Eager)]
    case PromoteBatch(ids) => seq(|ids|, i requires 0 <= i < |ids| => (ids[i], Eager))
    case SetBatch(entries) => entries
  }

  function ModeEdit(a: ModeAction): Edit<ToolId, ToolLoadMode> {
    Edit(false, Puts(ModeEntries(a)))
  }

  class DeferralState {
    var modes: map<ToolId, ToolLoadMode>

    constructor ()
      ensures modes == map[]
    {
      modes := map[];
    }

    method Reduce(update: ModeAction)
      modifies this
      ensures modes == Perform(old(modes), ModeEdit(update))
    {
      BatchIsEdit(modes, ModeEntries(update));
      ghost var entries := ModeEntries(update);
      assert entries[0..] == entries;
      match update {
        case Defer(id) =>
          modes := modes[id := Deferred];
          assert modes == Assign(modes, entries[1..]);
        case Promote(id) =>
          modes := modes[id := Eager];
          assert modes == Assign(modes, entries[1..]);
        case PromoteBatch(ids) =>
          for i := 0 to |ids|
            invariant Assign(modes, entries[i..]) == Assign(old(modes), entries)
          {
            assert entries[i..][1..] == entries[i + 1..];
            modes := modes[ids[i] := Eager];
          }
          assert entries[|ids|..] == [];
        case SetBatch(updates) =>
          for i := 0 to |updates|
            invariant Assign(modes, entries[i..]) == Assign(old(modes), entries)
          {
            assert entries[i..][1..] == entries[i + 1..];
            modes := modes[updates[i].0 := updates[i].1];
          }
          assert entries[|updates|..] == [];
      }
    }
  }

  /** Whether two actions leave some tool in different modes. */
  predicate ModesConflict(a: ModeAction, b: ModeAction) {
    var p, q := Puts(ModeEntries(a)), Puts(ModeEntries(b));
    exists id :: id in p && id in q && p[id] != q[id]
  }

  /** The key of this table is declared to take its updates in any order. Two of
      them commute exactly when there is no tool that they leave in different modes. */
  lemma ModeActionsCommuteIff(modes: map<ToolId, ToolLoadMode>, a: ModeAction, b: ModeAction)
    ensures Perform(Perform(modes, ModeEdit(a)), ModeEdit(b)) == Perform(Perform(modes, ModeEdit(b)), ModeEdit(a))
            <==> !ModesConflict(a, b)
  {
    CommuteIff(modes, ModeEdit(a), ModeEdit(b));
    var p, q := Puts(ModeEntries(a)), Puts(ModeEntries(b));
    if !ModesConflict(a, b) {
      forall id | Decides(ModeEdit(a), id) && Decides(ModeEdit(b), id)
        ensures Decision(ModeEdit(a), id) == Decision(ModeEdit(b), id)
      {
        assert id in p && id in q;
      }
    } else {
      var id :| id in p && id in q && p[id] != q[id];
      assert Decides(ModeEdit(a), id) && Decides(ModeEdit(b), id);
    }
  }

  /** Deferring and promoting the same tool, in the two orders. */
  lemma DeferAndPromoteDiffer(modes: map<ToolId, ToolLoadMode>, id: ToolId)
    ensures var d, p := ModeEdit(Defer(id)), ModeEdit(Promote(id));
            Lookup(Perform(Perform(modes, d), p), id) == Some(Eager) &&
            Lookup(Perform(Perform(modes, p), d), id) == Some(Deferred)
  {
    var d, p := ModeEntries(Defer(id)), ModeEntries(Promote(id));
    assert Puts(d) == Puts(d[..0])[id := Some(Deferred)];
    assert Puts(p) == Puts(p[..0])[id := Some(Eager)];
  }

  // ------------------------------------------------------------------
  // Descriptors
  // ------------------------------------------------------------------

  datatype Descriptor = Descriptor(id: ToolId, name: string, description: string)

  datatype RegistryAction =
    | Register(tool: Descriptor)
    | RegisterBatch(tools: seq<Descriptor>)
    | Unregister(id: ToolId)

  function RegistryEntries(tools: seq<Descriptor>): seq<(ToolId, Descriptor)> {
    seq(|tools|, i requires 0 <= i < |tools| => (tools[i].id, tools[i]))
  }

  function RegistryEdit(a: RegistryAction): Edit<ToolId, Descriptor> {
    match a
    case Register(tool) => Edit(false, map[tool.id := Some(tool)])
    case RegisterBatch(tools) => Edit(false, Puts(RegistryEntries(tools)))
    case Unregister(id) => Edit(false, map[id := None])
  }

  class DeferralRegistry {
    var tools: map<ToolId, Descriptor>

    constructor ()
      ensures tools == map[]
    {
      tools := map[];
    }

    method Reduce(update: RegistryAction)
      modifies this
      ensures tools == Perform(old(tools), RegistryEdit(update))
    {
      match update {
        case Register(tool) =>
          tools := tools[tool.id := tool];
        case RegisterBatch(descs) =>
          ghost var entries := RegistryEntries(descs);
          BatchIsEdit(tools, entries);
          assert entries[0..] == entries;
          for i := 0 to |descs|
            invariant Assign(tools, entries[i..]) == Assign(old(tools), entries)
          {
            assert entries[i..][1..] == entries[i + 1..];
            tools := tools[descs[i].id := descs[i]];
          }
          assert entries[|descs|..] == [];
        case Unregister(id) =>
          tools := tools - {id};
      }
    }
  }

  /** Whether two actions leave different descriptors, or none and some, for a tool. */
  predicate DescriptorsConflict(a: RegistryAction, b: RegistryAction) {
    var p, q := RegistryEdit(a).puts, RegistryEdit(b).puts;
    exists id :: id in p && id in q && p[id] != q[id]
  }

  lemma RegistryActionsCommuteIff(tools: map<ToolId, Descriptor>, a: RegistryAction, b: RegistryAction)
    ensures Perform(Perform(tools, RegistryEdit(a)), RegistryEdit(b))
              == Perform(Perform(tools, RegistryEdit(b)), RegistryEdit(a)) <==>
            !DescriptorsConflict(a, b)
  {
    var e, f := RegistryEdit(a), RegistryEdit(b);
    CommuteIff(tools, e, f);
    if id :| id in e.puts && id in f.puts && e.puts[id] != f.puts[id] {
      assert Decides(e, id) && Decides(f, id) && Decision(e, id) != Decision(f, id);
    }
  }

  /** Every descriptor stays under its own identifier. */
  predicate KeyedById(tools: map<ToolId, Descriptor>) {
    forall id :: id in tools ==> tools[id].id == id
  }

  lemma {:induction false} PutsAreKeyed(entries: seq<(ToolId, Descriptor)>)
    requires forall i :: 0 <= i < |entries| ==> entries[i].0 == entries[i].1.id
    ensures forall id :: id in Puts(entries) ==> Puts(entries)[id].Some? && Puts(entries)[id].value.id == id
    decreases |entries|
  {
    if entries != [] { PutsAreKeyed(entries[..|entries| - 1]); }
  }

  lemma ReduceKeepsKeys(tools: map<ToolId, Descriptor>, a: RegistryAction)
    requires KeyedById(tools)
    ensures KeyedById(Perform(tools, RegistryEdit(a)))
  {
    if a.RegisterBatch? { PutsAreKeyed(RegistryEntries(a.tools)); }
  }

  // ------------------------------------------------------------------
  // What the batches leave
  // ------------------------------------------------------------------

  lemma {:induction false} PutsLast<V>(entries: seq<(ToolId, V)>, id: ToolId, last: nat)
    requires last <= |entries|
    requires last < |entries| ==> entries[last].0 == id
    requires forall k :: 0 <= k < |entries| && (last == |entries| || k > last) ==> entries[k].0 != id
    ensures if last < |entries| then id in Puts(entries) && Puts(entries)[id] == Some(entries[last].1)
            else id !in Puts(entries)
    decreases |entries|
  {
    if entries != [] {
      var n := |entries| - 1;
      if last == n {
      } else if last == |entries| {
        PutsLast(entries[..n], id, n);
      } else {
        PutsLast(entries[..n], id, last);
      }
    }
  }

  /** Promoting a batch makes its tools eager, and leaves the others as they are. */
  lemma PromoteBatchPromotes(modes: map<ToolId, ToolLoadMode>, ids: seq<ToolId>, id: ToolId)
    ensures Lookup(Perform(modes, ModeEdit(PromoteBatch(ids))), id) ==
            if id in ids then Some(Eager) else Lookup(modes, id)
  {
    var entries := ModeEntries(PromoteBatch(ids));
    if id in ids {
      var k := LastIndex(ids, id);
      PutsLast(entries, id, k);
    } else {
      PutsLast(entries, id, |entries|);
    }
  }

  lemma {:induction false} LastIndex(ids: seq<ToolId>, id: ToolId) returns (k: nat)
    requires id in ids
    ensures k < |ids| && ids[k] == id && forall j :: k < j < |ids| ==> ids[j] != id
  {
    if ids[|ids| - 1] == id {
      k := |ids| - 1;
    } else {
      k := LastIndex(ids[..|ids| - 1], id);
    }
  }

  /** Setting a batch gives each tool the last mode it is listed with. */
  lemma SetBatchTakesLast(modes: map<ToolId, ToolLoadMode>, entries: seq<(ToolId, ToolLoadMode)>, id: ToolId, last: nat)
    requires last <= |entries|
    requires last < |entries| ==> entries[last].0 == id
    requires forall k :: 0 <= k < |entries| && (last == |entries| || k > last) ==> entries[k].0 != id
    ensures Lookup(Perform(modes, ModeEdit(SetBatch(entries))), id) ==
            if last < |entries| then Some(entries[last].1) else Lookup(modes, id)
  {
    PutsLast(entries, id, last);
  }

  /** Deferring or promoting one tool changes only that tool. */
  lemma SingleChanges(modes: map<ToolId, ToolLoadMode>, id: ToolId, other: ToolId)
    ensures Lookup(Perform(modes, ModeEdit(Defer(id))), other) ==
            if other == id then Some(Deferred) else Lookup(modes, other)
    ensures Lookup(Perform(modes, ModeEdit(Promote(id))), other) ==
            if other == id then Some(Eager) else Lookup(modes, other)
  {
    PutsLast(ModeEntries(Defer(id)), other, if other == id then 0 else 1);
    PutsLast(ModeEntries(Promote(id)), other, if other == id then 0 else 1);
  }

  /** A registered descriptor is found under its identifier, the last of a batch; a
      removed one is not; all others stay. */
  lemma RegistryChanges(tools: map<ToolId, Descriptor>, tool: Descriptor, batch: seq<Descriptor>, id: ToolId, last: nat)
    requires last <= |batch|
    requires last < |batch| ==> batch[last].id == id
    requires forall k :: 0 <= k < |batch| && (last == |batch| || k > last) ==> batch[k].id != id
    ensures Lookup(Perform(tools, RegistryEdit(Register(tool))), id) ==
            if id == tool.id then Some(tool) else Lookup(tools, id)
    ensures Lookup(Perform(tools, RegistryEdit(RegisterBatch(batch))), id) ==
            if last < |batch| then Some(batch[last]) else Lookup(tools, id)
    ensures Lookup(Perform(tools, RegistryEdit(Unregister(tool.id))), id) ==
            if id == tool.id then None else Lookup(tools, id)
  {
    PutsLast(RegistryEntries(batch), id, last);
  }
}
