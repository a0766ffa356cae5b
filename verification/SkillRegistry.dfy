/** Registries of skills: registering under a trimmed identifier, and the composite
    that merges several sources and remembers the last merge that worked. */
module SkillRegistry {
  import opened Options
  import opened Sequences
  import opened Text

  datatype Skill = Skill(id: string, body: string)

  datatype SkillRegistryError = EmptySkillId | DuplicateSkillId(id: string)

  type Skills = map<string, Skill>

  function TrimmedId(s: Skill): string {
    Trim(s.id)
  }

  function Register(skills: Skills, s: Skill): Result<Skills, SkillRegistryError> {
    if TrimmedId(s) == "" then Err(EmptySkillId)
    else if TrimmedId(s) in skills then Err(DuplicateSkillId(TrimmedId(s)))
    else Ok(skills[TrimmedId(s) := s])
  }

  /** Registers one after the other, up to the first that is refused. */
  function RegisterAll(skills: Skills, listing: seq<Skill>): Result<Skills, SkillRegistryError>
    decreases |listing|
  {
    if listing == [] then Ok(skills)
    else
      var r := Register(skills, listing[0]);
      if r.Err? then r else RegisterAll(r.value, listing[1..])
  }

  function UpsertAll(skills: Skills, listing: seq<Skill>): Skills
    decreases |listing|
  {
    if listing == [] then skills
    else UpsertAll(if TrimmedId(listing[0]) == "" then skills else skills[TrimmedId(listing[0]) := listing[0]],
                   listing[1..])
  }

  /** Registration accepts the first n skills and refuses the next one. */
  predicate StopsAt(before: Skills, listing: seq<Skill>, n: nat, after: Skills, error: SkillRegistryError) {
    n < |listing| && RegisterAll(before, listing[..n]) == Ok(after) && Register(after, listing[n]) == Err(error)
  }

  lemma RegisterAllOne(m: Skills, s: Skill)
    ensures RegisterAll(m, [s]) == Register(m, s)
  {
    assert [s][1..] == [];
  }

  class InMemorySkillRegistry {
    var skills: Skills

    constructor ()
      ensures skills == map[]
    {
      skills := map[];
    }

    method RegisterSkill(skill: Skill) returns (r: Result<(), SkillRegistryError>)
      modifies this
      ensures var spec := Register(old(skills), skill);
              if spec.Err? then r == Err(spec.error) && skills == old(skills)
              else r == Ok(()) && skills == spec.value
    {
      var id := Trim(skill.id);
      if id == "" {
        return Err(EmptySkillId);
      }
      if id in skills {
        return Err(DuplicateSkillId(id));
      }
      skills := skills[id := skill];
      return Ok(());
    }

    method ExtendUpsert(listing: seq<Skill>)
      modifies this
      ensures skills == UpsertAll(old(skills), listing)
    {
      assert listing[0..] == listing;
      for i := 0 to |listing|
        invariant UpsertAll(skills, listing[i..]) == UpsertAll(old(skills), listing)
      {
        assert listing[i..][1..] == listing[i + 1..];
        var id := Trim(listing[i].id);
        if id == "" {
          continue;
        }
        skills := skills[id := listing[i]];
      }
      assert listing[|listing|..] == [];
    }

    /** `listing` is the other registry's snapshot, in the order it is iterated. What
        was registered before a refusal stays. */
    method ExtendRegistry(listing: seq<Skill>) returns (r: Result<(), SkillRegistryError>)
      modifies this
      ensures var spec := RegisterAll(old(skills), listing);
              if spec.Err? then r == Err(spec.error) else r == Ok(()) && skills == spec.value
      ensures r.Err? ==> exists n: nat :: StopsAt(old(skills), listing, n, skills, r.error)
    {
      for i := 0 to |listing|
        invariant RegisterAll(old(skills), listing[..i]) == Ok(skills)
      {
        var one := RegisterSkill(listing[i]);
        assert listing[..i + 1] == listing[..i] + [listing[i]];
        RegisterAllConcat(old(skills), listing[..i], [listing[i]]);
        RegisterAllOne(skills, listing[i]);
        if one.Err? {
          assert listing == listing[..i + 1] + listing[i + 1..];
          RegisterAllConcat(old(skills), listing[..i + 1], listing[i + 1..]);
          RegisterAllOne(RegisterAll(old(skills), listing[..i]).value, listing[i]);
          assert StopsAt(old(skills), listing, i, skills, one.error);
          return one;
        }
        RegisterAllOne(RegisterAll(old(skills), listing[..i]).value, listing[i]);
      }
      assert listing[..|listing|] == listing;
      return Ok(());
    }
  }

  // ------------------------------------------------------------------
  // Merging
  // ------------------------------------------------------------------

  function Merge(sources: seq<seq<Skill>>): Result<Skills, SkillRegistryError> {
    RegisterAll(map[], Flatten(sources))
  }

  /** No identifier is blank, and none belongs to two of the skills. */
  predicate Distinct(skills: multiset<Skill>) {
    (forall s :: s in skills ==> TrimmedId(s) != "" && skills[s] == 1) &&
    forall s, t :: s in skills && t in skills && TrimmedId(s) == TrimmedId(t) ==> s == t
  }

  /** Each of the skills under its trimmed identifier, and nothing else. */
  predicate IsUnion(m: Skills, skills: multiset<Skill>) {
    (forall s :: s in skills ==> TrimmedId(s) in m && m[TrimmedId(s)] == s) &&
    forall k :: k in m ==> m[k] in skills && TrimmedId(m[k]) == k
  }

  lemma UnionIsUnique(m: Skills, n: Skills, skills: multiset<Skill>)
    requires IsUnion(m, skills) && IsUnion(n, skills)
    ensures m == n
  {
    assert m.Keys == n.Keys by {
      forall k ensures k in m <==> k in n {
        if k in m { assert m[k] in skills; }
        if k in n { assert n[k] in skills; }
      }
    }
  }

  lemma RegisterStep(m: Skills, seen: multiset<Skill>, s: Skill)
    requires Distinct(seen) && IsUnion(m, seen)
    ensures Register(m, s).Ok? <==> Distinct(seen + multiset{s})
    ensures Register(m, s).Ok? ==> IsUnion(Register(m, s).value, seen + multiset{s})
  {
    var all := seen + multiset{s};
    assert s in all;
    if TrimmedId(s) in m {
      var t := m[TrimmedId(s)];
      assert t in seen && TrimmedId(t) == TrimmedId(s);
      assert t == s ==> all[s] >= 2;
      assert t in all;
    } else {
      assert s !in seen;
    }
  }

  lemma DistinctShrinks(a: multiset<Skill>, b: multiset<Skill>)
    requires Distinct(b) && a <= b
    ensures Distinct(a)
  {
    forall s | s in a ensures a[s] == 1 && TrimmedId(s) != "" { assert s in b && a[s] <= b[s]; }
  }

  lemma {:induction false} RegisterAllIff(m: Skills, seen: multiset<Skill>, listing: seq<Skill>)
    requires Distinct(seen) && IsUnion(m, seen)
    ensures RegisterAll(m, listing).Ok? <==> Distinct(seen + multiset(listing))
    ensures RegisterAll(m, listing).Ok? ==> IsUnion(RegisterAll(m, listing).value, seen + multiset(listing))
    decreases |listing|
  {
    if listing == [] {
      assert seen + multiset(listing) == seen;
    } else {
      var s, rest := listing[0], listing[1..];
      assert listing == [s] + rest;
      assert seen + multiset{s} + multiset(rest) == seen + multiset(listing);
      RegisterStep(m, seen, s);
      if Register(m, s).Ok? {
        RegisterAllIff(Register(m, s).value, seen + multiset{s}, rest);
      } else if Distinct(seen + multiset(listing)) {
        DistinctShrinks(seen + multiset{s}, seen + multiset(listing));
      }
    }
  }

  /** Merging succeeds exactly when the identifiers are non-blank and distinct, and
      then yields the union of the sources. */
  lemma MergeIff(sources: seq<seq<Skill>>)
    ensures Merge(sources).Ok? <==> Distinct(multiset(Flatten(sources)))
    ensures Merge(sources).Ok? ==> IsUnion(Merge(sources).value, multiset(Flatten(sources)))
  {
    var all := multiset(Flatten(sources));
    RegisterAllIff(map[], multiset{}, Flatten(sources));
    assert multiset{} + all == all;
  }

  /** Neither the outcome nor the result depends on the order in which the sources,
      or the skills within them, are met. */
  lemma MergeIsOrderFree(a: seq<seq<Skill>>, b: seq<seq<Skill>>)
    requires multiset(Flatten(a)) == multiset(Flatten(b))
    ensures Merge(a).Ok? == Merge(b).Ok?
    ensures Merge(a).Ok? ==> Merge(a) == Merge(b)
  {
    MergeIff(a);
    MergeIff(b);
    if Merge(a).Ok? {
      UnionIsUnique(Merge(a).value, Merge(b).value, multiset(Flatten(a)));
    }
  }

  lemma {:induction false} RegisterAllConcat(m: Skills, a: seq<Skill>, b: seq<Skill>)
    ensures RegisterAll(m, a + b) ==
            var r := RegisterAll(m, a); if r.Err? then r else RegisterAll(r.value, b)
    decreases |a|
  {
    if a == [] {
      assert a + b == b;
    } else {
      assert (a + b)[0] == a[0] && (a + b)[1..] == a[1..] + b;
      var r := Register(m, a[0]);
      if r.Ok? { RegisterAllConcat(r.value, a[1..], b); }
    }
  }

  // ------------------------------------------------------------------
  // The composite and its cache
  // ------------------------------------------------------------------

  /** The snapshot returned, and cached, when the sources are as listed. */
  function Refreshed(cached: Skills, sources: seq<seq<Skill>>): Skills {
    var merged := Merge(sources);
    if merged.Ok? then merged.value else cached
  }

  class CompositeSkillRegistry {
    var cached: Skills

    constructor (initial: Skills)
      ensures cached == initial
    {
      cached := initial;
    }

    static method TryNew(sources: seq<seq<Skill>>) returns (r: Result<CompositeSkillRegistry, SkillRegistryError>)
      ensures r.Ok? <==> Mergeable(sources)
      ensures r.Ok? ==> fresh(r.value) && IsUnion(r.value.cached, multiset(Flatten(sources)))
    {
      MergeIff(sources);
      var merged := MergeSnapshots(sources);
      if merged.Err? {
        return Err(merged.error);
      }
      var composite := new CompositeSkillRegistry(merged.value);
      return Ok(composite);
    }

    static method MergeSnapshots(sources: seq<seq<Skill>>) returns (r: Result<Skills, SkillRegistryError>)
      ensures r == Merge(sources)
    {
      var merged := new InMemorySkillRegistry();
      assert sources[..|sources|] == sources;
      for i := 0 to |sources|
        invariant fresh(merged)
        invariant RegisterAll(map[], Flatten(sources[..i])) == Ok(merged.skills)
      {
        assert sources[..i + 1] == sources[..i] + [sources[i]];
        FlattenSnoc(sources[..i], sources[i]);
        RegisterAllConcat(map[], Flatten(sources[..i]), sources[i]);
        var one := merged.ExtendRegistry(sources[i]);
        if one.Err? {
          FlattenSplit(sources, i + 1);
          RegisterAllConcat(map[], Flatten(sources[..i + 1]), Flatten(sources[i + 1..]));
          return Err(one.error);
        }
      }
      return Ok(merged.skills);
    }

    method Snapshot(sources: seq<seq<Skill>>) returns (snapshot: Skills)
      modifies this
      ensures snapshot == cached == Refreshed(old(cached), sources)
    {
      var merged := MergeSnapshots(sources);
      if merged.Ok? {
        cached := merged.value;
        return merged.value;
      }
      return cached;
    }
  }

  /** The cache after a series of reads, each finding the sources as listed. */
  function AfterReads(cached: Skills, history: seq<seq<seq<Skill>>>): Skills
    decreases |history|
  {
    if history == [] then cached else AfterReads(Refreshed(cached, history[0]), history[1..])
  }

  predicate Mergeable(sources: seq<seq<Skill>>) {
    Distinct(multiset(Flatten(sources)))
  }

  lemma RefreshedIff(cached: Skills, sources: seq<seq<Skill>>)
    ensures Mergeable(sources) ==> IsUnion(Refreshed(cached, sources), multiset(Flatten(sources)))
    ensures !Mergeable(sources) ==> Refreshed(cached, sources) == cached
  {
    MergeIff(sources);
  }

  /** The snapshot is the union of the sources as of the last read at which their
      identifiers were distinct; without one, it is as it was at construction. */
  lemma {:induction false} SnapshotIsLastMergeable(cached: Skills, history: seq<seq<seq<Skill>>>, last: int)
    requires -1 <= last < |history|
    requires last >= 0 ==> Mergeable(history[last])
    requires forall i :: last < i < |history| ==> !Mergeable(history[i])
    ensures last >= 0 ==> IsUnion(AfterReads(cached, history), multiset(Flatten(history[last])))
    ensures last < 0 ==> AfterReads(cached, history) == cached
    decreases |history|
  {
    if history != [] {
      var next, rest := Refreshed(cached, history[0]), history[1..];
      RefreshedIff(cached, history[0]);
      var last' := if last >= 0 then last - 1 else -1;
      assert forall i :: last' < i < |rest| ==> rest[i] == history[i + 1];
      SnapshotIsLastMergeable(next, rest, last');
    }
  }

  // ------------------------------------------------------------------
  // Starting every source, or none
  // ------------------------------------------------------------------

  /** Starts the refresh of each source that is not running. `refreshes` tells which
      sources have a refresh at all: the others report success and never run. `fails`
      tells which cannot be started. A failure stops those started here, and no others. */
  method StartPeriodicRefresh(running: array<bool>, refreshes: nat -> bool, fails: nat -> bool) returns (ok: bool)
    requires forall i :: 0 <= i < running.Length && running[i] ==> refreshes(i)
    modifies running
    ensures ok <==> forall i :: 0 <= i < running.Length ==> old(running[i]) || !refreshes(i) || !fails(i)
    ensures ok ==> forall i :: 0 <= i < running.Length ==> running[i] == refreshes(i)
    ensures !ok ==> running[..] == old(running[..])
  {
    var started: seq<nat> := [];
    for i := 0 to running.Length
      invariant forall j :: 0 <= j < i ==> running[j] == refreshes(j)
      invariant forall j :: 0 <= j < i ==> old(running[j]) || !refreshes(j) || !fails(j)
      invariant forall j :: i <= j < running.Length ==> running[j] == old(running[j])
      invariant forall j :: 0 <= j < i ==> (j in started <==> !old(running[j]))
      invariant forall j :: j in started ==> 0 <= j < i
    {
      if running[i] {
        continue;
      }
      if refreshes(i) && fails(i) {
        for n := 0 to |started|
          invariant forall j :: 0 <= j < running.Length ==>
            running[j] == if j in started[..n] then false else (old(running[j]) || (j in started && refreshes(j)))
        {
          assert started[n] in started;
          running[started[n]] := false;
        }
        assert started[..|started|] == started;
        return false;
      }
      running[i] := refreshes(i);
      started := started + [i];
    }
    return true;
  }

  // ------------------------------------------------------------------
  // What registering and upserting leave
  // ------------------------------------------------------------------

  /** A skill goes under its identifier without the white space around it; a blank or
      taken identifier is refused. */
  lemma RegisterIff(skills: Skills, before: string, id: string, after: string, body: string)
    requires IsBlank(before) && IsBlank(after)
    requires id != "" ==> !IsWhitespace(id[0]) && !IsWhitespace(id[|id| - 1])
    ensures Register(skills, Skill(before + id + after, body)) ==
            if id == "" then Err(EmptySkillId)
            else if id in skills then Err(DuplicateSkillId(id))
            else Ok(skills[id := Skill(before + id + after, body)])
  {
    TrimPadded(before, id, after);
  }

  /** After upserting a listing an identifier has the last skill listed under it, or the
      one it had. */
  lemma {:induction false} UpsertTakesLast(skills: Skills, listing: seq<Skill>, id: string, last: nat)
    requires id != "" && last <= |listing|
    requires last < |listing| ==> TrimmedId(listing[last]) == id
    requires forall k :: 0 <= k < |listing| && (last == |listing| || k > last) ==> TrimmedId(listing[k]) != id
    ensures var after := UpsertAll(skills, listing);
            if last < |listing| then id in after && after[id] == listing[last]
            else (id in after <==> id in skills) && (id in skills ==> after[id] == skills[id])
    decreases |listing|
  {
    if listing != [] {
      var s := listing[0];
      var next := if TrimmedId(s) == "" then skills else skills[TrimmedId(s) := s];
      if last == 0 {
        assert forall k :: 0 <= k < |listing[1..]| ==> listing[1..][k] == listing[k + 1];
        UpsertTakesLast(next, listing[1..], id, |listing| - 1);
      } else {
        assert forall k :: 0 <= k < |listing[1..]| ==> listing[1..][k] == listing[k + 1];
        UpsertTakesLast(next, listing[1..], id, last - 1);
      }
    }
  }

  /** Skills with a blank identifier are skipped. */
  lemma {:induction false} UpsertSkipsBlank(skills: Skills, listing: seq<Skill>)
    ensures "" in UpsertAll(skills, listing) <==> "" in skills
    decreases |listing|
  {
    if listing != [] {
      var s := listing[0];
      UpsertSkipsBlank(if TrimmedId(s) == "" then skills else skills[TrimmedId(s) := s], listing[1..]);
    }
  }
}
