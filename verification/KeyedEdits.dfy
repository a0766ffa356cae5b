/** Updates of a keyed table: what an update decides about a key it decides
    whatever the table held before. */
module KeyedEdits {
  import opened Options

  /** Optionally empties the table, then sets or removes some keys. */
  datatype Edit<K, V> = Edit(clears: bool, puts: map<K, Option<V>>)

  function Perform<K, V>(m: map<K, V>, e: Edit<K, V>): map<K, V> {
    map k | k in m.Keys + e.puts.Keys && (if k in e.puts then e.puts[k].Some? else !e.clears) ::
      if k in e.puts then e.puts[k].value else m[k]
  }

  function Lookup<K, V>(m: map<K, V>, k: K): Option<V> {
    if k in m then Some(m[k]) else None
  }

  predicate Decides<K, V>(e: Edit<K, V>, k: K) {
    k in e.puts || e.clears
  }

  function Decision<K, V>(e: Edit<K, V>, k: K): Option<V> {
    if k in e.puts then e.puts[k] else None
  }

  lemma PerformDecides<K, V>(m: map<K, V>, e: Edit<K, V>, k: K)
    ensures Lookup(Perform(m, e), k) == if Decides(e, k) then Decision(e, k) else Lookup(m, k)
  {
  }

  lemma SameLookups<K(!new), V>(a: map<K, V>, b: map<K, V>)
    requires forall k :: Lookup(a, k) == Lookup(b, k)
    ensures a == b
  {
    assert forall k :: (k in a <==> k in b) by {
      forall k ensures k in a <==> k in b { assert Lookup(a, k) == Lookup(b, k); }
    }
    forall k | k in a ensures a[k] == b[k] { assert Lookup(a, k) == Lookup(b, k); }
  }

  /** Wherever both edits decide, they decide alike. */
  ghost predicate Agree<K(!new), V>(e: Edit<K, V>, f: Edit<K, V>) {
    forall k :: Decides(e, k) && Decides(f, k) ==> Decision(e, k) == Decision(f, k)
  }

  lemma KeyCommutesIff<K, V>(m: map<K, V>, e: Edit<K, V>, f: Edit<K, V>, k: K)
    ensures Lookup(Perform(Perform(m, e), f), k) == Lookup(Perform(Perform(m, f), e), k) <==>
            (Decides(e, k) && Decides(f, k) ==> Decision(e, k) == Decision(f, k))
  {
    PerformDecides(m, e, k);
    PerformDecides(m, f, k);
    PerformDecides(Perform(m, e), f, k);
    PerformDecides(Perform(m, f), e, k);
  }

  /** Two edits can be applied in either order exactly when they agree; the table
      they are applied to makes no difference. */
  lemma CommuteIff<K(!new), V>(m: map<K, V>, e: Edit<K, V>, f: Edit<K, V>)
    ensures Perform(Perform(m, e), f) == Perform(Perform(m, f), e) <==> Agree(e, f)
  {
    var ef, fe := Perform(Perform(m, e), f), Perform(Perform(m, f), e);
    forall k
      ensures Lookup(ef, k) == Lookup(fe, k) <==>
              (Decides(e, k) && Decides(f, k) ==> Decision(e, k) == Decision(f, k))
    {
      KeyCommutesIff(m, e, f, k);
    }
    if Agree(e, f) {
      SameLookups(ef, fe);
    }
  }

  // ------------------------------------------------------------------
  // Runs
  // ------------------------------------------------------------------

  function PerformAll<K, V>(m: map<K, V>, edits: seq<Edit<K, V>>): map<K, V>
    decreases |edits|
  {
    if edits == [] then m else PerformAll(Perform(m, edits[0]), edits[1..])
  }

  /** What the last of the edits that decide about a key says; none if none does. */
  function LastDecision<K, V>(edits: seq<Edit<K, V>>, k: K): Option<Option<V>>
    decreases |edits|
  {
    if edits == [] then None
    else
      var later := LastDecision(edits[1..], k);
      if later.Some? then later
      else if Decides(edits[0], k) then Some(Decision(edits[0], k)) else None
  }

  /** After any run, each key is as the last edit that decided about it left it. */
  lemma {:induction false} LastDecisionWins<K, V>(m: map<K, V>, edits: seq<Edit<K, V>>, k: K)
    ensures Lookup(PerformAll(m, edits), k) ==
            var last := LastDecision(edits, k); if last.Some? then last.value else Lookup(m, k)
    decreases |edits|
  {
    if edits != [] {
      PerformDecides(m, edits[0], k);
      LastDecisionWins(Perform(m, edits[0]), edits[1..], k);
    }
  }

  // ------------------------------------------------------------------
  // Batches of assignments
  // ------------------------------------------------------------------

  /** Assignments made one after the other. */
  function Assign<K, V>(m: map<K, V>, entries: seq<(K, V)>): map<K, V>
    decreases |entries|
  {
    if entries == [] then m else Assign(m[entries[0].0 := entries[0].1], entries[1..])
  }

  function Puts<K, V>(entries: seq<(K, V)>): map<K, Option<V>>
    decreases |entries|
  {
    if entries == [] then map[]
    else
      var n := |entries| - 1;
      Puts(entries[..n])[entries[n].0 := Some(entries[n].1)]
  }

  lemma {:induction false} AssignSnoc<K, V>(m: map<K, V>, entries: seq<(K, V)>, last: (K, V))
    ensures Assign(m, entries + [last]) == Assign(m, entries)[last.0 := last.1]
    decreases |entries|
  {
    if entries == [] {
      assert (entries + [last])[1..] == [];
    } else {
      assert (entries + [last])[0] == entries[0] && (entries + [last])[1..] == entries[1..] + [last];
      AssignSnoc(m[entries[0].0 := entries[0].1], entries[1..], last);
    }
  }

  /** A batch is one edit in which the last assignment to a key counts. */
  lemma {:induction false} BatchIsEdit<K, V>(m: map<K, V>, entries: seq<(K, V)>)
    ensures Assign(m, entries) == Perform(m, Edit(false, Puts(entries)))
    decreases |entries|
  {
    if entries == [] {
      assert Perform(m, Edit(false, map[])) == m;
    } else {
      var n := |entries| - 1;
      assert entries == entries[..n] + [entries[n]];
      BatchIsEdit(m, entries[..n]);
      AssignSnoc(m, entries[..n], entries[n]);
      var before, after := Perform(m, Edit(false, Puts(entries[..n]))), Perform(m, Edit(false, Puts(entries)));
      assert after == before[entries[n].0 := entries[n].1];
    }
  }
}
