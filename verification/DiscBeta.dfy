/** Per-tool discounted Beta estimates of how often a tool is used. Floating
    point numbers are modelled as reals; a square root is any non-negative
    number whose square is the radicand. */
module DiscBeta {
  import opened Options
  import KeyedEdits
  import opened RealPowers
  import opened Tools

  datatype Entry = Entry(alpha: real, betaParam: real, lastUsedTurn: Option<nat>, c: real, cBar: real)

  predicate Valid(e: Entry) {
    e.alpha >= 0.0 && e.betaParam >= 0.0
  }

  predicate Positive(e: Entry) {
    e.alpha > 0.0 && e.betaParam > 0.0
  }

  /** Totals below this count as no evidence at all. */
  const NEGLIGIBLE: real := 0.0000000001

  function Max(a: real, b: real): real {
    if a < b then b else a
  }

  function NewEntry(pPrior: real, n0: real, c: real, cBar: real): (e: Entry)
    ensures Positive(e) && Total(e) >= NEGLIGIBLE
    ensures 0.0 <= pPrior <= 1.0 && n0 >= 0.0 ==> n0 <= Total(e) <= n0 + 0.02
  {
    assert pPrior * n0 + (1.0 - pPrior) * n0 == n0;
    assert 0.0 <= pPrior <= 1.0 && n0 >= 0.0 ==> pPrior * n0 >= 0.0 && (1.0 - pPrior) * n0 >= 0.0 by {
      if 0.0 <= pPrior <= 1.0 && n0 >= 0.0 {
        NonNegativeProduct(pPrior, n0);
        NonNegativeProduct(1.0 - pPrior, n0);
      }
    }
    Entry(Max(pPrior * n0, 0.01), Max((1.0 - pPrior) * n0, 0.01), None, c, cBar)
  }

  function Total(e: Entry): real {
    e.alpha + e.betaParam
  }

  function Mean(e: Entry): real {
    if Total(e) < NEGLIGIBLE then 0.0 else e.alpha / Total(e)
  }

  function Variance(e: Entry): real
    requires Valid(e) && Total(e) >= NEGLIGIBLE
  {
    var total := Total(e);
    assert total * total * (total + 1.0) > 0.0 by { assert total * total > 0.0; }
    (e.alpha * e.betaParam) / (total * total * (total + 1.0))
  }

  function ZScore(confidence: real): real {
    if confidence >= 0.95 then 1.645 else if confidence >= 0.90 then 1.282 else 1.0
  }

  predicate IsSqrt(r: real, x: real) {
    r >= 0.0 && r * r == x
  }

  /** The upper credible bound, given the standard deviation. */
  function UpperCi(e: Entry, confidence: real, deviation: real): real {
    if Total(e) < NEGLIGIBLE then 1.0
    else
      var upper := Mean(e) + ZScore(confidence) * deviation;
      if upper < 1.0 then upper else 1.0
  }

  /** The bound on the raw numbers: the share of alpha and as many deviations as the
      confidence asks for, at most one; one without evidence. */
  lemma UpperCiOnNumbers(e: Entry, deviation: real)
    requires deviation >= 0.0
    ensures var total := e.alpha + e.betaParam;
            if total < 0.0000000001
            then UpperCi(e, 0.95, deviation) == UpperCi(e, 0.90, deviation) == 1.0 && Mean(e) == 0.0
            else
              UpperCi(e, 0.95, deviation) == AtMostOne(e.alpha / total + 1.645 * deviation) &&
              UpperCi(e, 0.90, deviation) == AtMostOne(e.alpha / total + 1.282 * deviation) &&
              forall low: real :: low < 0.90 ==> UpperCi(e, low, deviation) == AtMostOne(e.alpha / total + deviation)
  {
  }

  function AtMostOne(x: real): real {
    if x < 1.0 then x else 1.0
  }

  /** A prior that both parameters reach is the mean of the new entry. */
  lemma NewEntryIsPrior(pPrior: real, n0: real, c: real, cBar: real)
    ensures var e := NewEntry(pPrior, n0, c, cBar);
            e.lastUsedTurn == None && e.c == c && e.cBar == cBar &&
            (pPrior * n0 >= 0.01 && (1.0 - pPrior) * n0 >= 0.01 ==> Total(e) == n0 && Mean(e) == pPrior) &&
            (pPrior * n0 < 0.01 ==> e.alpha == 0.01) &&
            ((1.0 - pPrior) * n0 < 0.01 ==> e.betaParam == 0.01)
  {
    var e := NewEntry(pPrior, n0, c, cBar);
    if pPrior * n0 >= 0.01 && (1.0 - pPrior) * n0 >= 0.01 {
      assert pPrior * n0 + (1.0 - pPrior) * n0 == n0;
      ShareOfProduct(pPrior, n0);
    }
  }

  lemma ShareOfProduct(p: real, n: real)
    requires n > 0.0
    ensures p * n / n == p
  {
  }

  /** Deciding the bound against a threshold without taking a root. */
  predicate UpperCiBelow(e: Entry, confidence: real, threshold: real)
    requires Valid(e)
  {
    1.0 < threshold ||
    (Total(e) >= NEGLIGIBLE && Mean(e) < threshold &&
     Square(ZScore(confidence)) * Variance(e) < Square(threshold - Mean(e)))
  }

  lemma UpperCiBelowIff(e: Entry, confidence: real, threshold: real, deviation: real)
    requires Valid(e)
    requires Total(e) >= NEGLIGIBLE ==> IsSqrt(deviation, Variance(e))
    ensures UpperCi(e, confidence, deviation) < threshold <==> UpperCiBelow(e, confidence, threshold)
  {
    if Total(e) >= NEGLIGIBLE {
      ScaledRoot(ZScore(confidence), deviation, Variance(e));
      SquaresCompare(ZScore(confidence) * deviation, threshold - Mean(e));
    }
  }

  lemma ScaledRoot(z: real, r: real, x: real)
    requires z >= 0.0 && IsSqrt(r, x)
    ensures z * r >= 0.0 && Square(z * r) == Square(z) * x
  {
    NonNegativeProduct(z, r);
    assert (z * r) * (z * r) == (z * z) * (r * r);
  }

  lemma SquareGrows(a: real, step: real)
    requires a >= 0.0 && step > 0.0
    ensures Square(a) < Square(a + step)
  {
    NonNegativeProduct(a, step);
    SquarePositive(step);
    assert Square(a + step) == Square(a) + 2.0 * (a * step) + Square(step);
  }

  lemma SquaresCompare(a: real, b: real)
    requires a >= 0.0
    ensures a < b <==> b > 0.0 && Square(a) < Square(b)
  {
    if b > 0.0 {
      if a < b {
        SquareGrows(a, b - a);
        assert a + (b - a) == b;
      } else {
        NonNegativeProduct(b, a - b);
        NonNegativeProduct(a - b, a - b);
        assert Square(b + (a - b)) == Square(b) + 2.0 * (b * (a - b)) + (a - b) * (a - b);
        assert b + (a - b) == a;
      }
    }
  }

  /** Frequency below which deferring pays; none when it never can. */
  function BreakevenP(e: Entry, gamma: real): Option<real> {
    var saving := e.c - e.cBar;
    if saving <= 0.0 || gamma <= 0.0 then None else Some(saving / gamma)
  }

  // ------------------------------------------------------------------
  // Observing turns
  // ------------------------------------------------------------------

  function Observe(e: Entry, omega: real, turn: nat, called: bool): Entry {
    if called
    then e.(alpha := e.alpha * omega + 1.0, betaParam := e.betaParam * omega, lastUsedTurn := Some(turn))
    else e.(alpha := e.alpha * omega, betaParam := e.betaParam * omega + 1.0)
  }

  function ObserveTools(tools: map<ToolId, Entry>, omega: real, turn: nat, called: set<ToolId>)
    : map<ToolId, Entry>
  {
    map id | id in tools :: Observe(tools[id], omega, turn, id in called)
  }

  /** Entries already present are kept. */
  function InitTools(tools: map<ToolId, Entry>, entries: seq<(ToolId, Entry)>): map<ToolId, Entry>
    decreases |entries|
  {
    if entries == [] then tools
    else
      var (id, e) := entries[0];
      InitTools(if id in tools then tools else tools[id := e], entries[1..])
  }

  class DiscBetaState {
    var tools: map<ToolId, Entry>

    constructor ()
      ensures tools == map[]
    {
      tools := map[];
    }

    method InitBatch(entries: seq<(ToolId, Entry)>)
      modifies this
      ensures tools == InitTools(old(tools), entries)
    {
      assert entries[0..] == entries;
      for i := 0 to |entries|
        invariant InitTools(tools, entries[i..]) == InitTools(old(tools), entries)
      {
        assert entries[i..][1..] == entries[i + 1..];
        var (id, entry) := entries[i];
        if id !in tools {
          tools := tools[id := entry];
        }
      }
      assert entries[|entries|..] == [];
    }

    /** Discounts every tool in turn, in any order, then credits it. */
    method ObserveTurn(omega: real, currentTurn: nat, toolsCalled: seq<ToolId>)
      modifies this
      ensures tools == ObserveTools(old(tools), omega, currentTurn, set id | id in toolsCalled)
    {
      var calledSet := set id | id in toolsCalled;
      var todo := tools.Keys;
      while todo != {}
        invariant todo <= tools.Keys == old(tools).Keys
        invariant forall id :: id in tools ==>
          tools[id] == if id in todo then old(tools)[id]
                       else Observe(old(tools)[id], omega, currentTurn, id in calledSet)
        decreases todo
      {
        var id :| id in todo;
        var entry := tools[id];
        entry := entry.(alpha := entry.alpha * omega, betaParam := entry.betaParam * omega);
        if id in calledSet {
          entry := entry.(alpha := entry.alpha + 1.0, lastUsedTurn := Some(currentTurn));
        } else {
          entry := entry.(betaParam := entry.betaParam + 1.0);
        }
        tools := tools[id := entry];
        todo := todo - {id};
      }
    }
  }

  // ------------------------------------------------------------------
  // Order of observations
  // ------------------------------------------------------------------

  lemma EntryObservationsCommuteIff(e: Entry, omega1: real, turn1: nat, called1: bool,
                                    omega2: real, turn2: nat, called2: bool)
    ensures Observe(Observe(e, omega1, turn1, called1), omega2, turn2, called2)
              == Observe(Observe(e, omega2, turn2, called2), omega1, turn1, called1) <==>
            omega1 == omega2 && (called1 == called2 || omega1 == 1.0) && (called1 && called2 ==> turn1 == turn2)
  {
    DiscountTwice(e.alpha, omega1, omega2);
    DiscountTwice(e.alpha, omega2, omega1);
    DiscountTwice(e.betaParam, omega1, omega2);
    DiscountTwice(e.betaParam, omega2, omega1);
  }

  lemma DiscountTwice(x: real, omega1: real, omega2: real)
    ensures x * omega1 * omega2 == x * omega2 * omega1
    ensures (x * omega1 + 1.0) * omega2 == x * omega1 * omega2 + omega2
  {
  }

  /** The key of this state is declared to take its updates in any order. Two
      observations of turns do so exactly when, for every tool known, they discount
      alike, agree on whether the tool was called (unless nothing is discounted),
      and name the same turn if both called it. */
  lemma ObservationsCommuteIff(tools: map<ToolId, Entry>, omega1: real, turn1: nat, called1: set<ToolId>,
                               omega2: real, turn2: nat, called2: set<ToolId>)
    ensures ObserveTools(ObserveTools(tools, omega1, turn1, called1), omega2, turn2, called2)
              == ObserveTools(ObserveTools(tools, omega2, turn2, called2), omega1, turn1, called1) <==>
            forall id :: id in tools ==>
              omega1 == omega2 &&
              ((id in called1) == (id in called2) || omega1 == 1.0) &&
              (id in called1 && id in called2 ==> turn1 == turn2)
  {
    var left := ObserveTools(ObserveTools(tools, omega1, turn1, called1), omega2, turn2, called2);
    var right := ObserveTools(ObserveTools(tools, omega2, turn2, called2), omega1, turn1, called1);
    assert left.Keys == tools.Keys == right.Keys;
    assert left == right <==> forall id :: id in tools ==> left[id] == right[id];
    forall id | id in tools
      ensures left[id] == right[id] <==>
              omega1 == omega2 && ((id in called1) == (id in called2) || omega1 == 1.0) &&
              (id in called1 && id in called2 ==> turn1 == turn2)
    {
      EntryObservationsCommuteIff(tools[id], omega1, turn1, id in called1, omega2, turn2, id in called2);
    }
  }

  function FirstEntry(entries: seq<(ToolId, Entry)>, id: ToolId): Option<Entry>
    decreases |entries|
  {
    if entries == [] then None
    else if entries[0].0 == id then Some(entries[0].1)
    else FirstEntry(entries[1..], id)
  }

  /** A batch keeps the tools known before and adds the others with the first
      entry it has for them. */
  lemma {:induction false} InitTakesFirst(tools: map<ToolId, Entry>, entries: seq<(ToolId, Entry)>, id: ToolId)
    ensures KeyedEdits.Lookup(InitTools(tools, entries), id) ==
            if id in tools then Some(tools[id]) else FirstEntry(entries, id)
    decreases |entries|
  {
    if entries != [] {
      var (first, e) := entries[0];
      InitTakesFirst(if first in tools then tools else tools[first := e], entries[1..], id);
    }
  }

  /** Two batches commute exactly when they agree on every tool new to the state
      that both name. */
  lemma InitsCommuteIff(tools: map<ToolId, Entry>, entries1: seq<(ToolId, Entry)>, entries2: seq<(ToolId, Entry)>)
    ensures InitTools(InitTools(tools, entries1), entries2) == InitTools(InitTools(tools, entries2), entries1) <==>
            forall id :: id !in tools && FirstEntry(entries1, id).Some? && FirstEntry(entries2, id).Some? ==>
              FirstEntry(entries1, id) == FirstEntry(entries2, id)
  {
    var once1, once2 := InitTools(tools, entries1), InitTools(tools, entries2);
    var left, right := InitTools(once1, entries2), InitTools(once2, entries1);
    forall id
      ensures KeyedEdits.Lookup(left, id) == KeyedEdits.Lookup(right, id) <==>
              (id !in tools && FirstEntry(entries1, id).Some? && FirstEntry(entries2, id).Some? ==>
               FirstEntry(entries1, id) == FirstEntry(entries2, id))
    {
      InitTakesFirst(tools, entries1, id);
      InitTakesFirst(tools, entries2, id);
      InitTakesFirst(once1, entries2, id);
      InitTakesFirst(once2, entries1, id);
    }
    if forall id :: KeyedEdits.Lookup(left, id) == KeyedEdits.Lookup(right, id) { KeyedEdits.SameLookups(left, right); }
  }

  /** The one kind of entry that an observation leaves as it is: all evidence agrees
      with it, and has reached the level that the discount sustains. */
  predicate AtRest(e: Entry, omega: real, turn: nat, called: bool) {
    if called then e.betaParam == 0.0 && e.alpha * (1.0 - omega) == 1.0 && e.lastUsedTurn == Some(turn)
    else e.alpha == 0.0 && e.betaParam * (1.0 - omega) == 1.0
  }

  lemma KeptShareIff(x: real, omega: real)
    ensures x * omega == x <==> x == 0.0 || omega == 1.0
  {
    if x * omega == x && x != 0.0 {
      assert omega == x * omega / x;
    }
  }

  lemma SustainedIff(x: real, omega: real)
    ensures x * omega + 1.0 == x <==> x * (1.0 - omega) == 1.0
  {
    assert x * (1.0 - omega) == x - x * omega;
  }

  lemma ObservedRestsIff(e: Entry, omega: real, turn: nat, called: bool)
    ensures Observe(e, omega, turn, called) == e <==> AtRest(e, omega, turn, called)
  {
    var up, down := if called then e.alpha else e.betaParam, if called then e.betaParam else e.alpha;
    KeptShareIff(down, omega);
    SustainedIff(up, omega);
    assert omega == 1.0 ==> up * (1.0 - omega) == 0.0;
  }

  /** A batch commutes with an observed turn exactly when that turn would leave every
      tool it adds as it is. */
  lemma InitAndObserveCommuteIff(tools: map<ToolId, Entry>, entries: seq<(ToolId, Entry)>,
                                 omega: real, turn: nat, called: set<ToolId>)
    ensures ObserveTools(InitTools(tools, entries), omega, turn, called)
              == InitTools(ObserveTools(tools, omega, turn, called), entries) <==>
            forall id :: id !in tools && FirstEntry(entries, id).Some? ==>
              AtRest(FirstEntry(entries, id).value, omega, turn, id in called)
  {
    var known, observed := InitTools(tools, entries), ObserveTools(tools, omega, turn, called);
    var left, right := ObserveTools(known, omega, turn, called), InitTools(observed, entries);
    forall id
      ensures KeyedEdits.Lookup(left, id) == KeyedEdits.Lookup(right, id) <==>
              (id !in tools && FirstEntry(entries, id).Some? ==>
               AtRest(FirstEntry(entries, id).value, omega, turn, id in called))
    {
      InitTakesFirst(tools, entries, id);
      InitTakesFirst(observed, entries, id);
      if id !in tools && FirstEntry(entries, id).Some? {
        ObservedRestsIff(known[id], omega, turn, id in called);
      }
    }
    if forall id :: KeyedEdits.Lookup(left, id) == KeyedEdits.Lookup(right, id) {
      KeyedEdits.SameLookups(left, right);
    }
  }

  /** Entries made from priors are never at rest: such a batch commutes with an
      observed turn exactly when it adds no tool. */
  lemma PriorsAndObserveCommuteIff(tools: map<ToolId, Entry>, entries: seq<(ToolId, Entry)>,
                                   omega: real, turn: nat, called: set<ToolId>)
    requires forall k :: 0 <= k < |entries| ==> Positive(entries[k].1)
    ensures ObserveTools(InitTools(tools, entries), omega, turn, called)
              == InitTools(ObserveTools(tools, omega, turn, called), entries) <==>
            forall k :: 0 <= k < |entries| ==> entries[k].0 in tools
  {
    InitAndObserveCommuteIff(tools, entries, omega, turn, called);
    forall id | FirstEntry(entries, id).Some? ensures Positive(FirstEntry(entries, id).value) {
      FirstEntryIsListed(entries, id);
    }
    if k :| 0 <= k < |entries| && entries[k].0 !in tools {
      ListedHasFirstEntry(entries, k);
    } else {
      forall id ensures id in tools || FirstEntry(entries, id).None? {
        if FirstEntry(entries, id).Some? { FirstEntryIsListed(entries, id); }
      }
    }
  }

  lemma {:induction false} FirstEntryIsListed(entries: seq<(ToolId, Entry)>, id: ToolId)
    requires FirstEntry(entries, id).Some?
    ensures exists k :: 0 <= k < |entries| && entries[k] == (id, FirstEntry(entries, id).value)
    decreases |entries|
  {
    if entries[0].0 == id {
      assert entries[0] == (id, FirstEntry(entries, id).value);
    } else {
      FirstEntryIsListed(entries[1..], id);
      var k :| 0 <= k < |entries[1..]| && entries[1..][k] == (id, FirstEntry(entries, id).value);
      assert entries[k + 1] == (id, FirstEntry(entries, id).value);
    }
  }

  lemma {:induction false} ListedHasFirstEntry(entries: seq<(ToolId, Entry)>, k: nat)
    requires k < |entries|
    ensures FirstEntry(entries, entries[k].0).Some?
    decreases |entries|
  {
    if k > 0 { ListedHasFirstEntry(entries[1..], k - 1); }
  }

  // ------------------------------------------------------------------
  // Histories
  // ------------------------------------------------------------------

  datatype Turn = Turn(number: nat, called: set<ToolId>)

  function Run(tools: map<ToolId, Entry>, omega: real, history: seq<Turn>): map<ToolId, Entry>
    decreases |history|
  {
    if history == [] then tools
    else Run(ObserveTools(tools, omega, history[0].number, history[0].called), omega, history[1..])
  }

  function RunEntry(e: Entry, id: ToolId, omega: real, history: seq<Turn>): Entry
    decreases |history|
  {
    if history == [] then e
    else RunEntry(Observe(e, omega, history[0].number, id in history[0].called), id, omega, history[1..])
  }

  /** Tools do not influence one another. */
  lemma {:induction false} RunIsPointwise(tools: map<ToolId, Entry>, omega: real, history: seq<Turn>)
    ensures Run(tools, omega, history).Keys == tools.Keys
    ensures forall id :: id in tools ==>
      Run(tools, omega, history)[id] == RunEntry(tools[id], id, omega, history)
    decreases |history|
  {
    if history != [] {
      var next := ObserveTools(tools, omega, history[0].number, history[0].called);
      assert next.Keys == tools.Keys;
      RunIsPointwise(next, omega, history[1..]);
    }
  }

  lemma {:induction false} RunKeepsValid(e: Entry, id: ToolId, omega: real, history: seq<Turn>)
    requires Valid(e) && omega >= 0.0
    ensures Valid(RunEntry(e, id, omega, history))
    ensures RunEntry(e, id, omega, history).c == e.c && RunEntry(e, id, omega, history).cBar == e.cBar
    ensures history != [] ==> Total(RunEntry(e, id, omega, history)) >= 1.0
    decreases |history|
  {
    if history != [] {
      var next := Observe(e, omega, history[0].number, id in history[0].called);
      RunKeepsValid(next, id, omega, history[1..]);
    }
  }

  // ------------------------------------------------------------------
  // Effective sample size
  // ------------------------------------------------------------------

  function Discounted(total: real, omega: real): real {
    total * omega + 1.0
  }

  lemma ObserveTotal(e: Entry, omega: real, turn: nat, called: bool)
    ensures Total(Observe(e, omega, turn, called)) == Discounted(Total(e), omega)
  {
  }

  /** The closed form of the discounted number of observations. */
  function DiscountedSize(n0: real, omega: real, k: nat): real {
    Decayed(n0, omega, k) + GeometricSum(omega, k)
  }

  lemma DiscountedSizeFirst(n0: real, omega: real, k: nat)
    ensures DiscountedSize(Discounted(n0, omega), omega, k) == DiscountedSize(n0, omega, k + 1)
  {
    DecayedStep(n0, omega, k);
    GeometricSumSnoc(omega, k);
    assert Pow(omega, k) * (n0 * omega + 1.0) == Pow(omega, k) * (n0 * omega) + Pow(omega, k);
  }

  lemma {:induction false} GeometricSumSnoc(x: real, k: nat)
    ensures GeometricSum(x, k + 1) == GeometricSum(x, k) + Pow(x, k)
  {
    if k > 0 { GeometricSumSnoc(x, k - 1); }
  }

  /** The evidence depends on the number of turns only, not on the tools called. */
  lemma {:induction false} EffectiveSampleSize(e: Entry, id: ToolId, omega: real, history: seq<Turn>)
    ensures Total(RunEntry(e, id, omega, history)) == DiscountedSize(Total(e), omega, |history|)
    decreases |history|
  {
    if history != [] {
      var called := id in history[0].called;
      var next := Observe(e, omega, history[0].number, called);
      EffectiveSampleSize(next, id, omega, history[1..]);
      ObserveTotal(e, omega, history[0].number, called);
      DiscountedSizeFirst(Total(e), omega, |history| - 1);
    }
  }

  /** With limit = 1/(1-omega): the distance to it shrinks by omega each turn. */
  lemma SampleSizeConverges(e: Entry, id: ToolId, omega: real, history: seq<Turn>, limit: real)
    requires limit * (1.0 - omega) == 1.0
    ensures Total(RunEntry(e, id, omega, history)) - limit == Decayed(Total(e) - limit, omega, |history|)
  {
    EffectiveSampleSize(e, id, omega, history);
    DistanceToLimit(Total(e), omega, |history|, limit);
  }

  lemma {:induction false} DistanceToLimit(n0: real, omega: real, k: nat, limit: real)
    requires limit * (1.0 - omega) == 1.0
    ensures DiscountedSize(n0, omega, k) - limit == Decayed(n0 - limit, omega, k)
  {
    var p, g := Pow(omega, k), GeometricSum(omega, k);
    GeometricSumClosed(omega, k);
    SumFromLimit(g, 1.0 - omega, limit, p);
  }

  lemma SumFromLimit(g: real, d: real, limit: real, p: real)
    requires limit * d == 1.0 && g * d == 1.0 - p
    ensures g == limit - p * limit
  {
    assert g == g * (limit * d) == (g * d) * limit;
  }

  /** So the evidence never exceeds the larger of the prior's and that limit. */
  lemma SampleSizeIsBounded(e: Entry, id: ToolId, omega: real, history: seq<Turn>, limit: real)
    requires 0.0 <= omega < 1.0 && Valid(e)
    requires limit * (1.0 - omega) == 1.0
    ensures 0.0 <= Total(RunEntry(e, id, omega, history)) <= Max(Total(e), limit)
  {
    RunKeepsValid(e, id, omega, history);
    SampleSizeConverges(e, id, omega, history, limit);
    DampedGap(Total(e) - limit, omega, |history|);
  }

  lemma DampedGap(gap: real, omega: real, k: nat)
    requires 0.0 <= omega < 1.0
    ensures Decayed(gap, omega, k) <= Max(gap, 0.0)
  {
    var p := Pow(omega, k);
    PowBounds(omega, k);
    if gap >= 0.0 { ShrunkProduct(p, gap); } else { NonNegativeProduct(p, -gap); }
  }

  lemma MeanInUnitInterval(e: Entry)
    requires Valid(e)
    ensures 0.0 <= Mean(e) <= 1.0
  {
  }

  /** An idle turn lowers the estimate strictly while there is any evidence of
      use, and a turn with a call raises it unless it is one already. */
  lemma MeanMovesTowardsObservation(e: Entry, omega: real, turn: nat)
    requires Valid(e) && omega >= 0.0 && Total(e) >= NEGLIGIBLE
    ensures e.alpha > 0.0 ==> Mean(Observe(e, omega, turn, false)) < Mean(e)
    ensures e.alpha == 0.0 ==> Mean(Observe(e, omega, turn, false)) == 0.0
    ensures e.betaParam > 0.0 ==> Mean(e) < Mean(Observe(e, omega, turn, true))
    ensures e.betaParam == 0.0 ==> Mean(Observe(e, omega, turn, true)) == 1.0
  {
    var t := Total(e);
    var t' := t * omega + 1.0;
    var idle, used := Observe(e, omega, turn, false), Observe(e, omega, turn, true);
    assert t * omega >= 0.0;
    assert Total(idle) == t' && Total(used) == t';
    if e.alpha > 0.0 {
      assert e.alpha * omega * t < e.alpha * t' by {
        assert e.alpha * t' == e.alpha * omega * t + e.alpha;
      }
      FractionLess(e.alpha * omega, t', e.alpha, t);
    }
    if e.betaParam > 0.0 {
      assert e.alpha * t' < (e.alpha * omega + 1.0) * t by {
        assert e.alpha * t' == e.alpha * omega * t + e.alpha;
        assert (e.alpha * omega + 1.0) * t == e.alpha * omega * t + t;
      }
      FractionLess(e.alpha, t, e.alpha * omega + 1.0, t');
    }
  }

  lemma FractionLess(a: real, b: real, c: real, d: real)
    requires b > 0.0 && d > 0.0 && a * d < c * b
    ensures a / b < c / d
  {
    var x, y := a / b, c / d;
    assert a == x * b && c == y * d;
    assert (x * b) * d < (y * d) * b;
    assert (y - x) * (b * d) > 0.0;
    assert b * d > 0.0;
    if x >= y { MulMonotone(b * d, y, x); }
  }

  // ------------------------------------------------------------------
  // Idle stretches
  // ------------------------------------------------------------------

  predicate NeverCalled(id: ToolId, history: seq<Turn>) {
    forall i :: 0 <= i < |history| ==> id !in history[i].called
  }

  lemma {:induction false} IdleDecay(e: Entry, id: ToolId, omega: real, history: seq<Turn>)
    requires NeverCalled(id, history)
    ensures RunEntry(e, id, omega, history).alpha == Decayed(e.alpha, omega, |history|)
    ensures RunEntry(e, id, omega, history).lastUsedTurn == e.lastUsedTurn
    decreases |history|
  {
    if history != [] {
      var next := Observe(e, omega, history[0].number, false);
      assert NeverCalled(id, history[1..]);
      IdleDecay(next, id, omega, history[1..]);
      DecayedStep(e.alpha, omega, |history| - 1);
    }
  }

  /** With at least one observation, mean and variance are at most alpha. */
  lemma SmallAlpha(e: Entry)
    requires Valid(e) && Total(e) >= 1.0
    ensures Mean(e) <= e.alpha
    ensures Variance(e) <= e.alpha
  {
    var a, b, t := e.alpha, e.betaParam, Total(e);
    MeanAtMost(a, t);
    VarianceAtMost(a, b, t);
    assert Variance(e) == a * b / (t * t * (t + 1.0));
  }

  lemma MeanAtMost(a: real, t: real)
    requires a >= 0.0 && t >= 1.0
    ensures a / t <= a
  {
    NonNegativeProduct(a, t - 1.0);
    QuotientAtMost(a, t, a);
  }

  lemma VarianceAtMost(a: real, b: real, t: real)
    requires a >= 0.0 && 0.0 <= b <= t && t >= 1.0
    requires t * t * (t + 1.0) > 0.0
    ensures a * b / (t * t * (t + 1.0)) <= a
  {
    var cube := t * t * (t + 1.0);
    CubeAtLeast(t, cube);
    assert b <= cube;
    NonNegativeProduct(a, cube - b);
    assert a * (cube - b) == a * cube - a * b;
    QuotientAtMost(a * b, cube, a);
  }

  lemma CubeAtLeast(t: real, cube: real)
    requires t >= 1.0 && cube == t * t * (t + 1.0)
    ensures t <= cube
  {
    NonNegativeProduct(t, t - 1.0);
    NonNegativeProduct(t * t, t);
    assert t * (t - 1.0) == t * t - t;
    assert cube == (t * t) * t + t * t;
  }

  lemma QuotientAtMost(a: real, b: real, c: real)
    requires b > 0.0 && a <= c * b
    ensures a / b <= c
  {
  }

  lemma SmallAlphaIsBelow(e: Entry, threshold: real)
    requires Valid(e) && Total(e) >= 1.0 && threshold > 0.0
    requires 2.0 * e.alpha <= threshold && 8.0 * e.alpha <= Square(threshold)
    ensures UpperCiBelow(e, 0.90, threshold)
  {
    SmallAlpha(e);
    SquarePositive(threshold);
    SlackSquare(threshold, Mean(e));
    ScaledBelow(Variance(e), Square(threshold), Square(threshold - Mean(e)));
  }

  lemma ScaledBelow(v: real, square: real, slackSquare: real)
    requires 8.0 * v <= square && square > 0.0 && 4.0 * slackSquare >= square
    ensures Square(ZScore(0.90)) * v < slackSquare
  {
    assert Square(ZScore(0.90)) == 1.643524;
  }

  lemma SlackSquare(threshold: real, m: real)
    requires threshold > 0.0 && 2.0 * m <= threshold
    ensures 4.0 * Square(threshold - m) >= Square(threshold)
  {
    var half, rest := threshold / 2.0, threshold / 2.0 - m;
    NonNegativeProduct(half, rest);
    NonNegativeProduct(rest, rest);
    assert threshold - m == half + rest;
    assert Square(half + rest) == half * half + 2.0 * (half * rest) + rest * rest;
  }
}
