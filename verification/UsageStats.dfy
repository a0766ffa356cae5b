/** How often, and in which turns, each tool has been used. */
module UsageStats {
  import opened Options
  import opened Tools

  datatype Usage = Usage(turnPresence: nat, totalCalls: nat, firstUse: Option<nat>, lastUse: Option<nat>)

  const UNUSED := Usage(0, 0, None, None)

  datatype Action =
    | IncrementTurn
    | RecordCall(id: ToolId)
    | RecordTurnCalls(calls: seq<(ToolId, nat)>)

  datatype Stats = Stats(totalTurns: nat, tools: map<ToolId, Usage>)

  function Bump(u: Usage, turn: nat, count: nat): Usage {
    Usage(if u.lastUse == Some(turn) then u.turnPresence else u.turnPresence + 1,
          u.totalCalls + count,
          if u.firstUse.None? then Some(turn) else u.firstUse,
          Some(turn))
  }

  function UsageOf(tools: map<ToolId, Usage>, id: ToolId): Usage {
    if id in tools then tools[id] else UNUSED
  }

  function Record(tools: map<ToolId, Usage>, turn: nat, id: ToolId, count: nat): map<ToolId, Usage> {
    tools[id := Bump(UsageOf(tools, id), turn, count)]
  }

  function RecordAll(tools: map<ToolId, Usage>, turn: nat, calls: seq<(ToolId, nat)>): map<ToolId, Usage>
    decreases |calls|
  {
    if calls == [] then tools
    else RecordAll(Record(tools, turn, calls[0].0, calls[0].1), turn, calls[1..])
  }

  function Apply(s: Stats, a: Action): Stats {
    match a
    case IncrementTurn => s.(totalTurns := s.totalTurns + 1)
    case RecordCall(id) => s.(tools := Record(s.tools, s.totalTurns, id, 1))
    case RecordTurnCalls(calls) => s.(tools := RecordAll(s.tools, s.totalTurns, calls))
  }

  class ToolUsageStats {
    var totalTurns: nat
    var tools: map<ToolId, Usage>

    function Value(): Stats
      reads this
    {
      Stats(totalTurns, tools)
    }

    constructor ()
      ensures Value() == Stats(0, map[])
    {
      totalTurns, tools := 0, map[];
    }

    method Reduce(update: Action)
      modifies this
      ensures Value() == Apply(old(Value()), update)
    {
      match update {
        case IncrementTurn =>
          totalTurns := totalTurns + 1;
        case RecordCall(id) =>
          RecordOne(id, 1);
        case RecordTurnCalls(calls) =>
          assert calls[0..] == calls;
          for i := 0 to |calls|
            invariant totalTurns == old(totalTurns)
            invariant RecordAll(tools, totalTurns, calls[i..]) == RecordAll(old(tools), totalTurns, calls)
          {
            assert calls[i..][1..] == calls[i + 1..];
            RecordOne(calls[i].0, calls[i].1);
          }
          assert calls[|calls|..] == [];
      }
    }

    method RecordOne(id: ToolId, count: nat)
      modifies this`tools
      ensures tools == Record(old(tools), totalTurns, id, count)
    {
      var turn := totalTurns;
      var entry := if id in tools then tools[id] else UNUSED;
      entry := entry.(totalCalls := entry.totalCalls + count);
      if entry.lastUse != Some(turn) {
        entry := entry.(turnPresence := entry.turnPresence + 1);
      }
      if entry.firstUse.None? {
        entry := entry.(firstUse := Some(turn));
      }
      entry := entry.(lastUse := Some(turn));
      tools := tools[id := entry];
    }
  }

  // ------------------------------------------------------------------
  // What the counters mean
  // ------------------------------------------------------------------

  function Run(s: Stats, history: seq<Action>): Stats
    decreases |history|
  {
    if history == [] then s
    else Apply(Run(s, history[..|history| - 1]), history[|history| - 1])
  }

  /** The turn in which the next action of a history takes place. */
  function CurrentTurn(history: seq<Action>): nat
    decreases |history|
  {
    if history == [] then 0
    else CurrentTurn(history[..|history| - 1]) + if history[|history| - 1].IncrementTurn? then 1 else 0
  }

  /** The counts an action records for a tool. */
  function CountsIn(a: Action, id: ToolId): seq<nat> {
    match a
    case IncrementTurn => []
    case RecordCall(other) => if other == id then [1] else []
    case RecordTurnCalls(calls) => CountsFor(calls, id)
  }

  function CountsFor(calls: seq<(ToolId, nat)>, id: ToolId): seq<nat> {
    if calls == [] then []
    else (if calls[0].0 == id then [calls[0].1] else []) + CountsFor(calls[1..], id)
  }

  function Sum(counts: seq<nat>): nat {
    if counts == [] then 0 else counts[0] + Sum(counts[1..])
  }

  /** The turns in which a history recorded the tool. */
  function TurnsUsed(history: seq<Action>, id: ToolId): set<nat>
    decreases |history|
  {
    if history == [] then {}
    else
      var front, last := history[..|history| - 1], history[|history| - 1];
      TurnsUsed(front, id) + if CountsIn(last, id) == [] then {} else {CurrentTurn(front)}
  }

  function CallsMade(history: seq<Action>, id: ToolId): nat
    decreases |history|
  {
    if history == [] then 0
    else CallsMade(history[..|history| - 1], id) + Sum(CountsIn(history[|history| - 1], id))
  }

  /** The entry counts exactly these turns and calls. */
  predicate Describes(u: Usage, turns: set<nat>, calls: nat, now: nat) {
    u.turnPresence == |turns| && u.totalCalls == calls &&
    (forall t :: t in turns ==> t <= now) &&
    if turns == {} then u.firstUse == None && u.lastUse == None
    else
      u.firstUse.Some? && u.lastUse.Some? &&
      u.firstUse.value in turns && u.lastUse.value in turns &&
      forall t :: t in turns ==> u.firstUse.value <= t <= u.lastUse.value
  }

  lemma BumpDescribes(u: Usage, turns: set<nat>, calls: nat, now: nat, count: nat)
    requires Describes(u, turns, calls, now)
    ensures Describes(Bump(u, now, count), turns + {now}, calls + count, now)
  {
    if u.lastUse == Some(now) {
      assert turns + {now} == turns;
    } else {
      assert now !in turns;
    }
  }

  function BumpAll(u: Usage, turn: nat, counts: seq<nat>): Usage
    decreases |counts|
  {
    if counts == [] then u else BumpAll(Bump(u, turn, counts[0]), turn, counts[1..])
  }

  lemma {:induction false} RecordAllBumps(tools: map<ToolId, Usage>, turn: nat, made: seq<(ToolId, nat)>, id: ToolId)
    ensures UsageOf(RecordAll(tools, turn, made), id) == BumpAll(UsageOf(tools, id), turn, CountsFor(made, id))
    decreases |made|
  {
    if made != [] {
      var rest := CountsFor(made[1..], id);
      RecordAllBumps(Record(tools, turn, made[0].0, made[0].1), turn, made[1..], id);
      if made[0].0 == id {
        assert ([made[0].1] + rest)[1..] == rest;
      } else {
        assert [] + rest == rest;
      }
    }
  }

  lemma {:induction false} BumpAllDescribes(u: Usage, turns: set<nat>, calls: nat, turn: nat, counts: seq<nat>)
    requires Describes(u, turns, calls, turn) && counts != []
    ensures Describes(BumpAll(u, turn, counts), turns + {turn}, calls + Sum(counts), turn)
    decreases |counts|
  {
    var next := Bump(u, turn, counts[0]);
    BumpDescribes(u, turns, calls, turn, counts[0]);
    if |counts| == 1 {
      assert BumpAll(next, turn, counts[1..]) == next;
    } else {
      BumpAllDescribes(next, turns + {turn}, calls + counts[0], turn, counts[1..]);
      assert turns + {turn} + {turn} == turns + {turn};
    }
  }

  lemma RecordAllDescribes(tools: map<ToolId, Usage>, turn: nat, made: seq<(ToolId, nat)>,
                           id: ToolId, turns: set<nat>, calls: nat)
    requires Describes(UsageOf(tools, id), turns, calls, turn)
    ensures var counts := CountsFor(made, id);
            Describes(UsageOf(RecordAll(tools, turn, made), id),
                      turns + (if counts == [] then {} else {turn}), calls + Sum(counts), turn)
  {
    RecordAllBumps(tools, turn, made, id);
    var counts := CountsFor(made, id);
    if counts == [] {
      assert turns + {} == turns;
    } else {
      BumpAllDescribes(UsageOf(tools, id), turns, calls, turn, counts);
    }
  }

  /** After any history, a tool's presence is the number of distinct turns that
      recorded it, and its first and last use are the least and greatest of them. */
  lemma {:induction false} CountersAreFaithful(history: seq<Action>, id: ToolId)
    ensures Run(Stats(0, map[]), history).totalTurns == CurrentTurn(history)
    ensures Describes(UsageOf(Run(Stats(0, map[]), history).tools, id),
                      TurnsUsed(history, id), CallsMade(history, id), CurrentTurn(history))
    decreases |history|
  {
    if history != [] {
      var front, last := history[..|history| - 1], history[|history| - 1];
      var s := Run(Stats(0, map[]), front);
      var turns, calls, now := TurnsUsed(front, id), CallsMade(front, id), CurrentTurn(front);
      CountersAreFaithful(front, id);
      match last {
        case IncrementTurn =>
          assert turns + {} == turns;
        case RecordCall(other) =>
          if other == id {
            BumpDescribes(UsageOf(s.tools, id), turns, calls, now, 1);
            assert Sum([1]) == 1 + Sum([1][1..]);
          } else {
            assert turns + {} == turns;
          }
        case RecordTurnCalls(made) =>
          RecordAllDescribes(s.tools, now, made, id, turns, calls);
      }
    }
  }

  /** A tool is present in at most every turn from its first to its last use. */
  lemma PresenceFitsInterval(history: seq<Action>, id: ToolId)
    ensures var s := Run(Stats(0, map[]), history);
            var u := UsageOf(s.tools, id);
            u.firstUse.Some? ==>
              u.lastUse.Some? && u.firstUse.value <= u.lastUse.value <= s.totalTurns &&
              1 <= u.turnPresence <= u.lastUse.value - u.firstUse.value + 1
  {
    CountersAreFaithful(history, id);
    var u := UsageOf(Run(Stats(0, map[]), history).tools, id);
    var turns := TurnsUsed(history, id);
    if u.firstUse.Some? {
      IntervalSize(turns, u.firstUse.value, u.lastUse.value);
      assert turns != {};
    }
  }

  lemma {:induction false} IntervalSize(s: set<nat>, low: nat, high: nat)
    requires low <= high + 1
    requires forall t :: t in s ==> low <= t <= high
    ensures |s| <= high - low + 1
    decreases high + 1 - low
  {
    if low == high + 1 {
      assert s == {};
    } else {
      IntervalSize(s - {low}, low + 1, high);
    }
  }

  // ------------------------------------------------------------------
  // Order and batching within a turn
  // ------------------------------------------------------------------

  lemma RecordsCommute(tools: map<ToolId, Usage>, turn: nat, a: ToolId, n: nat, b: ToolId, m: nat)
    ensures Record(Record(tools, turn, a, n), turn, b, m) == Record(Record(tools, turn, b, m), turn, a, n)
  {
    var left, right := Record(Record(tools, turn, a, n), turn, b, m), Record(Record(tools, turn, b, m), turn, a, n);
    assert left.Keys == right.Keys;
  }

  lemma {:induction false} RecordAllCommutes(tools: map<ToolId, Usage>, turn: nat, calls: seq<(ToolId, nat)>,
                                             b: ToolId, m: nat)
    ensures RecordAll(Record(tools, turn, b, m), turn, calls) == Record(RecordAll(tools, turn, calls), turn, b, m)
    decreases |calls|
  {
    if calls != [] {
      RecordsCommute(tools, turn, calls[0].0, calls[0].1, b, m);
      RecordAllCommutes(Record(tools, turn, calls[0].0, calls[0].1), turn, calls[1..], b, m);
    }
  }

  function Calls(a: Action): seq<(ToolId, nat)>
    requires !a.IncrementTurn?
  {
    if a.RecordCall? then [(a.id, 1)] else a.calls
  }

  lemma ApplyIsRecordAll(s: Stats, a: Action)
    requires !a.IncrementTurn?
    ensures Apply(s, a) == s.(tools := RecordAll(s.tools, s.totalTurns, Calls(a)))
  {
    if a.RecordCall? {
      var one := [(a.id, 1)];
      var next := Record(s.tools, s.totalTurns, a.id, 1);
      assert RecordAll(next, s.totalTurns, one[1..]) == next;
    }
  }

  lemma {:induction false} BatchesCommute(tools: map<ToolId, Usage>, turn: nat,
                                          a: seq<(ToolId, nat)>, b: seq<(ToolId, nat)>)
    ensures RecordAll(RecordAll(tools, turn, a), turn, b) == RecordAll(RecordAll(tools, turn, b), turn, a)
    decreases |a|
  {
    if a != [] {
      BatchesCommute(Record(tools, turn, a[0].0, a[0].1), turn, a[1..], b);
      RecordAllCommutes(tools, turn, b, a[0].0, a[0].1);
    }
  }

  /** Within one turn the order of record actions does not matter. */
  lemma RecordActionsCommute(s: Stats, a: Action, b: Action)
    requires !a.IncrementTurn? && !b.IncrementTurn?
    ensures Apply(Apply(s, a), b) == Apply(Apply(s, b), a)
  {
    ApplyIsRecordAll(s, a);
    ApplyIsRecordAll(s, b);
    ApplyIsRecordAll(Apply(s, a), b);
    ApplyIsRecordAll(Apply(s, b), a);
    BatchesCommute(s.tools, s.totalTurns, Calls(a), Calls(b));
  }

  lemma {:induction false} LastCallIsStamped(tools: map<ToolId, Usage>, turn: nat, calls: seq<(ToolId, nat)>)
    requires calls != []
    ensures var id := calls[|calls| - 1].0;
            id in RecordAll(tools, turn, calls) && RecordAll(tools, turn, calls)[id].lastUse == Some(turn)
    decreases |calls|
  {
    if |calls| > 1 {
      LastCallIsStamped(Record(tools, turn, calls[0].0, calls[0].1), turn, calls[1..]);
    }
  }

  lemma IncrementAndRecord(s: Stats, a: Action)
    requires !a.IncrementTurn?
    ensures Apply(Apply(s, a), IncrementTurn) == Apply(Apply(s, IncrementTurn), a) <==> Calls(a) == []
  {
    var next := Apply(s, IncrementTurn);
    ApplyIsRecordAll(s, a);
    ApplyIsRecordAll(next, a);
    if Calls(a) != [] {
      LastCallIsStamped(s.tools, s.totalTurns, Calls(a));
      LastCallIsStamped(s.tools, s.totalTurns + 1, Calls(a));
    }
  }

  /** The key of this state is declared to take its updates in any order. They
      commute exactly when they are of one kind, or the one that records is empty. */
  lemma ActionsCommuteIff(s: Stats, a: Action, b: Action)
    ensures Apply(Apply(s, a), b) == Apply(Apply(s, b), a) <==>
            a.IncrementTurn? == b.IncrementTurn? || a == RecordTurnCalls([]) || b == RecordTurnCalls([])
  {
    if !a.IncrementTurn? && !b.IncrementTurn? {
      RecordActionsCommute(s, a, b);
    } else if !a.IncrementTurn? {
      IncrementAndRecord(s, a);
    } else if !b.IncrementTurn? {
      IncrementAndRecord(s, b);
    }
  }

  /** A batch entry of n calls is n single calls. */
  lemma {:induction false} BatchEntryIsSingleCalls(s: Stats, id: ToolId, n: nat)
    requires n >= 1
    ensures Apply(s, RecordTurnCalls([(id, n)])) == Run(s, seq(n, _ => RecordCall(id)))
    decreases n
  {
    var singles := seq(n, _ => RecordCall(id));
    var front := singles[..n - 1];
    assert front == seq(n - 1, _ => RecordCall(id));
    var one := [(id, n)];
    var once := Record(s.tools, s.totalTurns, id, n);
    assert RecordAll(once, s.totalTurns, one[1..]) == once;
    if n == 1 {
      assert Run(s, front) == s;
    } else {
      BatchEntryIsSingleCalls(s, id, n - 1);
      var fewer := [(id, n - 1)];
      var before := Record(s.tools, s.totalTurns, id, n - 1);
      assert RecordAll(before, s.totalTurns, fewer[1..]) == before;
      assert before[id := Bump(before[id], s.totalTurns, 1)] == once;
    }
  }

  lemma {:induction false} RunConcat(s: Stats, a: seq<Action>, b: seq<Action>)
    ensures Run(s, a + b) == Run(Run(s, a), b)
    decreases |b|
  {
    if b == [] {
      assert a + b == a;
    } else {
      var n := |b| - 1;
      assert (a + b)[..|a + b| - 1] == a + b[..n] && (a + b)[|a + b| - 1] == b[n];
      RunConcat(s, a, b[..n]);
    }
  }

  /** The calls of a batch, one by one. */
  function Singles(calls: seq<(ToolId, nat)>): seq<Action>
    decreases |calls|
  {
    if calls == [] then [] else seq(calls[0].1, _ => RecordCall(calls[0].0)) + Singles(calls[1..])
  }

  lemma BatchHead(s: Stats, calls: seq<(ToolId, nat)>)
    requires calls != []
    ensures Apply(s, RecordTurnCalls(calls))
            == Apply(Apply(s, RecordTurnCalls([calls[0]])), RecordTurnCalls(calls[1..]))
  {
    var next := Record(s.tools, s.totalTurns, calls[0].0, calls[0].1);
    assert RecordAll(next, s.totalTurns, [calls[0]][1..]) == next;
  }

  /** A batch is its calls one by one, if none of its counts is zero. */
  lemma {:induction false} BatchIsSingleCalls(s: Stats, calls: seq<(ToolId, nat)>)
    requires forall k :: 0 <= k < |calls| ==> calls[k].1 >= 1
    ensures Apply(s, RecordTurnCalls(calls)) == Run(s, Singles(calls))
    decreases |calls|
  {
    if calls != [] {
      var (id, n) := calls[0];
      var next := Apply(s, RecordTurnCalls([calls[0]]));
      BatchHead(s, calls);
      BatchEntryIsSingleCalls(s, id, n);
      BatchIsSingleCalls(next, calls[1..]);
      RunConcat(s, seq(n, _ => RecordCall(id)), Singles(calls[1..]));
    }
  }
}
