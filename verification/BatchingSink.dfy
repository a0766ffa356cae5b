/** Buffering telemetry events in front of an inner sink, with any number of
    concurrent recorders and flushers. */
module BatchingSink {
  import opened Sequences

  datatype Event = Event(kind: string, payload: string)

  /** Every flush that has taken a batch has an entry in `batches`, holding what
      it has not forwarded yet. The last two fields record history. */
  datatype State = State(
    buffer: seq<Event>,
    batches: seq<seq<Event>>,
    delivered: seq<Event>,
    accepted: seq<Event>,
    dropped: seq<Event>)

  const INITIAL := State([], [], [], [], [])

  datatype Step =
    | Record(event: Event)
    | Take
    | Forward(flush: nat)

  /** Under the buffer's lock: the event is dropped when the buffer is full. */
  function RecordStep(s: State, e: Event, maxBufferSize: nat): State {
    if |s.buffer| < maxBufferSize
    then s.(buffer := s.buffer + [e], accepted := s.accepted + [e])
    else s.(dropped := s.dropped + [e])
  }

  /** Under the buffer's lock: a flush empties the buffer, unless it is empty. */
  function TakeStep(s: State): State {
    if s.buffer == [] then s else s.(buffer := [], batches := s.batches + [s.buffer])
  }

  /** Without the lock: a flush forwards its next event to the inner sink. */
  function ForwardStep(s: State, flush: nat): State {
    if flush < |s.batches| && s.batches[flush] != []
    then s.(batches := s.batches[flush := s.batches[flush][1..]],
            delivered := s.delivered + [s.batches[flush][0]])
    else s
  }

  function Apply(s: State, step: Step, maxBufferSize: nat): State {
    match step
    case Record(e) => RecordStep(s, e, maxBufferSize)
    case Take => TakeStep(s)
    case Forward(flush) => ForwardStep(s, flush)
  }

  function Run(s: State, steps: seq<Step>, maxBufferSize: nat): State
    decreases |steps|
  {
    if steps == [] then s else Run(Apply(s, steps[0], maxBufferSize), steps[1..], maxBufferSize)
  }

  /** The sink as its methods run it from one thread: the inner sink is the log of
      what was recorded there. */
  class Sink {
    const maxBatchSize: nat
    const maxBufferSize: nat
    var events: seq<Event>
    var inner: seq<Event>
    var notified: bool

    constructor (maxBatchSize: nat, maxBufferSize: nat)
      ensures events == [] && inner == [] && !notified
      ensures this.maxBatchSize == maxBatchSize && this.maxBufferSize == maxBufferSize
    {
      this.maxBatchSize, this.maxBufferSize := maxBatchSize, maxBufferSize;
      events, inner, notified := [], [], false;
    }

    method RecordEvent(event: Event)
      modifies this`events, this`notified
      ensures events == RecordStep(State(old(events), [], [], [], []), event, maxBufferSize).buffer
      ensures notified == (old(notified) ||
                           (|old(events)| < maxBufferSize && |old(events)| + 1 >= maxBatchSize))
    {
      if |events| < maxBufferSize {
        events := events + [event];
        if |events| >= maxBatchSize {
          notified := true;
        }
      }
    }

    /** Takes the whole buffer, then forwards it in order. */
    method FlushBuffer()
      modifies this`events, this`inner
      ensures events == []
      ensures inner == old(inner) + old(events)
    {
      if events == [] {
        return;
      }
      var batch := events;
      events := [];
      for i := 0 to |batch|
        invariant events == []
        invariant inner == old(inner) + batch[..i]
      {
        inner := inner + [batch[i]];
      }
    }
  }

  function Forwards(flush: nat, n: nat): (r: seq<Step>)
    ensures |r| == n
  {
    if n == 0 then [] else [Forward(flush)] + Forwards(flush, n - 1)
  }

  lemma {:induction false} ForwardsDeliverTheBatch(s: State, flush: nat, maxBufferSize: nat)
    requires flush < |s.batches|
    ensures var s' := Run(s, Forwards(flush, |s.batches[flush]|), maxBufferSize);
            s' == s.(batches := s.batches[flush := []], delivered := s.delivered + s.batches[flush])
    decreases |s.batches[flush]|
  {
    var batch := s.batches[flush];
    if batch == [] {
      assert s.batches[flush := []] == s.batches && s.delivered + [] == s.delivered;
    } else {
      var s1 := ForwardStep(s, flush);
      var steps := Forwards(flush, |batch|);
      assert steps[0] == Forward(flush) && steps[1..] == Forwards(flush, |batch| - 1);
      ForwardsDeliverTheBatch(s1, flush, maxBufferSize);
      assert s1.batches[flush := []] == s.batches[flush := []];
      assert s.delivered + [batch[0]] + batch[1..] == s.delivered + batch;
    }
  }

  /** An undisturbed flush, as steps, does what `Sink.FlushBuffer` does. */
  lemma FlushIsTakeAndForwards(s: State, maxBufferSize: nat)
    requires s.buffer != []
    ensures var s' := Run(s, [Take] + Forwards(|s.batches|, |s.buffer|), maxBufferSize);
            s'.buffer == [] && s'.delivered == s.delivered + s.buffer && s'.accepted == s.accepted
  {
    var steps := [Take] + Forwards(|s.batches|, |s.buffer|);
    assert steps[0] == Take && steps[1..] == Forwards(|s.batches|, |s.buffer|);
    ForwardsDeliverTheBatch(TakeStep(s), |s.batches|, maxBufferSize);
  }

  // ------------------------------------------------------------------
  // Conservation
  // ------------------------------------------------------------------

  lemma {:induction false} FlattenForward(batches: seq<seq<Event>>, i: nat)
    requires i < |batches| && batches[i] != []
    ensures multiset(Flatten(batches))
            == multiset{batches[i][0]} + multiset(Flatten(batches[i := batches[i][1..]]))
  {
    var batches' := batches[i := batches[i][1..]];
    if i == 0 {
      assert batches[0] == [batches[0][0]] + batches[0][1..];
      assert batches'[1..] == batches[1..];
    } else {
      assert batches'[1..] == batches[1..][i - 1 := batches[i][1..]];
      FlattenForward(batches[1..], i - 1);
    }
  }

  /** Accepted events are delivered, taken but not yet forwarded, or buffered:
      each exactly once. */
  predicate Conserved(s: State, maxBufferSize: nat) {
    multiset(s.accepted) == multiset(s.delivered) + multiset(Flatten(s.batches)) + multiset(s.buffer) &&
    |s.buffer| <= maxBufferSize
  }

  lemma StepConserves(s: State, step: Step, maxBufferSize: nat)
    requires Conserved(s, maxBufferSize)
    ensures Conserved(Apply(s, step, maxBufferSize), maxBufferSize)
  {
    match step {
      case Record(e) =>
      case Take =>
        FlattenSnoc(s.batches, s.buffer);
      case Forward(i) =>
        if i < |s.batches| && s.batches[i] != [] { FlattenForward(s.batches, i); }
    }
  }

  /** Over every interleaving of recorders and flushers. */
  lemma {:induction false} RunConserves(s: State, steps: seq<Step>, maxBufferSize: nat)
    requires Conserved(s, maxBufferSize)
    ensures Conserved(Run(s, steps, maxBufferSize), maxBufferSize)
    decreases |steps|
  {
    if steps != [] {
      StepConserves(s, steps[0], maxBufferSize);
      RunConserves(Apply(s, steps[0], maxBufferSize), steps[1..], maxBufferSize);
    }
  }

  /** What a run was asked to record. */
  function Submitted(steps: seq<Step>): seq<Event> {
    if steps == [] then []
    else (if steps[0].Record? then [steps[0].event] else []) + Submitted(steps[1..])
  }

  function Handled(s: State): multiset<Event> {
    multiset(s.accepted) + multiset(s.dropped)
  }

  lemma StepAccounts(s: State, step: Step, maxBufferSize: nat)
    ensures Handled(Apply(s, step, maxBufferSize))
            == Handled(s) + if step.Record? then multiset{step.event} else multiset{}
  {
  }

  lemma SubmittedStep(steps: seq<Step>)
    requires steps != []
    ensures multiset(Submitted(steps))
            == (if steps[0].Record? then multiset{steps[0].event} else multiset{}) + multiset(Submitted(steps[1..]))
  {
  }

  /** Every submitted event is accepted or dropped, once. */
  lemma {:induction false} RunAccounts(s: State, steps: seq<Step>, maxBufferSize: nat)
    ensures Handled(Run(s, steps, maxBufferSize)) == Handled(s) + multiset(Submitted(steps))
    decreases |steps|
  {
    if steps != [] {
      StepAccounts(s, steps[0], maxBufferSize);
      SubmittedStep(steps);
      RunAccounts(Apply(s, steps[0], maxBufferSize), steps[1..], maxBufferSize);
    }
  }

  /** Some step records into a full buffer. */
  predicate MeetsFullBuffer(s: State, steps: seq<Step>, maxBufferSize: nat)
    decreases |steps|
  {
    steps != [] &&
    ((steps[0].Record? && |s.buffer| >= maxBufferSize) ||
     MeetsFullBuffer(Apply(s, steps[0], maxBufferSize), steps[1..], maxBufferSize))
  }

  lemma {:induction false} AcceptsAtMostSubmitted(s: State, steps: seq<Step>, maxBufferSize: nat)
    ensures |Run(s, steps, maxBufferSize).accepted| <= |s.accepted| + |Submitted(steps)|
    decreases |steps|
  {
    if steps != [] { AcceptsAtMostSubmitted(Apply(s, steps[0], maxBufferSize), steps[1..], maxBufferSize); }
  }

  lemma AcceptedGrows(s: State, steps: seq<Step>, maxBufferSize: nat)
    requires steps != [] && (steps[0].Record? ==> |s.buffer| < maxBufferSize)
    ensures Apply(s, steps[0], maxBufferSize).accepted + Submitted(steps[1..]) == s.accepted + Submitted(steps)
  {
    if steps[0].Record? {
      Associates(s.accepted, [steps[0].event], Submitted(steps[1..]));
    } else {
      assert Apply(s, steps[0], maxBufferSize).accepted == s.accepted;
      assert [] + Submitted(steps[1..]) == Submitted(steps[1..]);
    }
  }

  /** A run accepts exactly what it was asked to record, in order, if and only if it
      never records into a full buffer. */
  lemma {:induction false} AllAcceptedIff(s: State, steps: seq<Step>, maxBufferSize: nat)
    ensures Run(s, steps, maxBufferSize).accepted == s.accepted + Submitted(steps) <==>
            !MeetsFullBuffer(s, steps, maxBufferSize)
    decreases |steps|
  {
    if steps == [] {
      assert s.accepted + [] == s.accepted;
    } else {
      var next := Apply(s, steps[0], maxBufferSize);
      if steps[0].Record? && |s.buffer| >= maxBufferSize {
        AcceptsAtMostSubmitted(next, steps[1..], maxBufferSize);
      } else {
        AllAcceptedIff(next, steps[1..], maxBufferSize);
        AcceptedGrows(s, steps, maxBufferSize);
      }
    }
  }

  /** Nothing is delivered more often than it was accepted. */
  lemma NothingDeliveredTwice(steps: seq<Step>, maxBufferSize: nat, e: Event)
    ensures var s := Run(INITIAL, steps, maxBufferSize);
            multiset(s.delivered)[e] <= multiset(s.accepted)[e]
  {
    RunConserves(INITIAL, steps, maxBufferSize);
  }

  // ------------------------------------------------------------------
  // Order
  // ------------------------------------------------------------------

  /** What was accepted is what was delivered, then what the flushes hold from the
      oldest to the newest, then what is buffered. */
  predicate Follows(s: State) {
    s.accepted == s.delivered + Flatten(s.batches) + s.buffer
  }

  /** A step that forwards an event does so for the oldest flush that holds any. */
  predicate TakesOldest(s: State, step: Step) {
    step.Forward? && step.flush < |s.batches| && s.batches[step.flush] != [] ==>
      forall j :: 0 <= j < step.flush ==> s.batches[j] == []
  }

  /** Flushes may overlap, but forward in the order in which they took. */
  predicate FromOldest(s: State, steps: seq<Step>, maxBufferSize: nat)
    decreases |steps|
  {
    steps == [] ||
    (TakesOldest(s, steps[0]) && FromOldest(Apply(s, steps[0], maxBufferSize), steps[1..], maxBufferSize))
  }

  lemma {:induction false} FlattenOldest(batches: seq<seq<Event>>, i: nat)
    requires i < |batches| && batches[i] != []
    requires forall j :: 0 <= j < i ==> batches[j] == []
    ensures Flatten(batches) == [batches[i][0]] + Flatten(batches[i := batches[i][1..]])
  {
    var batches' := batches[i := batches[i][1..]];
    if i == 0 {
      assert batches'[1..] == batches[1..];
      assert batches[0] == [batches[0][0]] + batches[0][1..];
    } else {
      assert batches'[1..] == batches[1..][i - 1 := batches[i][1..]];
      FlattenOldest(batches[1..], i - 1);
    }
  }

  lemma MoveHead(a: seq<Event>, head: Event, rest: seq<Event>, c: seq<Event>)
    ensures a + ([head] + rest) + c == (a + [head]) + rest + c
  {
  }

  lemma StepFollows(s: State, step: Step, maxBufferSize: nat)
    requires Follows(s) && TakesOldest(s, step)
    ensures Follows(Apply(s, step, maxBufferSize))
  {
    match step {
      case Record(e) =>
        assert s.delivered + Flatten(s.batches) + (s.buffer + [e]) == s.delivered + Flatten(s.batches) + s.buffer + [e];
      case Take =>
        FlattenSnoc(s.batches, s.buffer);
        assert s.delivered + (Flatten(s.batches) + s.buffer) + [] == s.delivered + Flatten(s.batches) + s.buffer;
      case Forward(i) =>
        if i < |s.batches| && s.batches[i] != [] {
          FlattenOldest(s.batches, i);
          MoveHead(s.delivered, s.batches[i][0], Flatten(s.batches[i := s.batches[i][1..]]), s.buffer);
        }
    }
  }

  lemma {:induction false} FromOldestFollows(s: State, steps: seq<Step>, maxBufferSize: nat)
    requires Follows(s) && FromOldest(s, steps, maxBufferSize)
    ensures Follows(Run(s, steps, maxBufferSize))
    decreases |steps|
  {
    if steps != [] {
      StepFollows(s, steps[0], maxBufferSize);
      FromOldestFollows(Apply(s, steps[0], maxBufferSize), steps[1..], maxBufferSize);
    }
  }

  lemma {:induction false} RunExtends(s: State, steps: seq<Step>, maxBufferSize: nat)
    ensures s.delivered <= Run(s, steps, maxBufferSize).delivered
    ensures s.accepted <= Run(s, steps, maxBufferSize).accepted
    decreases |steps|
  {
    if steps != [] { RunExtends(Apply(s, steps[0], maxBufferSize), steps[1..], maxBufferSize); }
  }

  predicate NoRepeats(events: seq<Event>) {
    forall i, j :: 0 <= i < j < |events| ==> events[i] != events[j]
  }

  lemma {:induction false} FlattenHolds(batches: seq<seq<Event>>, i: nat)
    requires i < |batches| && batches[i] != []
    ensures batches[i][0] in Flatten(batches)
  {
    if i == 0 {
      assert Flatten(batches)[0] == batches[0][0];
    } else {
      FlattenHolds(batches[1..], i - 1);
    }
  }

  lemma {:induction false} NewerIsNotFirst(batches: seq<seq<Event>>, j: nat, i: nat)
    requires j < i < |batches| && batches[j] != [] && batches[i] != [] && NoRepeats(Flatten(batches))
    ensures Flatten(batches) != [] && Flatten(batches)[0] != batches[i][0]
  {
    var rest := Flatten(batches[1..]);
    if batches[0] == [] {
      assert Flatten(batches) == rest;
      NewerIsNotFirst(batches[1..], j - 1, i - 1);
    } else {
      FlattenHolds(batches[1..], i - 1);
      var k :| 0 <= k < |rest| && rest[k] == batches[i][0];
      assert Flatten(batches)[|batches[0]| + k] == batches[i][0];
    }
  }

  /** Overtaking an older flush delivers another event than the one due. */
  lemma OvertakingDiffers(s: State, j: nat, i: nat)
    requires Follows(s) && NoRepeats(s.accepted)
    requires j < i < |s.batches| && s.batches[j] != [] && s.batches[i] != []
    ensures var n := |s.delivered|;
            n < |s.accepted| && ForwardStep(s, i).delivered[n] != s.accepted[n]
  {
    var held, n := Flatten(s.batches), |s.delivered|;
    assert s.accepted[n..] == held + s.buffer;
    assert forall k :: 0 <= k < |held| ==> held[k] == s.accepted[n + k];
    NewerIsNotFirst(s.batches, j, i);
  }

  /** Delivery in order needs the flushes to forward from the oldest: exactly so when
      no two events are the same. */
  lemma {:induction false} InOrderIff(s: State, steps: seq<Step>, maxBufferSize: nat)
    requires Follows(s) && NoRepeats(Run(s, steps, maxBufferSize).accepted)
    ensures Run(s, steps, maxBufferSize).delivered <= Run(s, steps, maxBufferSize).accepted <==>
            FromOldest(s, steps, maxBufferSize)
    decreases |steps|
  {
    if FromOldest(s, steps, maxBufferSize) {
      FromOldestFollows(s, steps, maxBufferSize);
    } else {
      var next := Apply(s, steps[0], maxBufferSize);
      RunExtends(s, steps, maxBufferSize);
      if TakesOldest(s, steps[0]) {
        StepFollows(s, steps[0], maxBufferSize);
        InOrderIff(next, steps[1..], maxBufferSize);
      } else {
        var i := steps[0].flush;
        var j :| 0 <= j < i && s.batches[j] != [];
        OvertakingDiffers(s, j, i);
        RunExtends(next, steps[1..], maxBufferSize);
      }
    }
  }

  predicate AllForwarded(s: State) {
    forall i :: 0 <= i < |s.batches| ==> s.batches[i] == []
  }

  /** Every flush starts when the one before has forwarded its batch. */
  predicate OneFlushAtATime(s: State, steps: seq<Step>, maxBufferSize: nat)
    decreases |steps|
  {
    steps == [] ||
    ((steps[0].Take? ==> AllForwarded(s)) &&
     OneFlushAtATime(Apply(s, steps[0], maxBufferSize), steps[1..], maxBufferSize))
  }

  predicate OnlyNewestHolds(s: State) {
    forall i :: 0 <= i < |s.batches| - 1 ==> s.batches[i] == []
  }

  lemma {:induction false} OneFlushIsFromOldest(s: State, steps: seq<Step>, maxBufferSize: nat)
    requires OnlyNewestHolds(s) && OneFlushAtATime(s, steps, maxBufferSize)
    ensures FromOldest(s, steps, maxBufferSize)
    decreases |steps|
  {
    if steps != [] { OneFlushIsFromOldest(Apply(s, steps[0], maxBufferSize), steps[1..], maxBufferSize); }
  }

  /** Then what has been delivered is a prefix of what was accepted, repeated events
      or not. */
  lemma SingleFlusherDeliversInOrder(s: State, steps: seq<Step>, maxBufferSize: nat)
    requires Follows(s) && OnlyNewestHolds(s) && OneFlushAtATime(s, steps, maxBufferSize)
    ensures Run(s, steps, maxBufferSize).delivered <= Run(s, steps, maxBufferSize).accepted
  {
    OneFlushIsFromOldest(s, steps, maxBufferSize);
    FromOldestFollows(s, steps, maxBufferSize);
  }

  /** Two overlapping flushes can deliver out of order. */
  lemma OverlappingFlushesReorder(a: Event, b: Event, maxBufferSize: nat)
    requires maxBufferSize >= 1
    ensures var s := Run(INITIAL, [Record(a), Take, Record(b), Take, Forward(1), Forward(0)], maxBufferSize);
            s.accepted == [a, b] && s.delivered == [b, a]
  {
    var steps := [Record(a), Take, Record(b), Take, Forward(1), Forward(0)];
    var s1 := State([a], [], [], [a], []);
    var s2 := State([], [[a]], [], [a], []);
    var s3 := State([b], [[a]], [], [a, b], []);
    var s4 := State([], [[a], [b]], [], [a, b], []);
    var s5 := State([], [[a], []], [b], [a, b], []);
    var s6 := State([], [[], []], [b, a], [a, b], []);
    assert steps[1..][1..] == steps[2..] && steps[2..][1..] == steps[3..] && steps[3..][1..] == steps[4..];
    assert steps[4..][1..] == steps[5..] && steps[5..][1..] == [];
    assert [a][1..] == [] && s5.batches[0 := []] == s6.batches;
    assert Apply(s5, Forward(0), maxBufferSize) == s6;
    assert Run(s5, steps[5..], maxBufferSize) == s6;
    assert [b][1..] == [] && s4.batches[1 := []] == s5.batches;
    assert Apply(s4, Forward(1), maxBufferSize) == s5;
    assert Run(s4, steps[4..], maxBufferSize) == s6;
    assert Apply(s3, Take, maxBufferSize) == s4;
    assert Run(s3, steps[3..], maxBufferSize) == s6;
    assert Apply(s2, Record(b), maxBufferSize) == s3;
    assert Run(s2, steps[2..], maxBufferSize) == s6;
    assert Apply(s1, Take, maxBufferSize) == s2;
    assert Run(s1, steps[1..], maxBufferSize) == s6;
    assert Apply(INITIAL, Record(a), maxBufferSize) == s1;
  }
}
