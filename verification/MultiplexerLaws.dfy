/** What callers of the multiplexer observe: which progress reaches them, why their
    calls end, and what an HTTP body is read as. */
module MultiplexerLaws {
  import opened Options
  import opened Multiplexer
  import opened Sequences

  // ------------------------------------------------------------------
  // Progress
  // ------------------------------------------------------------------

  function Inbox(s: State, c: CallId): seq<Update> {
    if c in s.calls then s.calls[c].inbox else []
  }

  /** The updates a run passes on to the call: those the reader holds for it when a
      subscriber accepts them. */
  function PassedOn(s: State, events: seq<Event>, c: CallId): seq<Update>
    decreases |events|
  {
    if events == [] || Step(s, events[0]).None? then []
    else PassedOnBy(s, events[0], c) + PassedOn(Step(s, events[0]).value, events[1..], c)
  }

  function PassedOnBy(s: State, e: Event, c: CallId): seq<Update> {
    if s.reader.Notifying? && s.reader.call == c && e == ByTask(SendUpdate(true)) then [s.reader.update] else []
  }

  lemma TaskInbox(s: State, e: TaskStep, c: CallId)
    requires Inv(s) && StepTask(s, e).Some?
    ensures Inbox(StepTask(s, e).value, c) == Inbox(s, c) + PassedOnBy(s, ByTask(e), c)
  {
    TaskOnCounters(s, e);
    if c in s.calls {
      TaskOnCall(s, e, c);
      if s.reader.Notifying? { NotifyingStep(s, e); }
    }
  }

  lemma NotifyingStep(s: State, e: TaskStep)
    requires s.reader.Notifying? && StepTask(s, e).Some?
    ensures e == SendUpdate(true) ==>
      StepTask(s, e).value == s.(reader := Reading, calls := Notified(s.calls, s.reader.call, s.reader.update))
    ensures e != SendUpdate(true) ==> StepTask(s, e).value.calls == s.calls
    ensures e == SendUpdate(false) ==> StepTask(s, e).value == s.(reader := Unsubscribing(s.reader.update.token))
    ensures !e.SendUpdate? ==> StepTask(s, e).value.reader == s.reader
  {
  }

  lemma StepInbox(s: State, e: Event, c: CallId)
    requires Inv(s) && Step(s, e).Some?
    ensures Inbox(Step(s, e).value, c) == Inbox(s, c) + PassedOnBy(s, e, c)
  {
    match e {
      case Begin(_, _) =>
      case ByCall(d, step) => StepCallMoves(s, d, step);
      case ByTask(task) => TaskInbox(s, task, c);
    }
  }

  /** Over every run a call's inbox receives exactly the updates passed on to it, in
      that order. */
  lemma {:induction false} InboxIsPassedOn(s: State, events: seq<Event>, c: CallId)
    requires Inv(s) && Run(s, events).Some?
    ensures Inbox(Run(s, events).value, c) == Inbox(s, c) + PassedOn(s, events, c)
    decreases |events|
  {
    if events != [] {
      var next := Step(s, events[0]).value;
      StepInbox(s, events[0], c);
      StepKeepsInv(s, events[0]);
      InboxIsPassedOn(next, events[1..], c);
      Associates(Inbox(s, c), PassedOnBy(s, events[0], c), PassedOn(next, events[1..], c));
    } else {
      assert Inbox(s, c) + [] == Inbox(s, c);
    }
  }

  predicate NothingSent(events: seq<Event>) {
    forall k :: 0 <= k < |events| ==> !(events[k].ByTask? && events[k].task.SendUpdate?)
  }

  lemma {:induction false} ReaderHoldsUpdate(s: State, events: seq<Event>, c: CallId, u: Update)
    requires s.reader == Notifying(c, u) && Run(s, events).Some? && NothingSent(events)
    ensures Run(s, events).value.reader == Notifying(c, u)
    ensures forall d :: PassedOn(s, events, d) == []
    decreases |events|
  {
    if events != [] {
      var e, next := events[0], Step(s, events[0]).value;
      match e {
        case Begin(_, _) =>
        case ByCall(d, step) => StepCallMoves(s, d, step);
        case ByTask(task) => NotifyingStep(s, task);
      }
      ReaderHoldsUpdate(next, events[1..], c, u);
    }
  }

  /** An update read while its token is subscribed is what the subscriber receives next,
      whatever else happens before it accepts; no other call receives anything. */
  lemma UpdateReachesSubscriber(s: State, u: Update, between: seq<Event>, d: CallId)
    requires Inv(s) && s.reader.Reading? && u.token in s.subscribers && NothingSent(between)
    requires Run(s, [ByTask(ReadProgress(u))] + between + [ByTask(SendUpdate(true))]).Some?
    ensures var s' := Run(s, [ByTask(ReadProgress(u))] + between + [ByTask(SendUpdate(true))]).value;
            Inbox(s', d) == Inbox(s, d) + if d == s.subscribers[u.token] then [u] else []
  {
    var read, send := ByTask(ReadProgress(u)), ByTask(SendUpdate(true));
    var c := s.subscribers[u.token];
    var s1 := Step(s, read).value;
    assert [read] + between + [send] == [read] + (between + [send]);
    assert ([read] + (between + [send]))[1..] == between + [send];
    RunConcat(s1, between, [send]);
    var s2 := Run(s1, between).value;
    StepKeepsInv(s, read);
    RunKeepsInv(s1, between);
    ReaderHoldsUpdate(s1, between, c, u);
    InboxIsPassedOn(s1, between, d);
    assert [send][1..] == [];
    StepInbox(s2, send, d);
    StepInbox(s, read, d);
  }

  /** Without a subscriber it is dropped; a subscriber that is gone is removed. */
  lemma UpdateWithoutSubscriber(s: State, u: Update)
    requires s.reader.Reading?
    ensures u.token !in s.subscribers ==> Step(s, ByTask(ReadProgress(u))) == Some(s)
    ensures u.token in s.subscribers ==>
      var run := Run(s, [ByTask(ReadProgress(u)), ByTask(SendUpdate(false)), ByTask(RemoveSubscriber)]);
      run == Some(s.(subscribers := s.subscribers - {u.token}))
  {
    if u.token in s.subscribers {
      var events := [ByTask(ReadProgress(u)), ByTask(SendUpdate(false)), ByTask(RemoveSubscriber)];
      var s1 := s.(reader := Notifying(s.subscribers[u.token], u));
      var s2 := s.(reader := Unsubscribing(u.token));
      var s3 := s.(subscribers := s.subscribers - {u.token});
      assert events[1..][1..] == [ByTask(RemoveSubscriber)] && events[1..][1..][1..] == [];
      assert Run(s3, []) == Some(s3);
      assert Run(s2, events[1..][1..]) == Some(s3);
      assert Run(s1, events[1..]) == Some(s3);
    }
  }

  /** A call that wants progress draws the next token, and no other does. */
  lemma TokensAreDrawn(s: State, c: CallId, wantsProgress: bool)
    requires c !in s.calls
    ensures Step(s, Begin(c, wantsProgress)).Some?
    ensures var s' := Step(s, Begin(c, wantsProgress)).value;
            s'.calls == s.calls[c := Call(if wantsProgress then Some(s.nextToken) else None, Begun, Open, [])] &&
            s'.nextToken == s.nextToken + if wantsProgress then 1 else 0
  {
  }

  /** Registering and subscribing enter the call under its own id and token. */
  lemma EntriesAreMade(s: State, c: CallId)
    requires c in s.calls
    ensures s.calls[c].phase.Numbered? ==>
      Step(s, ByCall(c, Register)).Some? &&
      Step(s, ByCall(c, Register)).value.pending == s.pending[s.calls[c].phase.id := c]
    ensures s.calls[c].phase.Registered? && s.calls[c].token.Some? ==>
      Step(s, ByCall(c, Subscribe)).Some? &&
      Step(s, ByCall(c, Subscribe)).value.subscribers == s.subscribers[s.calls[c].token.value := c]
  {
  }

  // ------------------------------------------------------------------
  // Why a call ends
  // ------------------------------------------------------------------

  predicate TimedOut(s: State, c: CallId) {
    c in s.calls &&
    var p := s.calls[c].phase;
    (p.Resolved? || p.Unsubscribed? || p.Returned?) && p.outcome == Err(Timeout)
  }

  lemma TimedOutStep(s: State, e: Event, c: CallId)
    requires Inv(s) && Step(s, e).Some?
    ensures TimedOut(Step(s, e).value, c) <==> TimedOut(s, c) || e == ByCall(c, TimeOut)
  {
    match e {
      case Begin(_, _) =>
      case ByCall(d, step) =>
        if d == c {
          assert CallOk(s, c);
          if s.calls[c].slot.Sent? {
            var o := s.calls[c].slot.outcome;
            var k :| 0 <= k < |s.received| && MapPayload(s.received[k].payload) == o;
          }
        } else {
          StepCallMoves(s, d, step);
        }
      case ByTask(task) =>
        TaskOnCounters(s, task);
        if c in s.calls { TaskOnCall(s, task, c); }
    }
  }

  lemma {:induction false} TimedOutRun(s: State, events: seq<Event>, c: CallId)
    requires Inv(s) && Run(s, events).Some?
    ensures TimedOut(Run(s, events).value, c) <==> TimedOut(s, c) || ByCall(c, TimeOut) in events
    decreases |events|
  {
    if events != [] {
      assert events == [events[0]] + events[1..];
      TimedOutStep(s, events[0], c);
      StepKeepsInv(s, events[0]);
      TimedOutRun(Step(s, events[0]).value, events[1..], c);
    }
  }

  /** A returned call reports a timeout if and only if it timed out, a server's decision
      if and only if its channel carried that, and a closed connection otherwise. */
  lemma ReturnedOutcomeIff(events: seq<Event>, c: CallId)
    requires Run(INITIAL, events).Some?
    requires var s := Run(INITIAL, events).value; c in s.calls && s.calls[c].phase.Returned?
    ensures var s := Run(INITIAL, events).value;
            var o := s.calls[c].phase.outcome;
            (o == Err(Timeout) <==> ByCall(c, TimeOut) in events) &&
            (o == Err(ConnectionClosed) <==> o != Err(Timeout) && s.calls[c].slot != Sent(o))
  {
    var s := Run(INITIAL, events).value;
    TimedOutRun(INITIAL, events, c);
    RunKeepsInv(INITIAL, events);
    assert CallOk(s, c);
    if s.calls[c].slot.Sent? {
      var k :| 0 <= k < |s.received| && MapPayload(s.received[k].payload) == s.calls[c].slot.outcome;
    }
  }

  /** The answer that is returned is the payload of the response: its value, or the
      server's error. */
  lemma AnswerCarriesPayload(s: State, id: RequestId, payload: Payload, c: CallId, events: seq<Event>)
    requires Inv(s) && s.reader.Reading? && id in s.pending
    requires c in s.calls && s.calls[c].phase.AwaitsReply() && s.calls[c].phase.id == id
    requires Run(s, [ByTask(ReadResponse(Response(id, payload)))] + events).Some?
    requires forall k :: 0 <= k < |events| ==> !GivesUp(events[k], c)
    ensures var s' := Run(s, [ByTask(ReadResponse(Response(id, payload)))] + events).value;
            c in s'.calls &&
            (s'.calls[c].phase.Returned? ==>
               s'.calls[c].phase.outcome ==
                 if payload.Success? then Ok(payload.value) else Err(ServerError(payload.error)))
  {
    AnswerIsReturnedIff(s, Response(id, payload), c, events);
  }

  // ------------------------------------------------------------------
  // The end of the transport
  // ------------------------------------------------------------------

  predicate Kills(e: Event) {
    e == ByTask(EndOfInput) || e == ByTask(WriterError)
  }

  lemma AliveStep(s: State, e: Event)
    requires Step(s, e).Some?
    ensures Step(s, e).value.alive <==> s.alive && !Kills(e)
  {
    if e.ByCall? { StepCallMoves(s, e.call, e.step); }
  }

  /** The transport is alive until the input ends or a write fails. */
  lemma {:induction false} AliveIff(s: State, events: seq<Event>)
    requires Run(s, events).Some?
    ensures Run(s, events).value.alive <==> s.alive && forall k :: 0 <= k < |events| ==> !Kills(events[k])
    decreases |events|
  {
    if events != [] {
      AliveStep(s, events[0]);
      AliveIff(Step(s, events[0]).value, events[1..]);
      assert forall k :: 0 < k < |events| ==> events[k] == events[1..][k - 1];
      if exists k :: 0 <= k < |events[1..]| && Kills(events[1..][k]) {
        var k :| 0 <= k < |events[1..]| && Kills(events[1..][k]);
        assert Kills(events[k + 1]);
      }
    }
  }

  /** The call has not begun, is about to find the transport dead, or has. */
  predicate IsRefused(s: State, c: CallId) {
    c in s.calls ==> s.calls[c].phase.Begun? || s.calls[c].phase == Returned(None, Err(ConnectionClosed))
  }

  /** A call that begins when the transport is dead never gets an id. */
  lemma {:induction false} DeadTransportRefuses(s: State, events: seq<Event>, c: CallId)
    requires !s.alive && IsRefused(s, c) && Run(s, events).Some?
    ensures IsRefused(Run(s, events).value, c)
    decreases |events|
  {
    if events != [] {
      var e := events[0];
      AliveStep(s, e);
      if e.ByTask? {
        TaskOnCounters(s, e.task);
        if c in s.calls { TaskOnCall(s, e.task, c); }
      }
      DeadTransportRefuses(Step(s, e).value, events[1..], c);
    }
  }

  /** Clearing the pending map closes the channels of the calls in it: a waiting call
      can return a closed connection at once. */
  lemma ClearingReleases(s: State, c: CallId)
    requires Inv(s) && s.reader.ClearingPending? && c in s.calls
    requires s.calls[c].phase.Waiting? && s.calls[c].phase.id in s.pending
    ensures var events := [ByTask(ClearPending), ByCall(c, ReceiveReply), ByCall(c, Unsubscribe), ByCall(c, Finish)];
            Run(s, events).Some? && c in Run(s, events).value.calls &&
            Run(s, events).value.calls[c].phase == Returned(Some(s.calls[c].phase.id), Err(ConnectionClosed))
  {
    var id := s.calls[c].phase.id;
    ClearingCloses(s, c);
    var s1 := Step(s, ByTask(ClearPending)).value;
    var finish := [ByCall(c, ReceiveReply), ByCall(c, Unsubscribe), ByCall(c, Finish)];
    FinishClosed(s1, c, id);
    RunCons(s, ByTask(ClearPending), finish, Run(s1, finish).value);
    assert [ByTask(ClearPending)] + finish
        == [ByTask(ClearPending), ByCall(c, ReceiveReply), ByCall(c, Unsubscribe), ByCall(c, Finish)];
  }

  lemma ClearingCloses(s: State, c: CallId)
    requires Inv(s) && s.reader.ClearingPending? && c in s.calls
    requires s.calls[c].phase.Waiting? && s.calls[c].phase.id in s.pending
    ensures Step(s, ByTask(ClearPending)).Some?
    ensures var s' := Step(s, ByTask(ClearPending)).value;
            c in s'.calls && s'.calls[c].slot.Closed? && s'.calls[c].phase == s.calls[c].phase
  {
    OwnEntries(s, c);
    assert PendingOk(s, s.calls[c].phase.id);
    assert c in s.pending.Values;
  }

  /** The calls that want updates, passed the liveness check and have not subscribed yet. */
  predicate HasLateSubscriber(s: State) {
    exists c :: c in s.calls && IsLateSubscriber(s.calls[c])
  }

  predicate IsLateSubscriber(call: Call) {
    call.token.Some? && (call.phase.Checked? || call.phase.Numbered? || call.phase.Registered?)
  }

  ghost predicate StaysUnsubscribed(s: State) {
    forall events :: Run(s, events).Some? ==> Run(s, events).value.subscribers == map[]
  }

  /** The reader ends by emptying the subscribers: nobody is subscribed ever after, if
      and only if no call stood between the liveness check and its subscription. */
  lemma UnsubscribedForGoodIff(s: State)
    requires Reachable(s) && s.reader.ClearingSubscribers?
    ensures Step(s, ByTask(ClearSubscribers)).Some?
    ensures StaysUnsubscribed(Step(s, ByTask(ClearSubscribers)).value) <==> !HasLateSubscriber(s)
  {
    ReachableInv(s);
    var s' := Step(s, ByTask(ClearSubscribers)).value;
    assert s'.calls == s.calls && !s'.alive && s'.subscribers == map[];
    if HasLateSubscriber(s) {
      var c :| c in s.calls && IsLateSubscriber(s.calls[c]);
      LateSubscriberSubscribes(s', c);
    } else {
      forall events | Run(s', events).Some? ensures Run(s', events).value.subscribers == map[] {
        NoLateSubscriberStaysClear(s', events);
      }
    }
  }

  lemma {:induction false} NoLateSubscriberStaysClear(s: State, events: seq<Event>)
    requires s.reader.Stopped? && !s.alive && s.subscribers == map[] && !HasLateSubscriber(s)
    requires Run(s, events).Some?
    ensures Run(s, events).value.subscribers == map[]
    decreases |events|
  {
    if events != [] {
      NoLateSubscriberStep(s, events[0]);
      NoLateSubscriberStaysClear(Step(s, events[0]).value, events[1..]);
    }
  }

  lemma NoLateSubscriberStep(s: State, e: Event)
    requires s.reader.Stopped? && !s.alive && s.subscribers == map[] && !HasLateSubscriber(s) && Step(s, e).Some?
    ensures var s' := Step(s, e).value;
            s'.reader.Stopped? && !s'.alive && s'.subscribers == map[] && !HasLateSubscriber(s')
  {
    var s' := Step(s, e).value;
    if e.ByCall? {
      assert !IsLateSubscriber(s.calls[e.call]);
      assert !IsLateSubscriber(s'.calls[e.call]);
      assert forall d :: d in s'.calls && d != e.call ==> s'.calls[d] == s.calls[d];
    } else if e.Begin? {
      assert forall d :: d in s'.calls && d != e.call ==> s'.calls[d] == s.calls[d];
    } else {
      assert s'.calls == s.calls;
    }
  }

  lemma LateSubscriberSubscribes(s: State, c: CallId)
    requires c in s.calls && IsLateSubscriber(s.calls[c])
    ensures !StaysUnsubscribed(s)
    decreases if s.calls[c].phase.Checked? then 2 else if s.calls[c].phase.Numbered? then 1 else 0
  {
    var step := OwnStep(s.calls[c].phase);
    var s' := Step(s, ByCall(c, step)).value;
    if s.calls[c].phase.Registered? {
      assert s.calls[c].token.value in s'.subscribers;
      RunCons(s, ByCall(c, step), [], s');
      assert Run(s, [ByCall(c, step)] + []) == Some(s');
    } else {
      LateSubscriberSubscribes(s', c);
      var events :| Run(s', events).Some? && Run(s', events).value.subscribers != map[];
      RunCons(s, ByCall(c, step), events, Run(s', events).value);
      assert Run(s, [ByCall(c, step)] + events) == Run(s', events);
    }
  }

  lemma FinishClosed(s: State, c: CallId, id: RequestId)
    requires c in s.calls && s.calls[c].phase == Waiting(id) && s.calls[c].slot.Closed?
    ensures var run := Run(s, [ByCall(c, ReceiveReply), ByCall(c, Unsubscribe), ByCall(c, Finish)]);
            run.Some? && c in run.value.calls &&
            run.value.calls[c].phase == Returned(Some(id), Err(ConnectionClosed))
  {
    var events := [ByCall(c, ReceiveReply), ByCall(c, Unsubscribe), ByCall(c, Finish)];
    var s1 := Step(s, events[0]).value;
    var s2 := Step(s1, events[1]).value;
    var s3 := Step(s2, events[2]).value;
    assert events[1..][1..] == events[2..] && events[2..][1..] == [];
    assert Run(s3, []) == Some(s3);
    assert Run(s2, events[2..]) == Some(s3);
    assert Run(s1, events[1..]) == Some(s3);
  }

  /** An answer that comes when its call has given up changes no call. */
  lemma LateAnswerIsDropped(s: State)
    requires Inv(s) && s.reader.Delivering? && !s.calls[s.reader.call].phase.IsListening()
    ensures Step(s, ByTask(Deliver)) == Some(s.(reader := Reading))
  {
  }

  // ------------------------------------------------------------------
  // HTTP bodies
  // ------------------------------------------------------------------

  ghost predicate IsReplyTo(m: Option<Message>, id: RequestId) {
    exists payload :: m == Some(ResponseMessage(Some(id), payload))
  }

  lemma ReplyIsMatch(body: seq<Option<Message>>, k: nat, id: RequestId)
    requires k < |body|
    ensures MatchesAt(body, k, id) <==> IsReplyTo(body[k], id)
  {
    if MatchesAt(body, k, id) { assert body[k] == Some(ResponseMessage(Some(id), body[k].value.payload)); }
  }

  /** With a response under the id, and none after it, the reply is its payload; without
      any there is none. */
  lemma LastReplyCounts(before: seq<Option<Message>>, payload: Payload, after: seq<Option<Message>>, id: RequestId,
                        reply: Option<Outcome>)
    requires forall k :: 0 <= k < |after| ==> !IsReplyTo(after[k], id)
    requires var body := before + [Some(ResponseMessage(Some(id), payload))] + after;
             ReplyAmong(body, id, |body|, reply)
    ensures reply == Some(if payload.Success? then Ok(payload.value) else Err(ServerError(payload.error)))
  {
    var body := before + [Some(ResponseMessage(Some(id), payload))] + after;
    var n := |before|;
    forall k: nat | k < |body| ensures MatchesAt(body, k, id) <==> IsReplyTo(body[k], id) { ReplyIsMatch(body, k, id); }
    assert MatchesAt(body, n, id);
    forall k: nat | n < k < |body| ensures !MatchesAt(body, k, id) { assert body[k] == after[k - n - 1]; }
  }

  lemma NoReply(body: seq<Option<Message>>, id: RequestId, reply: Option<Outcome>)
    requires forall k :: 0 <= k < |body| ==> !IsReplyTo(body[k], id)
    requires ReplyAmong(body, id, |body|, reply)
    ensures reply == None
  {
    forall k: nat | k < |body| ensures !MatchesAt(body, k, id) { ReplyIsMatch(body, k, id); }
  }

  /** The updates passed on are those of the messages before the first malformed one,
      message by message: a progress notification with the registered token, nothing
      for any other message. */
  lemma {:induction false} UpdatesForConcat(a: seq<Message>, b: seq<Message>, token: Option<Token>)
    ensures UpdatesFor(a + b, token) == UpdatesFor(a, token) + UpdatesFor(b, token)
  {
    if a == [] {
      assert a + b == b;
    } else {
      assert (a + b)[0] == a[0] && (a + b)[1..] == a[1..] + b;
      UpdatesForConcat(a[1..], b, token);
    }
  }

  lemma UpdatesForOne(m: Message, token: Token)
    ensures UpdatesFor([m], None) == []
    ensures forall u :: m == ProgressMessage(u) ==> UpdatesFor([m], Some(token)) == if u.token == token then [u] else []
    ensures (forall u :: m != ProgressMessage(u)) ==> UpdatesFor([m], Some(token)) == []
  {
    assert [m][1..] == [];
    if m.ProgressMessage? { assert m == ProgressMessage(m.update); }
  }

  lemma {:induction false} ParsedPrefixIs(body: seq<Option<Message>>)
    ensures var n := |ParsedPrefix(body)|;
            n <= |body| && (n < |body| ==> body[n].None?) &&
            forall k :: 0 <= k < n ==> body[k] == Some(ParsedPrefix(body)[k])
  {
    if body != [] && body[0].Some? { ParsedPrefixIs(body[1..]); }
  }
}
