/** The stdio JSON-RPC client: many callers and one reader task share a map of
    pending requests and a map of progress subscribers. Every access to shared
    state under its lock is one step; steps of different tasks interleave freely,
    and a timeout may strike a waiting caller at any time. */
module Multiplexer {
  import opened Options

  datatype Payload = Success(value: string) | Failure(error: string)

  datatype CallError = ServerError(message: string) | ConnectionClosed | Timeout

  type Outcome = Result<string, CallError>

  function MapPayload(p: Payload): Outcome {
    match p case Success(v) => Ok(v) case Failure(e) => Err(ServerError(e))
  }

  /** An outcome the server decided. */
  predicate FromServer(o: Outcome) {
    o.Ok? || o.error.ServerError?
  }

  /** The one-shot channel of a request: the sender is stored in the pending map,
      or on its way to being used, until it sends once or is dropped. */
  datatype Slot = Open | Sent(outcome: Outcome) | Closed

  type CallId = nat
  type RequestId = nat
  type Token = nat

  /** Where a call of send_request stands. */
  datatype Phase =
    | Begun
    | Checked
    | Numbered(id: RequestId)
    | Registered(id: RequestId)
    | Subscribed(id: RequestId)
    | Waiting(id: RequestId)
    | WriteFailed(id: RequestId)
    | PendingDropped(id: RequestId)
    | Resolved(id: RequestId, outcome: Outcome)
    | Unsubscribed(id: RequestId, outcome: Outcome)
    | Returned(request: Option<RequestId>, outcome: Outcome)
  {
    function Id(): Option<RequestId> {
      if Begun? || Checked? then None
      else if Returned? then request
      else Some(id)
    }

    /** The call may still have its sender in the pending map. */
    predicate MayBePending() {
      Registered? || Subscribed? || Waiting? || WriteFailed? || Resolved? || Unsubscribed?
    }

    /** The call has not yet given up waiting for the reply. */
    predicate AwaitsReply() {
      Registered? || Subscribed? || Waiting?
    }

    predicate MayBeSubscribed() {
      Subscribed? || Waiting? || WriteFailed? || PendingDropped? || Resolved?
    }

    /** The receiving end of the one-shot channel exists. */
    predicate IsListening() {
      Registered? || Subscribed? || Waiting? || WriteFailed? || PendingDropped?
    }
  }

  datatype Call = Call(token: Option<Token>, phase: Phase, slot: Slot, inbox: seq<Update>)

  datatype Update = Update(token: Token, progress: string)

  datatype Response = Response(id: RequestId, payload: Payload)

  datatype Reader =
    | Reading
    | Delivering(call: CallId, response: Response)
    | Notifying(call: CallId, update: Update)
    | Unsubscribing(token: Token)
    | ClearingPending
    | ClearingSubscribers
    | Stopped

  datatype State = State(
    calls: map<CallId, Call>,
    pending: map<RequestId, CallId>,
    subscribers: map<Token, CallId>,
    nextId: RequestId,
    nextToken: Token,
    alive: bool,
    reader: Reader,
    received: seq<Response>)

  const INITIAL := State(map[], map[], map[], 1, 1, true, Reading, [])

  /** The steps of one call of send_request. */
  datatype CallStep =
    | CheckAlive
    | TakeId
    | Register
    | Subscribe
    | Write(accepted: bool)
    | DropPending
    | DropSubscription
    | ReceiveReply
    | TimeOut
    | Unsubscribe
    | Finish

  /** The steps of the reader task, and the failure of the writer task. */
  datatype TaskStep =
    | ReadResponse(response: Response)
    | ReadOther
    | Deliver
    | ReadProgress(update: Update)
    | SendUpdate(accepted: bool)
    | RemoveSubscriber
    | EndOfInput
    | ClearPending
    | ClearSubscribers
    | WriterError

  datatype Event =
    | Begin(call: CallId, wantsProgress: bool)
    | ByCall(call: CallId, step: CallStep)
    | ByTask(task: TaskStep)

  /** Where a step takes a call; nowhere if the call is not at that point. */
  function NextPhase(call: Call, e: CallStep, alive: bool, nextId: RequestId): Option<Phase> {
    match call.phase
    case Begun =>
      if !e.CheckAlive? then None
      else Some(if alive then Checked else Returned(None, Err(ConnectionClosed)))
    case Checked =>
      if e.TakeId? then Some(Numbered(nextId)) else None
    case Numbered(id) =>
      if e.Register? then Some(Registered(id)) else None
    case Registered(id) =>
      if e.Subscribe? then Some(Subscribed(id)) else None
    case Subscribed(id) =>
      if !e.Write? then None else Some(if e.accepted then Waiting(id) else WriteFailed(id))
    case WriteFailed(id) =>
      if e.DropPending? then Some(PendingDropped(id)) else None
    case PendingDropped(id) =>
      if e.DropSubscription? then Some(Returned(Some(id), Err(ConnectionClosed))) else None
    case Waiting(id) =>
      if e.TimeOut? then Some(Resolved(id, Err(Timeout)))
      else if !e.ReceiveReply? || call.slot.Open? then None
      else Some(Resolved(id, if call.slot.Sent? then call.slot.outcome else Err(ConnectionClosed)))
    case Resolved(id, outcome) =>
      if e.Unsubscribe? then Some(Unsubscribed(id, outcome)) else None
    case Unsubscribed(id, outcome) =>
      if e.Finish? then Some(Returned(Some(id), outcome)) else None
    case Returned(_, _) => None
  }

  /** What the step does to the pending map, once the call has its id. */
  function NextPending(pending: map<RequestId, CallId>, c: CallId, phase: Phase, e: CallStep)
    : map<RequestId, CallId>
  {
    match phase
    case Numbered(id) => if e.Register? then pending[id := c] else pending
    case WriteFailed(id) => if e.DropPending? then pending - {id} else pending
    case Unsubscribed(id, outcome) =>
      if e.Finish? && !FromServer(outcome) then pending - {id} else pending
    case _ => pending
  }

  function NextSubscribers(subscribers: map<Token, CallId>, c: CallId, token: Option<Token>, e: CallStep)
    : map<Token, CallId>
  {
    if token.None? then subscribers
    else if e.Subscribe? then subscribers[token.value := c]
    else if e.DropSubscription? || e.Unsubscribe? then subscribers - {token.value}
    else subscribers
  }

  function StepCall(s: State, c: CallId, e: CallStep): Option<State> {
    if c !in s.calls then None
    else
      var call := s.calls[c];
      var next := NextPhase(call, e, s.alive, s.nextId);
      if next.None? then None
      else
        Some(s.(calls := s.calls[c := call.(phase := next.value)],
                pending := NextPending(s.pending, c, call.phase, e),
                subscribers := NextSubscribers(s.subscribers, c, call.token, e),
                nextId := if e.TakeId? then s.nextId + 1 else s.nextId))
  }

  /** A new call first draws its progress token, if it wants one. */
  function StepBegin(s: State, c: CallId, wantsProgress: bool): Option<State> {
    if c in s.calls then None
    else
      var token := if wantsProgress then Some(s.nextToken) else None;
      Some(s.(calls := s.calls[c := Call(token, Begun, Open, [])],
              nextToken := if wantsProgress then s.nextToken + 1 else s.nextToken))
  }

  /** Dropping a stored sender closes the channel it belongs to. */
  function CloseSlots(calls: map<CallId, Call>, dropped: set<CallId>): (r: map<CallId, Call>)
    ensures r.Keys == calls.Keys
  {
    map c | c in calls ::
      if c in dropped && calls[c].slot.Open? then calls[c].(slot := Closed) else calls[c]
  }

  function StepTask(s: State, e: TaskStep): Option<State> {
    match s.reader
    case Reading =>
      (match e
       case ReadResponse(r) =>
         var s' := s.(received := s.received + [r]);
         if r.id in s.pending
         then Some(s'.(pending := s.pending - {r.id}, reader := Delivering(s.pending[r.id], r)))
         else Some(s')
       case ReadOther => Some(s)
       case ReadProgress(u) =>
         if u.token in s.subscribers then Some(s.(reader := Notifying(s.subscribers[u.token], u)))
         else Some(s)
       case EndOfInput => Some(s.(alive := false, reader := ClearingPending))
       case _ => StepWriter(s, e))
    case Delivering(c, r) =>
      if e.Deliver? then Some(s.(reader := Reading, calls := Delivered(s.calls, c, MapPayload(r.payload))))
      else StepWriter(s, e)
    case Notifying(c, u) =>
      if !e.SendUpdate? then StepWriter(s, e)
      else if e.accepted then Some(s.(reader := Reading, calls := Notified(s.calls, c, u)))
      else Some(s.(reader := Unsubscribing(u.token)))
    case Unsubscribing(t) =>
      if e.RemoveSubscriber? then Some(s.(reader := Reading, subscribers := s.subscribers - {t}))
      else StepWriter(s, e)
    case ClearingPending =>
      if e.ClearPending? then
        Some(s.(pending := map[], calls := CloseSlots(s.calls, s.pending.Values), reader := ClearingSubscribers))
      else StepWriter(s, e)
    case ClearingSubscribers =>
      if e.ClearSubscribers? then Some(s.(subscribers := map[], reader := Stopped))
      else StepWriter(s, e)
    case Stopped => StepWriter(s, e)
  }

  function StepWriter(s: State, e: TaskStep): Option<State> {
    if e.WriterError? then Some(s.(alive := false)) else None
  }

  /** Sending on a one-shot channel whose receiver is gone has no effect. */
  function Delivered(calls: map<CallId, Call>, c: CallId, outcome: Outcome): (r: map<CallId, Call>)
    ensures r.Keys == calls.Keys
  {
    if c in calls && calls[c].phase.IsListening() then calls[c := calls[c].(slot := Sent(outcome))] else calls
  }

  function Notified(calls: map<CallId, Call>, c: CallId, u: Update): (r: map<CallId, Call>)
    ensures r.Keys == calls.Keys
  {
    if c in calls then calls[c := calls[c].(inbox := calls[c].inbox + [u])] else calls
  }

  function Step(s: State, e: Event): Option<State> {
    match e
    case Begin(c, wantsProgress) => StepBegin(s, c, wantsProgress)
    case ByCall(c, step) => StepCall(s, c, step)
    case ByTask(task) => StepTask(s, task)
  }

  // ------------------------------------------------------------------
  // The invariant
  // ------------------------------------------------------------------

  /** The server sent a response under this id that maps to this outcome. */
  predicate Answered(s: State, id: RequestId, o: Outcome) {
    exists k :: 0 <= k < |s.received| && s.received[k].id == id && MapPayload(s.received[k].payload) == o
  }

  predicate CallOk(s: State, c: CallId)
    requires c in s.calls
  {
    var call := s.calls[c];
    (call.phase.Id().Some? ==> call.phase.Id().value < s.nextId) &&
    (call.token.Some? ==> call.token.value < s.nextToken) &&
    (call.phase.Begun? || call.phase.Checked? || call.phase.Numbered? ==> call.slot.Open?) &&
    (call.slot.Sent? ==>
      call.phase.Id().Some? &&
      call.phase.Id().value !in s.pending &&
      Answered(s, call.phase.Id().value, call.slot.outcome)) &&
    (call.phase.Resolved? || call.phase.Unsubscribed? || call.phase.Returned? ==>
      FromServer(call.phase.outcome) ==>
        call.slot == Sent(call.phase.outcome)) &&
    forall k :: 0 <= k < |call.inbox| ==> call.token == Some(call.inbox[k].token)
  }

  predicate PendingOk(s: State, id: RequestId)
    requires id in s.pending
  {
    var c := s.pending[id];
    c in s.calls && s.calls[c].phase.MayBePending() && s.calls[c].phase.id == id && s.calls[c].slot.Open?
  }

  predicate SubscriberOk(s: State, t: Token)
    requires t in s.subscribers
  {
    var c := s.subscribers[t];
    c in s.calls && s.calls[c].phase.MayBeSubscribed() && s.calls[c].token == Some(t)
  }

  predicate ReaderOk(s: State) {
    match s.reader
    case Delivering(c, r) =>
      c in s.calls && s.calls[c].phase.Id() == Some(r.id) &&
      r.id !in s.pending && !s.calls[c].phase.Numbered? &&
      !s.calls[c].slot.Sent? &&
      r in s.received
    case Notifying(c, u) =>
      c in s.calls && s.calls[c].token == Some(u.token)
    case ClearingPending => !s.alive
    case ClearingSubscribers => !s.alive
    case Stopped => !s.alive
    case _ => true
  }

  predicate Distinct(s: State) {
    (forall c, d :: c in s.calls && d in s.calls && c != d && s.calls[c].phase.Id().Some? ==>
      s.calls[c].phase.Id() != s.calls[d].phase.Id()) &&
    (forall c, d :: c in s.calls && d in s.calls && c != d && s.calls[c].token.Some? ==>
      s.calls[c].token != s.calls[d].token)
  }

  predicate Inv(s: State) {
    (forall c :: c in s.calls ==> CallOk(s, c)) &&
    (forall id :: id in s.pending ==> PendingOk(s, id)) &&
    (forall t :: t in s.subscribers ==> SubscriberOk(s, t)) &&
    ReaderOk(s) && Distinct(s)
  }

  /** Everything about a state but its invariant on single calls. */
  predicate SharedOk(s: State) {
    (forall id :: id in s.pending ==> PendingOk(s, id)) &&
    (forall t :: t in s.subscribers ==> SubscriberOk(s, t)) &&
    ReaderOk(s)
  }

  lemma OwnEntries(s: State, c: CallId)
    requires Inv(s) && c in s.calls
    ensures CallOk(s, c)
    ensures var id := s.calls[c].phase.Id();
            id.Some? && id.value in s.pending ==>
              s.pending[id.value] == c && s.calls[c].phase.MayBePending()
    ensures var t := s.calls[c].token;
            t.Some? && t.value in s.subscribers ==>
              s.subscribers[t.value] == c && s.calls[c].phase.MayBeSubscribed()
  {
    var id, t := s.calls[c].phase.Id(), s.calls[c].token;
    if id.Some? && id.value in s.pending { assert PendingOk(s, id.value); }
    if t.Some? && t.value in s.subscribers { assert SubscriberOk(s, t.value); }
  }

  lemma BeginKeepsCalls(s: State, c: CallId, wantsProgress: bool, d: CallId)
    requires Inv(s) && StepBegin(s, c, wantsProgress).Some? && (d in s.calls || d == c)
    ensures CallOk(StepBegin(s, c, wantsProgress).value, d)
  {
    if d in s.calls { assert CallOk(s, d); }
  }

  lemma BeginKeepsShared(s: State, c: CallId, wantsProgress: bool)
    requires Inv(s) && StepBegin(s, c, wantsProgress).Some?
    ensures SharedOk(StepBegin(s, c, wantsProgress).value)
  {
    var s' := StepBegin(s, c, wantsProgress).value;
    forall id | id in s'.pending ensures PendingOk(s', id) { assert PendingOk(s, id); }
    forall t | t in s'.subscribers ensures SubscriberOk(s', t) { assert SubscriberOk(s, t); }
  }

  lemma BeginKeepsDistinct(s: State, c: CallId, wantsProgress: bool)
    requires Inv(s) && StepBegin(s, c, wantsProgress).Some?
    ensures Distinct(StepBegin(s, c, wantsProgress).value)
  {
    forall d | d in s.calls ensures s.calls[d].token != Some(s.nextToken) { assert CallOk(s, d); }
  }

  lemma BeginKeepsInv(s: State, c: CallId, wantsProgress: bool)
    requires Inv(s) && StepBegin(s, c, wantsProgress).Some?
    ensures Inv(StepBegin(s, c, wantsProgress).value)
  {
    var s' := StepBegin(s, c, wantsProgress).value;
    forall d | d in s'.calls ensures CallOk(s', d) {
      BeginKeepsCalls(s, c, wantsProgress, d);
    }
    BeginKeepsShared(s, c, wantsProgress);
    BeginKeepsDistinct(s, c, wantsProgress);
  }

  // What a step of a call does to each part of the state, whatever its phase.

  predicate PhaseMoves(call: Call, e: CallStep, nextId: RequestId, phase: Phase) {
    phase.Id() == (if e.TakeId? then Some(nextId) else call.phase.Id()) &&
    (e.TakeId? ==> call.phase.Checked?) &&
    (phase.Begun? || phase.Checked? || phase.Numbered? ==> call.phase.Begun? || call.phase.Checked?) &&
    (phase.Numbered? ==> e.TakeId?) &&
    (phase.Resolved? || phase.Unsubscribed? || phase.Returned? ==>
      FromServer(phase.outcome) ==>
        call.slot == Sent(phase.outcome) ||
        ((call.phase.Resolved? || call.phase.Unsubscribed?) && call.phase.outcome == phase.outcome))
  }

  /** Only registering adds to the pending map; a call that leaves its entry behind
      may still be pending, or holds its answer. */
  predicate PendingMoves(pending: map<RequestId, CallId>, c: CallId, call: Call, phase: Phase,
                         pending': map<RequestId, CallId>) {
    (call.phase.Numbered? && phase == Registered(call.phase.id) && pending' == pending[call.phase.id := c]) ||
    (call.phase.Id().Some? && pending' == pending - {call.phase.Id().value}) ||
    (pending' == pending &&
     (call.phase.MayBePending() ==>
       phase.MayBePending() || (call.phase.Unsubscribed? && FromServer(call.phase.outcome))))
  }

  /** Only subscribing adds to the subscribers. */
  predicate SubscribersMove(subscribers: map<Token, CallId>, c: CallId, call: Call, phase: Phase,
                            subscribers': map<Token, CallId>) {
    (call.token.Some? && phase.Subscribed? && subscribers' == subscribers[call.token.value := c]) ||
    (call.token.Some? && subscribers' == subscribers - {call.token.value}) ||
    (subscribers' == subscribers &&
     (call.token.Some? && call.phase.MayBeSubscribed() ==> phase.MayBeSubscribed()))
  }

  predicate CallMoves(s: State, c: CallId, e: CallStep, s': State) {
    c in s.calls && c in s'.calls &&
    s'.calls == s.calls[c := s.calls[c].(phase := s'.calls[c].phase)] &&
    s'.nextId == (if e.TakeId? then s.nextId + 1 else s.nextId) &&
    s'.nextToken == s.nextToken && s'.alive == s.alive && s'.reader == s.reader && s'.received == s.received &&
    PhaseMoves(s.calls[c], e, s.nextId, s'.calls[c].phase) &&
    PendingMoves(s.pending, c, s.calls[c], s'.calls[c].phase, s'.pending) &&
    SubscribersMove(s.subscribers, c, s.calls[c], s'.calls[c].phase, s'.subscribers)
  }

  lemma PhaseMove(call: Call, e: CallStep, alive: bool, nextId: RequestId)
    requires NextPhase(call, e, alive, nextId).Some?
    ensures PhaseMoves(call, e, nextId, NextPhase(call, e, alive, nextId).value)
  {
  }

  lemma PendingMove(pending: map<RequestId, CallId>, c: CallId, call: Call, e: CallStep, alive: bool, nextId: RequestId)
    requires NextPhase(call, e, alive, nextId).Some?
    ensures PendingMoves(pending, c, call, NextPhase(call, e, alive, nextId).value,
                         NextPending(pending, c, call.phase, e))
  {
  }

  lemma SubscriberMove(subscribers: map<Token, CallId>, c: CallId, call: Call, e: CallStep,
                       alive: bool, nextId: RequestId)
    requires NextPhase(call, e, alive, nextId).Some?
    ensures SubscribersMove(subscribers, c, call, NextPhase(call, e, alive, nextId).value,
                            NextSubscribers(subscribers, c, call.token, e))
  {
  }

  lemma StepCallMoves(s: State, c: CallId, e: CallStep)
    requires StepCall(s, c, e).Some?
    ensures CallMoves(s, c, e, StepCall(s, c, e).value)
  {
    PhaseMove(s.calls[c], e, s.alive, s.nextId);
    PendingMove(s.pending, c, s.calls[c], e, s.alive, s.nextId);
    SubscriberMove(s.subscribers, c, s.calls[c], e, s.alive, s.nextId);
  }

  lemma CallKeepsPending(s: State, c: CallId, e: CallStep, s': State, id: RequestId)
    requires Inv(s) && CallMoves(s, c, e, s') && id in s'.pending
    ensures PendingOk(s', id)
  {
    assert CallOk(s, c);
    if id in s.pending { assert PendingOk(s, id); }
  }

  lemma CallKeepsSubscriber(s: State, c: CallId, e: CallStep, s': State, t: Token)
    requires Inv(s) && CallMoves(s, c, e, s') && t in s'.subscribers
    ensures SubscriberOk(s', t)
  {
    if t in s.subscribers { assert SubscriberOk(s, t); }
  }

  lemma CallKeepsReader(s: State, c: CallId, e: CallStep, s': State)
    requires Inv(s) && CallMoves(s, c, e, s')
    ensures ReaderOk(s')
  {
  }

  lemma CallKeepsCall(s: State, c: CallId, e: CallStep, s': State, d: CallId)
    requires Inv(s) && CallMoves(s, c, e, s') && d in s.calls
    ensures CallOk(s', d)
  {
    assert CallOk(s, c) && CallOk(s, d);
  }

  lemma CallKeepsDistinct(s: State, c: CallId, e: CallStep, s': State)
    requires Inv(s) && CallMoves(s, c, e, s')
    ensures Distinct(s')
  {
    forall d | d in s.calls ensures s.calls[d].phase.Id() != Some(s.nextId) { assert CallOk(s, d); }
  }

  lemma CallKeepsInv(s: State, c: CallId, e: CallStep)
    requires Inv(s) && StepCall(s, c, e).Some?
    ensures Inv(StepCall(s, c, e).value)
  {
    var s' := StepCall(s, c, e).value;
    StepCallMoves(s, c, e);
    MovesKeepInv(s, c, e, s');
  }

  lemma MovesKeepInv(s: State, c: CallId, e: CallStep, s': State)
    requires Inv(s) && CallMoves(s, c, e, s')
    ensures Inv(s')
  {
    forall d | d in s'.calls ensures CallOk(s', d) {
      CallKeepsCall(s, c, e, s', d);
    }
    forall id | id in s'.pending ensures PendingOk(s', id) {
      CallKeepsPending(s, c, e, s', id);
    }
    forall t | t in s'.subscribers ensures SubscriberOk(s', t) {
      CallKeepsSubscriber(s, c, e, s', t);
    }
    CallKeepsReader(s, c, e, s');
    CallKeepsDistinct(s, c, e, s');
  }

  lemma AnswersAreKept(s: State, s': State, id: RequestId, o: Outcome)
    requires s.received <= s'.received && Answered(s, id, o)
    ensures Answered(s', id, o)
  {
    var k :| 0 <= k < |s.received| && s.received[k].id == id && MapPayload(s.received[k].payload) == o;
    assert s'.received[k] == s.received[k];
  }

  lemma TaskOnCounters(s: State, e: TaskStep)
    requires StepTask(s, e).Some?
    ensures var s' := StepTask(s, e).value;
            s'.calls.Keys == s.calls.Keys &&
            s'.nextId == s.nextId && s'.nextToken == s.nextToken && s.received <= s'.received
  {
  }

  /** The tasks never add to the shared maps. */
  lemma TaskOnMaps(s: State, e: TaskStep)
    requires StepTask(s, e).Some?
    ensures var s' := StepTask(s, e).value;
            (s'.pending == s.pending || s'.pending == map[] ||
             exists id :: s'.pending == s.pending - {id}) &&
            (s'.subscribers == s.subscribers || s'.subscribers == map[] ||
             exists t :: s'.subscribers == s.subscribers - {t})
  {
  }

  lemma TaskOnShared(s: State, e: TaskStep)
    requires StepTask(s, e).Some?
    ensures var s' := StepTask(s, e).value;
            s'.calls.Keys == s.calls.Keys &&
            s'.nextId == s.nextId && s'.nextToken == s.nextToken && s.received <= s'.received &&
            (forall id :: id in s'.pending ==> id in s.pending && s'.pending[id] == s.pending[id]) &&
            (forall t :: t in s'.subscribers ==> t in s.subscribers && s'.subscribers[t] == s.subscribers[t])
  {
    TaskOnCounters(s, e);
    TaskOnMaps(s, e);
  }

  /** How a step of the tasks may change a call: its place stays the same, its
      channel may be closed or receive the answer being delivered, and its inbox
      may receive the update being passed on. */
  lemma TaskOnCall(s: State, e: TaskStep, c: CallId)
    requires StepTask(s, e).Some? && c in s.calls
    ensures c in StepTask(s, e).value.calls
    ensures var before, after := s.calls[c], StepTask(s, e).value.calls[c];
            after.phase == before.phase && after.token == before.token &&
            (after.slot == before.slot ||
             (after.slot.Closed? && before.slot.Open? && c in s.pending.Values &&
              StepTask(s, e).value.pending == map[]) ||
             (s.reader.Delivering? && s.reader.call == c && before.phase.IsListening() &&
              StepTask(s, e).value.reader.Reading? &&
              after.slot == Sent(MapPayload(s.reader.response.payload)))) &&
            (after.inbox == before.inbox ||
             (s.reader.Notifying? && s.reader.call == c && after.inbox == before.inbox + [s.reader.update]))
  {
  }

  lemma TaskKeepsCall(s: State, e: TaskStep, c: CallId)
    requires Inv(s) && StepTask(s, e).Some? && c in s.calls
    ensures c in StepTask(s, e).value.calls && CallOk(StepTask(s, e).value, c)
  {
    var s' := StepTask(s, e).value;
    assert CallOk(s, c);
    TaskOnShared(s, e);
    TaskOnCall(s, e, c);
    var slot, slot' := s.calls[c].slot, s'.calls[c].slot;
    if slot'.Sent? {
      if slot == slot' {
        AnswersAreKept(s, s', s.calls[c].phase.Id().value, slot.outcome);
      } else {
        assert Answered(s, s.reader.response.id, slot'.outcome);
        AnswersAreKept(s, s', s.reader.response.id, slot'.outcome);
      }
    } else if slot'.Closed? && slot.Open? {
      var id :| id in s.pending && s.pending[id] == c;
      assert PendingOk(s, id);
    }
  }

  lemma TaskKeepsPending(s: State, e: TaskStep, id: RequestId)
    requires Inv(s) && StepTask(s, e).Some? && id in StepTask(s, e).value.pending
    ensures PendingOk(StepTask(s, e).value, id)
  {
    TaskOnShared(s, e);
    assert PendingOk(s, id);
    TaskOnCall(s, e, s.pending[id]);
  }

  lemma TaskKeepsSubscriber(s: State, e: TaskStep, t: Token)
    requires Inv(s) && StepTask(s, e).Some? && t in StepTask(s, e).value.subscribers
    ensures SubscriberOk(StepTask(s, e).value, t)
  {
    TaskOnShared(s, e);
    assert SubscriberOk(s, t);
    TaskOnCall(s, e, s.subscribers[t]);
  }

  lemma ReadKeepsReader(s: State, e: TaskStep)
    requires Inv(s) && s.reader.Reading? && StepTask(s, e).Some?
    ensures ReaderOk(StepTask(s, e).value)
  {
    var s' := StepTask(s, e).value;
    match e {
      case ReadResponse(r) =>
        if r.id in s.pending {
          assert PendingOk(s, r.id);
          assert CallOk(s, s.pending[r.id]);
          assert s'.received[|s.received|] == r;
        }
      case ReadProgress(u) =>
        if u.token in s.subscribers { assert SubscriberOk(s, u.token); }
      case _ =>
    }
  }

  lemma BusyReaderMoves(s: State, e: TaskStep)
    requires !s.reader.Reading? && StepTask(s, e).Some?
    ensures var s' := StepTask(s, e).value;
            s' == s.(alive := false) ||
            (s'.alive == s.alive && !s'.reader.Delivering? && !s'.reader.Notifying? &&
             (s'.reader.ClearingPending? || s'.reader.ClearingSubscribers? || s'.reader.Stopped? ==>
                s.reader.ClearingPending? || s.reader.ClearingSubscribers?))
  {
  }

  lemma TaskKeepsReader(s: State, e: TaskStep)
    requires Inv(s) && StepTask(s, e).Some?
    ensures ReaderOk(StepTask(s, e).value)
  {
    if s.reader.Reading? { ReadKeepsReader(s, e); } else { BusyReaderMoves(s, e); }
  }

  lemma TaskKeepsDistinct(s: State, e: TaskStep)
    requires Inv(s) && StepTask(s, e).Some?
    ensures Distinct(StepTask(s, e).value)
  {
    var s' := StepTask(s, e).value;
    TaskOnShared(s, e);
    forall c | c in s.calls
      ensures s'.calls[c].phase == s.calls[c].phase && s'.calls[c].token == s.calls[c].token
    {
      TaskOnCall(s, e, c);
    }
  }

  lemma TaskKeepsInv(s: State, e: TaskStep)
    requires Inv(s) && StepTask(s, e).Some?
    ensures Inv(StepTask(s, e).value)
  {
    TaskOnShared(s, e);
    forall c | c in s.calls ensures CallOk(StepTask(s, e).value, c) {
      TaskKeepsCall(s, e, c);
    }
    forall id | id in StepTask(s, e).value.pending ensures PendingOk(StepTask(s, e).value, id) {
      TaskKeepsPending(s, e, id);
    }
    forall t | t in StepTask(s, e).value.subscribers ensures SubscriberOk(StepTask(s, e).value, t) {
      TaskKeepsSubscriber(s, e, t);
    }
    TaskKeepsReader(s, e);
    TaskKeepsDistinct(s, e);
  }

  lemma StepKeepsInv(s: State, e: Event)
    requires Inv(s) && Step(s, e).Some?
    ensures Inv(Step(s, e).value)
  {
    match e {
      case Begin(c, wantsProgress) => BeginKeepsInv(s, c, wantsProgress);
      case ByCall(c, step) => CallKeepsInv(s, c, step);
      case ByTask(task) => TaskKeepsInv(s, task);
    }
  }

  // ------------------------------------------------------------------
  // Runs
  // ------------------------------------------------------------------

  function Run(s: State, events: seq<Event>): Option<State>
    decreases |events|
  {
    if events == [] then Some(s)
    else
      var r := Step(s, events[0]);
      if r.None? then None else Run(r.value, events[1..])
  }

  lemma {:induction false} RunKeepsInv(s: State, events: seq<Event>)
    requires Inv(s) && Run(s, events).Some?
    ensures Inv(Run(s, events).value)
    decreases |events|
  {
    if events != [] {
      StepKeepsInv(s, events[0]);
      RunKeepsInv(Step(s, events[0]).value, events[1..]);
    }
  }

  lemma {:induction false} RunConcat(s: State, a: seq<Event>, b: seq<Event>)
    ensures Run(s, a + b) == match Run(s, a) case Some(s') => Run(s', b) case None => None
    decreases |a|
  {
    if a == [] {
      assert a + b == b;
    } else {
      assert (a + b)[0] == a[0] && (a + b)[1..] == a[1..] + b;
      var r := Step(s, a[0]);
      if r.Some? { RunConcat(r.value, a[1..], b); }
    }
  }

  ghost predicate Reachable(s: State) {
    exists events :: Run(INITIAL, events) == Some(s)
  }

  lemma ReachableInv(s: State)
    requires Reachable(s)
    ensures Inv(s)
  {
    var events :| Run(INITIAL, events) == Some(s);
    RunKeepsInv(INITIAL, events);
  }

  // ------------------------------------------------------------------
  // What every interleaving guarantees
  // ------------------------------------------------------------------

  /** A call that has returned has left nothing behind in the shared maps, and
      reports a server's result only if a response under its own id carried it. */
  lemma ReturnIsClean(s: State, c: CallId)
    requires Reachable(s) && c in s.calls && s.calls[c].phase.Returned?
    ensures var p := s.calls[c].phase;
            (p.request.Some? ==> p.request.value !in s.pending) &&
            (s.calls[c].token.Some? ==> s.calls[c].token.value !in s.subscribers) &&
            (FromServer(p.outcome) ==> p.request.Some? && Answered(s, p.request.value, p.outcome))
  {
    ReachableInv(s);
    OwnEntries(s, c);
  }

  lemma ReturnedStep(s: State, e: Event, c: CallId)
    requires Step(s, e).Some? && c in s.calls && s.calls[c].phase.Returned?
    ensures c in Step(s, e).value.calls
    ensures Step(s, e).value.calls[c].phase == s.calls[c].phase
  {
    if e.ByTask? { TaskOnCall(s, e.task, c); }
  }

  /** A call returns once: no later step changes its outcome. */
  lemma {:induction false} ReturnIsFinal(s: State, events: seq<Event>, c: CallId)
    requires Run(s, events).Some? && c in s.calls && s.calls[c].phase.Returned?
    ensures c in Run(s, events).value.calls
    ensures Run(s, events).value.calls[c].phase == s.calls[c].phase
    decreases |events|
  {
    if events != [] {
      ReturnedStep(s, events[0], c);
      ReturnIsFinal(Step(s, events[0]).value, events[1..], c);
    }
  }

  lemma SlotStep(s: State, e: Event, c: CallId)
    requires Inv(s) && Step(s, e).Some? && c in s.calls && s.calls[c].slot.Sent?
    ensures c in Step(s, e).value.calls
    ensures Step(s, e).value.calls[c].slot == s.calls[c].slot
  {
    if e.ByTask? { TaskOnCall(s, e.task, c); }
  }

  /** A request is completed at most once: what its channel carries is never
      replaced, and no later response finds it in the pending map. */
  lemma {:induction false} CompletedOnce(s: State, events: seq<Event>, c: CallId)
    requires Inv(s) && Run(s, events).Some? && c in s.calls && s.calls[c].slot.Sent?
    ensures c in Run(s, events).value.calls
    ensures Run(s, events).value.calls[c].slot == s.calls[c].slot
    ensures var id := Run(s, events).value.calls[c].phase.Id();
            id.Some? && id.value !in Run(s, events).value.pending
    decreases |events|
  {
    if events == [] {
      assert CallOk(s, c);
    } else {
      SlotStep(s, events[0], c);
      StepKeepsInv(s, events[0]);
      CompletedOnce(Step(s, events[0]).value, events[1..], c);
    }
  }

  /** A response nobody waits for, because it is unsolicited, a duplicate or late,
      changes nothing but the record of what was received. */
  lemma UnexpectedResponseIsIgnored(s: State, r: Response)
    requires s.reader.Reading? && r.id !in s.pending
    ensures Step(s, ByTask(ReadResponse(r))) == Some(s.(received := s.received + [r]))
  {
  }

  /** Once a call has its answer, every further response under its id is ignored,
      at any time. */
  lemma DuplicateResponsesAreIgnored(s: State, events: seq<Event>, c: CallId, r: Response)
    requires Inv(s) && Run(s, events).Some? && c in s.calls && s.calls[c].slot.Sent?
    requires s.calls[c].phase.Id() == Some(r.id) && Run(s, events).value.reader.Reading?
    ensures var s' := Run(s, events).value;
            Step(s', ByTask(ReadResponse(r))) == Some(s'.(received := s'.received + [r]))
  {
    CompletedOnce(s, events, c);
    IdIsKept(s, events, c);
    UnexpectedResponseIsIgnored(Run(s, events).value, r);
  }

  lemma IdStep(s: State, e: Event, c: CallId)
    requires Step(s, e).Some? && c in s.calls && s.calls[c].phase.Id().Some?
    ensures c in Step(s, e).value.calls && Step(s, e).value.calls[c].phase.Id() == s.calls[c].phase.Id()
  {
    match e {
      case Begin(_, _) =>
      case ByCall(d, step) => StepCallMoves(s, d, step);
      case ByTask(task) => TaskOnCall(s, task, c);
    }
  }

  lemma {:induction false} IdIsKept(s: State, events: seq<Event>, c: CallId)
    requires Run(s, events).Some? && c in s.calls && s.calls[c].phase.Id().Some?
    ensures c in Run(s, events).value.calls
    ensures Run(s, events).value.calls[c].phase.Id() == s.calls[c].phase.Id()
    decreases |events|
  {
    if events != [] {
      IdStep(s, events[0], c);
      IdIsKept(Step(s, events[0]).value, events[1..], c);
    }
  }

  /** Reading a response and delivering it changes no call with another id. */
  lemma ResponseTouchesOnlyItsCall(s: State, r: Response, d: CallId)
    requires Inv(s) && s.reader.Reading? && r.id in s.pending
    requires d in s.calls && s.calls[d].phase.Id() != Some(r.id)
    ensures Step(s, ByTask(ReadResponse(r))).Some?
    ensures var s1 := Step(s, ByTask(ReadResponse(r))).value;
            Step(s1, ByTask(Deliver)).Some? &&
            var s2 := Step(s1, ByTask(Deliver)).value;
            d in s2.calls && s2.calls[d] == s.calls[d] &&
            s2.pending == s.pending - {r.id} && s2.subscribers == s.subscribers
  {
    assert PendingOk(s, r.id);
  }

  /** Outcome o has been read for call c under the id, and is delivered to it unless
      the call gives up: the reader holds it, the channel holds it, or the call does. */
  predicate OnItsWay(s: State, c: CallId, id: RequestId, o: Outcome) {
    c in s.calls &&
    var call := s.calls[c];
    call.phase == Resolved(id, o) || call.phase == Unsubscribed(id, o) || call.phase == Returned(Some(id), o) ||
    (call.phase.AwaitsReply() && call.phase.id == id &&
     (call.slot == Sent(o) ||
      (call.slot.Open? && s.reader.Delivering? && s.reader.call == c && MapPayload(s.reader.response.payload) == o)))
  }

  /** The call has given up, without the server having decided its outcome. */
  predicate GaveUp(s: State, c: CallId) {
    c in s.calls &&
    var p := s.calls[c].phase;
    p.WriteFailed? || p.PendingDropped? ||
    ((p.Resolved? || p.Unsubscribed? || p.Returned?) && !FromServer(p.outcome))
  }

  /** The two ways a call gives up. */
  predicate GivesUp(e: Event, c: CallId) {
    e == ByCall(c, TimeOut) || e == ByCall(c, Write(false))
  }

  lemma ReadPutsAnswerOnItsWay(s: State, r: Response, c: CallId)
    requires Inv(s) && s.reader.Reading? && r.id in s.pending
    requires c in s.calls && s.calls[c].phase.AwaitsReply() && s.calls[c].phase.id == r.id
    ensures Step(s, ByTask(ReadResponse(r))).Some?
    ensures OnItsWay(Step(s, ByTask(ReadResponse(r))).value, c, r.id, MapPayload(r.payload))
  {
    OwnEntries(s, c);
    assert PendingOk(s, r.id);
  }

  lemma OutcomeWhenReturned(s: State, c: CallId, id: RequestId, o: Outcome, gaveUp: bool)
    requires if gaveUp then GaveUp(s, c) else OnItsWay(s, c, id, o)
    requires FromServer(o)
    ensures c in s.calls
    ensures s.calls[c].phase.Returned? ==> (s.calls[c].phase == Returned(Some(id), o) <==> !gaveUp)
  {
  }

  lemma OnItsWayStep(s: State, e: Event, c: CallId, id: RequestId, o: Outcome)
    requires Inv(s) && Step(s, e).Some? && OnItsWay(s, c, id, o) && FromServer(o)
    ensures if GivesUp(e, c) then GaveUp(Step(s, e).value, c) else OnItsWay(Step(s, e).value, c, id, o)
  {
    match e {
      case Begin(_, _) =>
      case ByCall(d, step) =>
        if d == c { OwnStepWithAnswer(s, step, c, id, o); } else { StepCallMoves(s, d, step); }
      case ByTask(task) => TaskKeepsAnswer(s, task, c, id, o);
    }
  }

  lemma OwnStepWithAnswer(s: State, e: CallStep, c: CallId, id: RequestId, o: Outcome)
    requires StepCall(s, c, e).Some? && OnItsWay(s, c, id, o)
    ensures var s' := StepCall(s, c, e).value;
            if e.TimeOut? || e == Write(false) then GaveUp(s', c) else OnItsWay(s', c, id, o)
  {
  }

  lemma TaskKeepsAnswer(s: State, e: TaskStep, c: CallId, id: RequestId, o: Outcome)
    requires Inv(s) && StepTask(s, e).Some? && OnItsWay(s, c, id, o)
    ensures OnItsWay(StepTask(s, e).value, c, id, o)
  {
    TaskOnCall(s, e, c);
    if s.calls[c].slot.Open? && s.reader.Delivering? {
      DeliveringStep(s, e);
    }
  }

  lemma DeliveringStep(s: State, e: TaskStep)
    requires s.reader.Delivering? && StepTask(s, e).Some?
    ensures StepTask(s, e).value == s.(alive := false) ||
            StepTask(s, e).value ==
              s.(reader := Reading,
                 calls := Delivered(s.calls, s.reader.call, MapPayload(s.reader.response.payload)))
  {
  }

  lemma GaveUpStep(s: State, e: Event, c: CallId)
    requires Step(s, e).Some? && GaveUp(s, c)
    ensures GaveUp(Step(s, e).value, c)
  {
    if e.ByTask? { TaskOnCall(s, e.task, c); }
  }

  lemma {:induction false} GaveUpStays(s: State, events: seq<Event>, c: CallId)
    requires Run(s, events).Some? && GaveUp(s, c)
    ensures GaveUp(Run(s, events).value, c)
    decreases |events|
  {
    if events != [] {
      GaveUpStep(s, events[0], c);
      GaveUpStays(Step(s, events[0]).value, events[1..], c);
    }
  }

  lemma {:induction false} AnswerStaysOnItsWay(s: State, events: seq<Event>, c: CallId, id: RequestId, o: Outcome)
    requires Inv(s) && Run(s, events).Some? && OnItsWay(s, c, id, o) && FromServer(o)
    ensures var s' := Run(s, events).value;
            if exists k :: 0 <= k < |events| && GivesUp(events[k], c) then GaveUp(s', c) else OnItsWay(s', c, id, o)
    decreases |events|
  {
    if events != [] {
      var next := Step(s, events[0]).value;
      OnItsWayStep(s, events[0], c, id, o);
      if GivesUp(events[0], c) {
        GaveUpStays(next, events[1..], c);
      } else {
        StepKeepsInv(s, events[0]);
        AnswerStaysOnItsWay(next, events[1..], c, id, o);
        assert forall k :: 0 < k < |events| ==> events[k] == events[1..][k - 1];
        if k :| 0 <= k < |events| && GivesUp(events[k], c) { assert GivesUp(events[1..][k - 1], c); }
      }
    }
  }

  /** A response that finds its call pending and awaiting a reply is what that call
      returns, in every interleaving that follows, if and only if the call neither
      times out nor fails to write. */
  lemma AnswerIsReturnedIff(s: State, r: Response, c: CallId, events: seq<Event>)
    requires Inv(s) && s.reader.Reading? && r.id in s.pending
    requires c in s.calls && s.calls[c].phase.AwaitsReply() && s.calls[c].phase.id == r.id
    requires Run(s, [ByTask(ReadResponse(r))] + events).Some?
    ensures var s' := Run(s, [ByTask(ReadResponse(r))] + events).value;
            c in s'.calls &&
            (s'.calls[c].phase.Returned? ==>
               (s'.calls[c].phase == Returned(Some(r.id), MapPayload(r.payload)) <==>
                forall k :: 0 <= k < |events| ==> !GivesUp(events[k], c)))
  {
    var read := ByTask(ReadResponse(r));
    var s1, answer := Step(s, read).value, MapPayload(r.payload);
    ReadPutsAnswerOnItsWay(s, r, c);
    StepKeepsInv(s, read);
    assert ([read] + events)[1..] == events;
    AnswerStaysOnItsWay(s1, events, c, r.id, answer);
    OutcomeWhenReturned(Run(s1, events).value, c, r.id, answer,
                        exists k :: 0 <= k < |events| && GivesUp(events[k], c));
  }

  /** A call whose response is read can return it, whatever the other calls do not do. */
  lemma AnswerCanBeReturned(s: State, r: Response, c: CallId)
    requires Inv(s) && s.reader.Reading? && c in s.calls && s.calls[c].phase == Waiting(r.id)
    requires r.id in s.pending
    ensures var answered := [ByTask(ReadResponse(r)), ByTask(Deliver)];
            var finished := [ByCall(c, ReceiveReply), ByCall(c, Unsubscribe), ByCall(c, Finish)];
            var run := Run(s, answered + finished);
            run.Some? && c in run.value.calls &&
            run.value.calls[c].phase == Returned(Some(r.id), MapPayload(r.payload))
  {
    OwnEntries(s, c);
    var s1 := Step(s, ByTask(ReadResponse(r))).value;
    var s2 := Step(s1, ByTask(Deliver)).value;
    var answered := [ByTask(ReadResponse(r)), ByTask(Deliver)];
    assert Run(s, answered) == Some(s2) by {
      assert answered[1..] == [ByTask(Deliver)] && answered[1..][1..] == [];
      assert Run(s1, answered[1..]) == Run(s2, []);
    }
    var finished := [ByCall(c, ReceiveReply), ByCall(c, Unsubscribe), ByCall(c, Finish)];
    FinishAnswered(s2, c, r.id, MapPayload(r.payload));
    RunConcat(s, answered, finished);
  }

  lemma FinishAnswered(s: State, c: CallId, id: RequestId, o: Outcome)
    requires c in s.calls && s.calls[c].phase == Waiting(id) && s.calls[c].slot == Sent(o)
    ensures var run := Run(s, [ByCall(c, ReceiveReply), ByCall(c, Unsubscribe), ByCall(c, Finish)]);
            run.Some? && c in run.value.calls && run.value.calls[c].phase == Returned(Some(id), o)
  {
    var events := [ByCall(c, ReceiveReply), ByCall(c, Unsubscribe), ByCall(c, Finish)];
    var s1 := Step(s, events[0]).value;
    var s2 := Step(s1, events[1]).value;
    var s3 := Step(s2, events[2]).value;
    assert events[1..][1..] == events[2..] && events[2..][1..] == [];
    assert Run(s3, []) == Some(s3);
    assert Run(s2, events[2..]) == Some(s3);
    assert Run(s1, events[1..]) == Some(s3);
  }

  /** After the reader has stopped no request is ever answered any more: a call
      that had no answer by then ends by a failed write or a timeout. */
  lemma {:induction false} StoppedReaderAnswersNobody(s: State, events: seq<Event>, c: CallId)
    requires Inv(s) && Run(s, events).Some? && s.reader.Stopped?
    requires c in s.calls ==> !s.calls[c].slot.Sent?
    ensures Run(s, events).value.reader.Stopped?
    ensures var s' := Run(s, events).value;
            c in s'.calls && s'.calls[c].phase.Returned? ==> !FromServer(s'.calls[c].phase.outcome)
    decreases |events|
  {
    if events == [] {
      assert c in s.calls ==> CallOk(s, c);
    } else {
      var e := events[0];
      StepKeepsInv(s, e);
      if e.ByTask? { assert Step(s, e) == Some(s.(alive := false)); }
      StoppedReaderAnswersNobody(Step(s, e).value, events[1..], c);
    }
  }

  lemma RunCons(s: State, e: Event, rest: seq<Event>, final: State)
    requires Step(s, e).Some? && Run(Step(s, e).value, rest) == Some(final)
    ensures Run(s, [e] + rest) == Some(final)
  {
    assert ([e] + rest)[1..] == rest;
  }

  /** With one call, which wants no progress, in the given phase. */
  function OneCall(phase: Phase, nextId: RequestId, alive: bool, reader: Reader,
                   pending: map<RequestId, CallId>): State {
    State(map[0 := Call(None, phase, Open, [])], pending, map[], nextId, 1, alive, reader, [])
  }

  lemma OneCallEntersQueue()
    ensures Run(INITIAL, [Begin(0, false)] + ([ByCall(0, CheckAlive)] + [ByCall(0, TakeId)]))
            == Some(OneCall(Numbered(1), 2, true, Reading, map[]))
  {
    var s1 := OneCall(Begun, 1, true, Reading, map[]);
    var s2 := OneCall(Checked, 1, true, Reading, map[]);
    var s3 := OneCall(Numbered(1), 2, true, Reading, map[]);
    assert s2.calls[0 := s3.calls[0]] == s3.calls;
    assert StepCall(s2, 0, TakeId) == Some(s3);
    assert [ByCall(0, TakeId)][1..] == [];
    assert Run(s3, []) == Some(s3);
    assert Run(s2, [ByCall(0, TakeId)]) == Some(s3);
    assert s1.calls[0 := s2.calls[0]] == s2.calls;
    assert StepCall(s1, 0, CheckAlive) == Some(s2);
    RunCons(s1, ByCall(0, CheckAlive), [ByCall(0, TakeId)], s3);
    assert StepBegin(INITIAL, 0, false) == Some(s1);
    RunCons(INITIAL, Begin(0, false), [ByCall(0, CheckAlive)] + [ByCall(0, TakeId)], s3);
  }

  lemma InputEndsThenCallRegisters()
    ensures Run(OneCall(Numbered(1), 2, true, Reading, map[]),
                [ByTask(EndOfInput)] + ([ByTask(ClearPending)] + ([ByTask(ClearSubscribers)] + [ByCall(0, Register)])))
            == Some(OneCall(Registered(1), 2, false, Stopped, map[1 := 0]))
  {
    var s3 := OneCall(Numbered(1), 2, true, Reading, map[]);
    var s4 := OneCall(Numbered(1), 2, false, ClearingPending, map[]);
    var s5 := OneCall(Numbered(1), 2, false, ClearingSubscribers, map[]);
    var s6 := OneCall(Numbered(1), 2, false, Stopped, map[]);
    var s7 := OneCall(Registered(1), 2, false, Stopped, map[1 := 0]);
    assert s6.calls[0 := s7.calls[0]] == s7.calls && s6.pending[1 := 0] == s7.pending;
    assert StepCall(s6, 0, Register) == Some(s7);
    assert [ByCall(0, Register)][1..] == [];
    assert Run(s7, []) == Some(s7);
    assert Run(s6, [ByCall(0, Register)]) == Some(s7);
    assert StepTask(s5, ClearSubscribers) == Some(s6);
    RunCons(s5, ByTask(ClearSubscribers), [ByCall(0, Register)], s7);
    assert s4.pending.Values == {} && CloseSlots(s4.calls, {}) == s4.calls;
    assert StepTask(s4, ClearPending) == Some(s5);
    RunCons(s4, ByTask(ClearPending), [ByTask(ClearSubscribers)] + [ByCall(0, Register)], s7);
    assert StepTask(s3, EndOfInput) == Some(s4);
    RunCons(s3, ByTask(EndOfInput), [ByTask(ClearPending)] + ([ByTask(ClearSubscribers)] + [ByCall(0, Register)]), s7);
  }

  /** The end of input empties the pending map, but not for good: a call that had
      passed the liveness check before still registers afterwards. */
  lemma RegistrationAfterClearing() returns (s: State)
    ensures Reachable(s) && s.reader.Stopped? && s.pending != map[]
  {
    s := OneCall(Registered(1), 2, false, Stopped, map[1 := 0]);
    OneCallEntersQueue();
    InputEndsThenCallRegisters();
    var before := [Begin(0, false)] + ([ByCall(0, CheckAlive)] + [ByCall(0, TakeId)]);
    var after := [ByTask(EndOfInput)] + ([ByTask(ClearPending)] + ([ByTask(ClearSubscribers)] + [ByCall(0, Register)]));
    RunConcat(INITIAL, before, after);
    assert Run(INITIAL, before + after) == Some(s);
    assert 1 in s.pending;
  }

  /** From here on the pending map stays empty, whatever happens. */
  ghost predicate StaysClear(s: State) {
    forall events :: Run(s, events).Some? ==> Run(s, events).value.pending == map[]
  }

  /** The calls that have passed the liveness check and have not registered yet. */
  predicate HasLateCall(s: State) {
    exists c :: c in s.calls && (s.calls[c].phase.Checked? || s.calls[c].phase.Numbered?)
  }

  /** The reader has emptied the pending map for the last time. */
  predicate HasCleared(s: State) {
    s.reader.ClearingSubscribers? || s.reader.Stopped?
  }

  lemma NoLateCallStep(s: State, e: Event)
    requires HasCleared(s) && !s.alive && s.pending == map[] && !HasLateCall(s) && Step(s, e).Some?
    ensures var s' := Step(s, e).value;
            HasCleared(s') && !s'.alive && s'.pending == map[] && !HasLateCall(s')
  {
    var s' := Step(s, e).value;
    if e.ByCall? {
      assert !s.calls[e.call].phase.Checked? && !s.calls[e.call].phase.Numbered?;
      assert forall d :: d in s'.calls && d != e.call ==> s'.calls[d] == s.calls[d];
    } else if e.Begin? {
      assert forall d :: d in s'.calls && d != e.call ==> s'.calls[d] == s.calls[d];
    }
  }

  lemma {:induction false} NoLateCallStaysClear(s: State, events: seq<Event>)
    requires HasCleared(s) && !s.alive && s.pending == map[] && !HasLateCall(s) && Run(s, events).Some?
    ensures Run(s, events).value.pending == map[]
    decreases |events|
  {
    if events != [] {
      NoLateCallStep(s, events[0]);
      NoLateCallStaysClear(Step(s, events[0]).value, events[1..]);
    }
  }

  lemma NumberedCallRegisters(s: State, c: CallId)
    requires c in s.calls && s.calls[c].phase.Numbered?
    ensures Run(s, [ByCall(c, Register)]).Some? && Run(s, [ByCall(c, Register)]).value.pending != map[]
  {
    var s' := Step(s, ByCall(c, Register)).value;
    assert s.calls[c].phase.id in s'.pending;
    assert [ByCall(c, Register)][1..] == [];
    assert Run(s', []) == Some(s');
  }

  lemma DeadStaysClearIff(s: State)
    requires HasCleared(s) && !s.alive && s.pending == map[]
    ensures StaysClear(s) <==> !HasLateCall(s)
  {
    if !HasLateCall(s) {
      forall events | Run(s, events).Some? ensures Run(s, events).value.pending == map[] {
        NoLateCallStaysClear(s, events);
      }
    } else {
      var c :| c in s.calls && (s.calls[c].phase.Checked? || s.calls[c].phase.Numbered?);
      if s.calls[c].phase.Numbered? {
        NumberedCallRegisters(s, c);
      } else {
        var s' := Step(s, ByCall(c, TakeId)).value;
        NumberedCallRegisters(s', c);
        RunCons(s, ByCall(c, TakeId), [ByCall(c, Register)], Run(s', [ByCall(c, Register)]).value);
        assert Run(s, [ByCall(c, TakeId)] + [ByCall(c, Register)]).Some?;
      }
    }
  }

  /** A reader that is done has found the transport dead. */
  lemma ClearedIsDead(s: State)
    requires Reachable(s) && HasCleared(s)
    ensures !s.alive
  {
    ReachableInv(s);
  }

  /** In every reachable state in which the reader is done with the pending map and the
      map is empty, it stays empty if and only if no call is between its liveness check
      and its registration. */
  lemma ClearedStaysClearIff(s: State)
    requires Reachable(s) && HasCleared(s) && s.pending == map[]
    ensures StaysClear(s) <==> !HasLateCall(s)
  {
    ClearedIsDead(s);
    DeadStaysClearIff(s);
  }

  /** A step that a call can always take itself, as far as no answer comes. */
  function OwnStep(p: Phase): CallStep
    requires !p.Returned?
  {
    match p
    case Begun => CheckAlive
    case Checked => TakeId
    case Numbered(_) => Register
    case Registered(_) => Subscribe
    case Subscribed(_) => Write(true)
    case Waiting(_) => TimeOut
    case WriteFailed(_) => DropPending
    case PendingDropped(_) => DropSubscription
    case Resolved(_, _) => Unsubscribe
    case Unsubscribed(_, _) => Finish
  }

  /** How many such steps are left at most. */
  function Remaining(p: Phase): nat {
    match p
    case Begun => 8
    case Checked => 7
    case Numbered(_) => 6
    case Registered(_) => 5
    case Subscribed(_) => 4
    case Waiting(_) => 3
    case WriteFailed(_) => 3
    case PendingDropped(_) => 2
    case Resolved(_, _) => 2
    case Unsubscribed(_, _) => 1
    case Returned(_, _) => 0
  }

  lemma OwnStepAdvances(s: State, c: CallId)
    requires c in s.calls && !s.calls[c].phase.Returned?
    ensures var next := StepCall(s, c, OwnStep(s.calls[c].phase));
            next.Some? && c in next.value.calls &&
            Remaining(next.value.calls[c].phase) < Remaining(s.calls[c].phase)
  {
  }

  /** No call waits for another, or for the server, for good: as long as the write
      channel has room it can return by its own steps alone, from any state. */
  lemma {:induction false} EveryCallCanReturn(s: State, c: CallId) returns (events: seq<Event>)
    requires c in s.calls
    ensures |events| <= Remaining(s.calls[c].phase)
    ensures forall k :: 0 <= k < |events| ==> events[k].ByCall? && events[k].call == c
    ensures Run(s, events).Some? && c in Run(s, events).value.calls
    ensures Run(s, events).value.calls[c].phase.Returned?
    decreases Remaining(s.calls[c].phase)
  {
    if s.calls[c].phase.Returned? {
      events := [];
    } else {
      var first := ByCall(c, OwnStep(s.calls[c].phase));
      OwnStepAdvances(s, c);
      var next := Step(s, first).value;
      var rest := EveryCallCanReturn(next, c);
      RunCons(s, first, rest, Run(next, rest).value);
      events := [first] + rest;
    }
  }

  /** Once every call has returned, the shared maps are empty. */
  lemma NothingLeaks(s: State)
    requires Reachable(s)
    requires forall c :: c in s.calls ==> s.calls[c].phase.Returned?
    ensures s.pending == map[] && s.subscribers == map[]
  {
    ReachableInv(s);
    EntriesBelongToActiveCalls(s);
  }

  lemma EntriesBelongToActiveCalls(s: State)
    requires Inv(s)
    ensures forall id :: id in s.pending ==>
              s.pending[id] in s.calls && !s.calls[s.pending[id]].phase.Returned?
    ensures forall t :: t in s.subscribers ==>
              s.subscribers[t] in s.calls && !s.calls[s.subscribers[t]].phase.Returned?
  {
    forall id | id in s.pending
      ensures s.pending[id] in s.calls && !s.calls[s.pending[id]].phase.Returned?
    {
      assert PendingOk(s, id);
    }
    forall t | t in s.subscribers
      ensures s.subscribers[t] in s.calls && !s.calls[s.subscribers[t]].phase.Returned?
    {
      assert SubscriberOk(s, t);
    }
  }

  /** Progress reaches only the call whose token it carries. */
  lemma ProgressIsOwn(s: State, c: CallId, k: nat)
    requires Reachable(s) && c in s.calls && k < |s.calls[c].inbox|
    ensures s.calls[c].token == Some(s.calls[c].inbox[k].token)
  {
    ReachableInv(s);
    assert CallOk(s, c);
  }

  /** No two requests ever share an id, nor two calls a progress token. */
  lemma IdsAreUnique(s: State, c: CallId, d: CallId)
    requires Reachable(s) && c in s.calls && d in s.calls && c != d
    ensures s.calls[c].phase.Id().Some? ==> s.calls[c].phase.Id() != s.calls[d].phase.Id()
    ensures s.calls[c].token.Some? ==> s.calls[c].token != s.calls[d].token
  {
    ReachableInv(s);
  }

  // ------------------------------------------------------------------
  // The HTTP transport: one body, one request
  // ------------------------------------------------------------------

  datatype Message =
    | ResponseMessage(id: Option<RequestId>, payload: Payload)
    | ProgressMessage(update: Update)
    | OtherMessage

  datatype HttpError = Malformed | MissingResponse

  /** The reply and the progress updates passed on. */
  datatype HttpResult = HttpResult(reply: Result<Outcome, HttpError>, updates: seq<Update>)

  /** The messages before the first that does not parse. */
  function ParsedPrefix(body: seq<Option<Message>>): seq<Message> {
    if body == [] || body[0].None? then [] else [body[0].value] + ParsedPrefix(body[1..])
  }

  function UpdatesFor(messages: seq<Message>, token: Option<Token>): seq<Update> {
    if messages == [] then []
    else
      var m := messages[0];
      (if m.ProgressMessage? && token == Some(m.update.token) then [m.update] else [])
      + UpdatesFor(messages[1..], token)
  }

  predicate Matches(m: Message, id: RequestId) {
    m.ResponseMessage? && m.id == Some(id)
  }

  /** The reply among the first n messages: the last response under the id. */
  ghost predicate ReplyAmong(body: seq<Option<Message>>, id: RequestId, n: nat, reply: Option<Outcome>)
    requires n <= |body|
  {
    if reply.None? then forall j :: 0 <= j < n ==> !MatchesAt(body, j, id)
    else
      exists k: nat :: k < n && MatchesAt(body, k, id) &&
                       reply.value == MapPayload(body[k].value.payload) &&
                       forall j :: k < j < n ==> !MatchesAt(body, j, id)
  }

  predicate MatchesAt(body: seq<Option<Message>>, k: nat, id: RequestId)
    requires k < |body|
  {
    body[k].Some? && Matches(body[k].value, id)
  }

  /** Of several responses under the request's id the last one counts. */
  method DecodeHttpResponse(body: seq<Option<Message>>, id: RequestId, token: Option<Token>) returns (r: HttpResult)
    ensures r.updates == UpdatesFor(ParsedPrefix(body), token)
    ensures r.reply == Err(Malformed) <==> exists k :: 0 <= k < |body| && body[k].None?
    ensures r.reply == Err(MissingResponse) ==> ReplyAmong(body, id, |body|, None)
    ensures r.reply.Ok? ==> ReplyAmong(body, id, |body|, Some(r.reply.value))
  {
    var matched: Option<Outcome> := None;
    var updates: seq<Update> := [];
    ghost var all := UpdatesFor(ParsedPrefix(body), token);
    assert body[0..] == body;
    for i := 0 to |body|
      invariant forall k :: 0 <= k < i ==> body[k].Some?
      invariant ReplyAmong(body, id, i, matched)
      invariant all == updates + UpdatesFor(ParsedPrefix(body[i..]), token)
    {
      UpdatesStep(body, i, token, updates);
      if body[i].None? {
        return HttpResult(Err(Malformed), updates);
      }
      ReplyStep(body, id, i, matched);
      match body[i].value {
        case ResponseMessage(other, payload) =>
          if other == Some(id) {
            matched := Some(MapPayload(payload));
          }
        case ProgressMessage(update) =>
          if token == Some(update.token) {
            updates := updates + [update];
          }
        case OtherMessage =>
      }
    }
    assert body[|body|..] == [];
    if matched.None? {
      return HttpResult(Err(MissingResponse), updates);
    }
    return HttpResult(Ok(matched.value), updates);
  }

  lemma ReplyStep(body: seq<Option<Message>>, id: RequestId, n: nat, reply: Option<Outcome>)
    requires n < |body| && ReplyAmong(body, id, n, reply)
    ensures ReplyAmong(body, id, n + 1,
                       if MatchesAt(body, n, id) then Some(MapPayload(body[n].value.payload)) else reply)
  {
  }

  /** What message i adds to the updates passed on so far. */
  lemma UpdatesStep(body: seq<Option<Message>>, i: nat, token: Option<Token>, updates: seq<Update>)
    requires i < |body|
    ensures var rest := UpdatesFor(ParsedPrefix(body[i + 1..]), token);
            updates + UpdatesFor(ParsedPrefix(body[i..]), token) ==
              if body[i].None? then updates
              else if body[i].value.ProgressMessage? && token == Some(body[i].value.update.token)
              then updates + [body[i].value.update] + rest
              else updates + rest
  {
    assert body[i..][1..] == body[i + 1..];
    if body[i].Some? {
      var prefix := ParsedPrefix(body[i + 1..]);
      assert ([body[i].value] + prefix)[1..] == prefix;
    }
  }
}
