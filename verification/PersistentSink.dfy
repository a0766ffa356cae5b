/** Telemetry that survives an inner sink that fails to flush: recorded lines are
    kept until a flush succeeds, spilled to files when one fails, and replayed
    from there. Calls are sequential; whether a flush, a disk write or a file
    operation succeeds is up to the environment. */
module PersistentSink {
  import opened Options
  import opened Sequences

  datatype Line = Event(payload: string) | RunEnd(sessionDurationMs: nat)

  type FileId = nat

  /** Files are numbered in the order of their creation. The inner sink is the log
      of what was recorded there; its first `flushed` entries were recorded before
      a successful flush. */
  datatype Sink = Sink(
    pending: seq<Line>,
    files: map<FileId, seq<Line>>,
    nextFile: FileId,
    inner: seq<Line>,
    flushed: nat)

  datatype IoError = IoError

  /** What happens to a spill file that is being retried. */
  datatype Fate = Unreadable | FlushFails | Removed | RemovalFails

  function RecordLine(s: Sink, line: Line): Sink {
    s.(inner := s.inner + [line], pending := s.pending + [line])
  }

  function Flush(s: Sink, innerOk: bool, diskOk: bool): Sink {
    if innerOk then s.(flushed := |s.inner|, pending := [])
    else if s.pending == [] || !diskOk then s.(pending := [])
    else s.(pending := [], files := s.files[s.nextFile := s.pending], nextFile := s.nextFile + 1)
  }

  /** Replays one file; the number of lines it accounts for, unless it aborts. */
  function RetryFile(s: Sink, file: FileId, fate: Fate): (Sink, Result<nat, IoError>)
    requires file in s.files
  {
    if fate.Unreadable? then (s, Err(IoError))
    else
      var replayed := s.(inner := s.inner + s.files[file]);
      var flushed := replayed.(flushed := |replayed.inner|);
      match fate
      case FlushFails => (replayed, Ok(0))
      case Removed => (flushed.(files := s.files - {file}), Ok(|s.files[file]|))
      case RemovalFails => (flushed, Err(IoError))
  }

  predicate Listed(s: Sink, listing: seq<FileId>) {
    (forall i :: 0 <= i < |listing| ==> listing[i] in s.files) &&
    (forall i, j :: 0 <= i < j < |listing| ==> listing[i] != listing[j])
  }

  /** Replays the listed files in turn, up to the first that aborts. */
  function RetryAll(s: Sink, listing: seq<FileId>, fates: FileId -> Fate): (r: (Sink, Result<nat, IoError>))
    requires Listed(s, listing)
    decreases |listing|
  {
    if listing == [] then (s, Ok(0))
    else
      var (s', first) := RetryFile(s, listing[0], fates(listing[0]));
      if first.Err? then (s', first)
      else
        ListedRest(s, listing, fates(listing[0]));
        var (s'', rest) := RetryAll(s', listing[1..], fates);
        (s'', if rest.Err? then rest else Ok(first.value + rest.value))
  }

  lemma ListedRest(s: Sink, listing: seq<FileId>, fate: Fate)
    requires Listed(s, listing) && listing != []
    ensures Listed(RetryFile(s, listing[0], fate).0, listing[1..])
  {
  }

  class PersistentTelemetry {
    var pending: seq<Line>
    var files: map<FileId, seq<Line>>
    var nextFile: FileId
    var inner: seq<Line>
    var flushed: nat

    function Value(): Sink
      reads this
    {
      Sink(pending, files, nextFile, inner, flushed)
    }

    constructor ()
      ensures Value() == EMPTY
    {
      pending, files, nextFile, inner, flushed := [], map[], 0, [], 0;
    }

    method Record(event: string)
      modifies this
      ensures Value() == RecordLine(old(Value()), Event(event))
    {
      inner := inner + [Event(event)];
      pending := pending + [Event(event)];
    }

    method OnRunEnd(sessionDurationMs: nat)
      modifies this
      ensures Value() == RecordLine(old(Value()), RunEnd(sessionDurationMs))
    {
      inner := inner + [RunEnd(sessionDurationMs)];
      pending := pending + [RunEnd(sessionDurationMs)];
    }

    method FlushAll(innerOk: bool, diskOk: bool) returns (ok: bool)
      modifies this
      ensures ok == innerOk && Value() == Flush(old(Value()), innerOk, diskOk)
    {
      if innerOk {
        flushed := |inner|;
        pending := [];
        return true;
      }
      var drained := pending;
      pending := [];
      if drained != [] {
        PersistToDisk(drained, diskOk);
      }
      return false;
    }

    method PersistToDisk(lines: seq<Line>, diskOk: bool)
      requires lines != []
      modifies this`files, this`nextFile
      ensures files == if diskOk then old(files)[old(nextFile) := lines] else old(files)
      ensures nextFile == if diskOk then old(nextFile) + 1 else old(nextFile)
    {
      if diskOk {
        files := files[nextFile := lines];
        nextFile := nextFile + 1;
      }
    }

    /** `listing` is the directory as read at the start, in any order. */
    method RetryPersisted(listing: seq<FileId>, fates: FileId -> Fate) returns (r: Result<nat, IoError>)
      requires Listed(Value(), listing)
      modifies this
      ensures (Value(), r) == RetryAll(old(Value()), listing, fates)
    {
      var total := 0;
      ghost var goal := RetryAll(Value(), listing, fates);
      assert listing[0..] == listing;
      for i := 0 to |listing|
        invariant Listed(Value(), listing[i..])
        invariant goal == AddTo(total, RetryAll(Value(), listing[i..], fates))
      {
        var file := listing[i];
        ghost var before := Value();
        var one := RetryOne(file, fates(file));
        RetryStep(before, listing[i..], fates, total, Value(), one);
        assert listing[i..][1..] == listing[i + 1..];
        if one.Err? {
          return Err(IoError);
        }
        total := total + one.value;
      }
      assert listing[|listing|..] == [];
      return Ok(total);
    }

    /** Replays one file and flushes; removes it if the flush succeeded. */
    method RetryOne(file: FileId, fate: Fate) returns (r: Result<nat, IoError>)
      requires file in files
      modifies this
      ensures (Value(), r) == RetryFile(old(Value()), file, fate)
    {
      if fate.Unreadable? {
        return Err(IoError);
      }
      var lines := files[file];
      for j := 0 to |lines|
        invariant Value() == old(Value()).(inner := old(inner) + lines[..j])
      {
        inner := inner + [lines[j]];
      }
      assert lines[..|lines|] == lines;
      if fate.FlushFails? {
        return Ok(0);
      }
      flushed := |inner|;
      if fate.RemovalFails? {
        return Err(IoError);
      }
      files := files - {file};
      return Ok(|lines|);
    }
  }

  function AddTo(total: nat, r: (Sink, Result<nat, IoError>)): (Sink, Result<nat, IoError>) {
    (r.0, match r.1 case Ok(n) => Ok(total + n) case Err(e) => Err(e))
  }

  lemma RetryStep(s: Sink, listing: seq<FileId>, fates: FileId -> Fate, total: nat,
                  s': Sink, first: Result<nat, IoError>)
    requires Listed(s, listing) && listing != []
    requires (s', first) == RetryFile(s, listing[0], fates(listing[0]))
    ensures Listed(s', listing[1..])
    ensures AddTo(total, RetryAll(s, listing, fates)) ==
            if first.Err? then (s', Err(IoError))
            else AddTo(total + first.value, RetryAll(s', listing[1..], fates))
  {
    ListedRest(s, listing, fates(listing[0]));
  }

  const EMPTY := Sink([], map[], 0, [], 0)

  // ------------------------------------------------------------------
  // Runs
  // ------------------------------------------------------------------

  datatype Call =
    | RecordCall(line: Line)
    | FlushCall(innerOk: bool, diskOk: bool)
    | RetryCall(listing: seq<FileId>, fates: FileId -> Fate)

  predicate Enabled(s: Sink, c: Call) {
    c.RetryCall? ==> Listed(s, c.listing)
  }

  function Apply(s: Sink, c: Call): Sink
    requires Enabled(s, c)
  {
    match c
    case RecordCall(line) => RecordLine(s, line)
    case FlushCall(innerOk, diskOk) => Flush(s, innerOk, diskOk)
    case RetryCall(listing, fates) => RetryAll(s, listing, fates).0
  }

  /** Lines are kept in memory or on disk. */
  function Kept(s: Sink): multiset<Line> {
    multiset(s.pending) + Spilled(s.files, s.nextFile)
  }

  /** The lines of the files numbered below n. */
  function Spilled(files: map<FileId, seq<Line>>, n: nat): multiset<Line> {
    if n == 0 then multiset{}
    else Spilled(files, n - 1) + if n - 1 in files then multiset(files[n - 1]) else multiset{}
  }

  /** The lines of the files numbered below n that are gone. */
  function Gone(before: map<FileId, seq<Line>>, after: map<FileId, seq<Line>>, n: nat): multiset<Line> {
    if n == 0 then multiset{}
    else
      Gone(before, after, n - 1) +
      if n - 1 in before && n - 1 !in after then multiset(before[n - 1]) else multiset{}
  }

  /** The account of a run: everything ever recorded; what was released by a flush
      that succeeded, from memory or by removing a file; and what was lost because
      a spill could not be written. */
  datatype Account = Account(sink: Sink, recorded: multiset<Line>, settled: multiset<Line>, lost: multiset<Line>)

  const OPENING := Account(EMPTY, multiset{}, multiset{}, multiset{})

  predicate Loses(s: Sink, c: Call) {
    c.FlushCall? && !c.innerOk && !c.diskOk && s.pending != []
  }

  function Post(a: Account, c: Call): Account
    requires Enabled(a.sink, c)
  {
    var s, s' := a.sink, Apply(a.sink, c);
    match c
    case RecordCall(line) => a.(sink := s', recorded := a.recorded + multiset{line})
    case FlushCall(innerOk, diskOk) =>
      if innerOk then a.(sink := s', settled := a.settled + multiset(s.pending))
      else if diskOk then a.(sink := s')
      else a.(sink := s', lost := a.lost + multiset(s.pending))
    case RetryCall(_, _) => a.(sink := s', settled := a.settled + Gone(s.files, s'.files, s.nextFile))
  }

  /** Each recorded line is kept, settled or lost, exactly once; and what is
      settled had reached the inner sink before a flush that succeeded. */
  predicate Balanced(a: Account) {
    a.recorded == Kept(a.sink) + a.settled + a.lost &&
    a.recorded <= multiset(a.sink.inner) &&
    a.sink.flushed <= |a.sink.inner| &&
    a.settled <= multiset(a.sink.inner[..a.sink.flushed]) &&
    forall f :: f in a.sink.files ==> f < a.sink.nextFile
  }

  // ------------------------------------------------------------------
  // What a retry does
  // ------------------------------------------------------------------

  predicate Within(s: seq<Line>, lines: seq<Line>, at: nat, limit: nat) {
    at + |lines| <= limit <= |s| && s[at..at + |lines|] == lines
  }

  /** How a retry changes the sink. */
  ghost predicate RetryEffect(s: Sink, s': Sink) {
    s'.pending == s.pending && s'.nextFile == s.nextFile &&
    s.inner <= s'.inner && s.flushed <= s'.flushed <= |s'.inner| &&
    (forall f :: f in s'.files ==> f in s.files && s'.files[f] == s.files[f]) &&
    forall f :: f in s.files && f !in s'.files ==>
      exists at :: |s.inner| <= at && Within(s'.inner, s.files[f], at, s'.flushed)
  }

  lemma RetryFileEffect(s: Sink, file: FileId, fate: Fate)
    requires file in s.files && s.flushed <= |s.inner|
    ensures RetryEffect(s, RetryFile(s, file, fate).0)
  {
    var s' := RetryFile(s, file, fate).0;
    forall f | f in s.files && f !in s'.files
      ensures exists at :: |s.inner| <= at && Within(s'.inner, s.files[f], at, s'.flushed)
    {
      assert f == file && s'.inner == s.inner + s.files[file];
      assert Within(s'.inner, s.files[f], |s.inner|, s'.flushed);
    }
  }

  lemma EffectsCompose(s: Sink, s': Sink, s'': Sink)
    requires RetryEffect(s, s') && RetryEffect(s', s'')
    ensures RetryEffect(s, s'')
  {
    forall f | f in s.files && f !in s''.files
      ensures exists at :: |s.inner| <= at && Within(s''.inner, s.files[f], at, s''.flushed)
    {
      if f in s'.files {
        var at :| |s'.inner| <= at && Within(s''.inner, s'.files[f], at, s''.flushed);
        assert |s.inner| <= at && Within(s''.inner, s.files[f], at, s''.flushed);
      } else {
        var at :| |s.inner| <= at && Within(s'.inner, s.files[f], at, s'.flushed);
        assert s''.inner[at..at + |s.files[f]|] == s'.inner[at..at + |s.files[f]|];
        assert Within(s''.inner, s.files[f], at, s''.flushed);
      }
    }
  }

  /** A file is removed only after all its lines were replayed, in one stretch,
      and a flush succeeded after that; other files and the pending lines stay. */
  lemma {:induction false} RetryRemovesOnlyReplayed(s: Sink, listing: seq<FileId>, fates: FileId -> Fate)
    requires Listed(s, listing) && s.flushed <= |s.inner|
    ensures RetryEffect(s, RetryAll(s, listing, fates).0)
    decreases |listing|
  {
    if listing != [] {
      var (s', first) := RetryFile(s, listing[0], fates(listing[0]));
      RetryFileEffect(s, listing[0], fates(listing[0]));
      if first.Ok? {
        ListedRest(s, listing, fates(listing[0]));
        RetryRemovesOnlyReplayed(s', listing[1..], fates);
        EffectsCompose(s, s', RetryAll(s', listing[1..], fates).0);
      }
    }
  }

  lemma {:induction false} SpilledSplits(before: map<FileId, seq<Line>>, after: map<FileId, seq<Line>>, n: nat)
    requires forall f :: f in after ==> f in before && after[f] == before[f]
    ensures Spilled(before, n) == Spilled(after, n) + Gone(before, after, n)
  {
    if n > 0 { SpilledSplits(before, after, n - 1); }
  }

  lemma {:induction false} GoneComposes(a: map<FileId, seq<Line>>, b: map<FileId, seq<Line>>,
                                        c: map<FileId, seq<Line>>, n: nat)
    requires forall f :: f in b ==> f in a && b[f] == a[f]
    requires forall f :: f in c ==> f in b && c[f] == b[f]
    ensures Gone(a, c, n) == Gone(a, b, n) + Gone(b, c, n)
  {
    if n > 0 { GoneComposes(a, b, c, n - 1); }
  }

  lemma {:induction false} GoneOne(files: map<FileId, seq<Line>>, file: FileId, n: nat)
    requires file in files
    ensures Gone(files, files - {file}, n) == if file < n then multiset(files[file]) else multiset{}
  {
    if n > 0 { GoneOne(files, file, n - 1); }
  }

  lemma {:induction false} GoneNone(files: map<FileId, seq<Line>>, n: nat)
    ensures Gone(files, files, n) == multiset{}
  {
    if n > 0 { GoneNone(files, n - 1); }
  }

  /** The count returned is the number of lines in the files removed. */
  lemma {:induction false} RetryCountsRemovedLines(s: Sink, listing: seq<FileId>, fates: FileId -> Fate)
    requires Listed(s, listing) && s.flushed <= |s.inner|
    requires forall f :: f in s.files ==> f < s.nextFile
    ensures var (s', r) := RetryAll(s, listing, fates);
            r.Ok? ==> r.value == |Gone(s.files, s'.files, s.nextFile)|
    decreases |listing|
  {
    if listing == [] {
      GoneNone(s.files, s.nextFile);
    } else {
      var file, fate := listing[0], fates(listing[0]);
      var (s', first) := RetryFile(s, file, fate);
      RetryFileEffect(s, file, fate);
      if first.Ok? {
        ListedRest(s, listing, fate);
        RetryFileCounts(s, file, fate);
        RetryCountsRemovedLines(s', listing[1..], fates);
        RetryRemovesOnlyReplayed(s', listing[1..], fates);
        GoneComposes(s.files, s'.files, RetryAll(s', listing[1..], fates).0.files, s.nextFile);
      }
    }
  }

  lemma RetryFileCounts(s: Sink, file: FileId, fate: Fate)
    requires file in s.files && file < s.nextFile
    ensures var (s', first) := RetryFile(s, file, fate);
            first.Ok? ==> first.value == |Gone(s.files, s'.files, s.nextFile)|
  {
    GoneOne(s.files, file, s.nextFile);
    GoneNone(s.files, s.nextFile);
  }

  // ------------------------------------------------------------------
  // The account balances
  // ------------------------------------------------------------------

  lemma PrefixMultiset(a: seq<Line>, b: seq<Line>)
    requires a <= b
    ensures multiset(a) <= multiset(b)
  {
    assert b == a + b[|a|..];
  }

  lemma RecordBalances(a: Account, line: Line)
    requires Balanced(a)
    ensures Balanced(Post(a, RecordCall(line)))
  {
    var a' := Post(a, RecordCall(line));
    assert a'.sink.inner[..a.sink.flushed] == a.sink.inner[..a.sink.flushed];
  }

  lemma {:induction false} SpilledNew(files: map<FileId, seq<Line>>, file: FileId, lines: seq<Line>, n: nat)
    requires n <= file
    ensures Spilled(files[file := lines], n) == Spilled(files, n)
  {
    if n > 0 { SpilledNew(files, file, lines, n - 1); }
  }

  lemma Settle(released: multiset<Line>, kept: multiset<Line>, settled: multiset<Line>, lost: multiset<Line>)
    ensures released + kept + settled + lost == kept + (settled + released) + lost
    ensures settled + released <= kept + (settled + released) + lost
  {
  }

  lemma SettleBelow(released: multiset<Line>, kept: multiset<Line>, settled: multiset<Line>, lost: multiset<Line>,
                    recorded: multiset<Line>, inner: multiset<Line>)
    requires recorded == kept + settled + lost && released <= kept && recorded <= inner
    ensures settled + released <= inner
  {
    assert settled + released <= recorded;
  }

  lemma FlushSucceeds(a: Account, diskOk: bool)
    requires Balanced(a)
    ensures Balanced(Post(a, FlushCall(true, diskOk)))
  {
    var s, spilled := a.sink, Spilled(a.sink.files, a.sink.nextFile);
    Settle(multiset(s.pending), spilled, a.settled, a.lost);
    SettleBelow(multiset(s.pending), Kept(s), a.settled, a.lost, a.recorded, multiset(s.inner));
    assert s.inner[..|s.inner|] == s.inner;
    assert Kept(Flush(s, true, diskOk)) == spilled;
  }

  lemma SpillSucceeds(a: Account)
    requires Balanced(a)
    ensures Balanced(Post(a, FlushCall(false, true)))
  {
    var s, s' := a.sink, Flush(a.sink, false, true);
    SpilledNew(s.files, s.nextFile, s.pending, s.nextFile);
    assert Kept(s') == Kept(s);
  }

  lemma SpillIsLost(a: Account)
    requires Balanced(a)
    ensures Balanced(Post(a, FlushCall(false, false)))
  {
    var s, s' := a.sink, Flush(a.sink, false, false);
    assert Kept(s) == multiset(s.pending) + Kept(s');
  }

  lemma RetryBalances(a: Account, listing: seq<FileId>, fates: FileId -> Fate)
    requires Balanced(a) && Listed(a.sink, listing)
    ensures Balanced(Post(a, RetryCall(listing, fates)))
  {
    var s, s' := a.sink, RetryAll(a.sink, listing, fates).0;
    var gone := Gone(s.files, s'.files, s.nextFile);
    RetryRemovesOnlyReplayed(s, listing, fates);
    SpilledSplits(s.files, s'.files, s.nextFile);
    assert Kept(s) == gone + Kept(s');
    Settle(gone, Kept(s'), a.settled, a.lost);
    PrefixMultiset(s.inner, s'.inner);
    RetrySettles(a, s', gone);
  }

  lemma RetrySettles(a: Account, s': Sink, gone: multiset<Line>)
    requires Balanced(a) && RetryEffect(a.sink, s') && gone <= Kept(a.sink)
    requires gone == Gone(a.sink.files, s'.files, a.sink.nextFile)
    ensures a.settled + gone <= multiset(s'.inner[..s'.flushed])
  {
    var s := a.sink;
    if f :| f in s.files && f !in s'.files {
      var at :| |s.inner| <= at && Within(s'.inner, s.files[f], at, s'.flushed);
      PrefixMultiset(s.inner, s'.inner[..s'.flushed]);
      SettleBelow(gone, Kept(s), a.settled, a.lost, a.recorded, multiset(s'.inner[..s'.flushed]));
    } else {
      PrefixMultiset(s.inner[..s.flushed], s'.inner[..s'.flushed]);
      GoneNothing(s.files, s'.files, s.nextFile);
    }
  }

  lemma {:induction false} GoneNothing(before: map<FileId, seq<Line>>, after: map<FileId, seq<Line>>, n: nat)
    requires forall f :: f in before ==> f in after
    ensures Gone(before, after, n) == multiset{}
  {
    if n > 0 { GoneNothing(before, after, n - 1); }
  }

  lemma CallBalances(a: Account, c: Call)
    requires Balanced(a) && Enabled(a.sink, c)
    ensures Balanced(Post(a, c))
  {
    match c {
      case RecordCall(line) => RecordBalances(a, line);
      case FlushCall(innerOk, diskOk) =>
        if innerOk { FlushSucceeds(a, diskOk); } else if diskOk { SpillSucceeds(a); } else { SpillIsLost(a); }
      case RetryCall(listing, fates) => RetryBalances(a, listing, fates);
    }
  }

  /** The account after a sequence of calls; none if a retry lists what is not there. */
  function Run(a: Account, calls: seq<Call>): Option<Account>
    decreases |calls|
  {
    if calls == [] then Some(a)
    else if !Enabled(a.sink, calls[0]) then None
    else Run(Post(a, calls[0]), calls[1..])
  }

  lemma {:induction false} EveryRunBalances(a: Account, calls: seq<Call>)
    requires Balanced(a) && Run(a, calls).Some?
    ensures Balanced(Run(a, calls).value)
    decreases |calls|
  {
    if calls != [] {
      CallBalances(a, calls[0]);
      EveryRunBalances(Post(a, calls[0]), calls[1..]);
    }
  }

  /** Some flush of a run fails while lines are pending and the disk refuses them. */
  predicate SpillFails(a: Account, calls: seq<Call>)
    decreases |calls|
  {
    calls != [] && Enabled(a.sink, calls[0]) &&
    (Loses(a.sink, calls[0]) || SpillFails(Post(a, calls[0]), calls[1..]))
  }

  lemma {:induction false} LostIff(a: Account, calls: seq<Call>)
    requires Run(a, calls).Some?
    ensures Run(a, calls).value.lost == multiset{} <==> a.lost == multiset{} && !SpillFails(a, calls)
    decreases |calls|
  {
    if calls != [] {
      LostIff(Post(a, calls[0]), calls[1..]);
      if Loses(a.sink, calls[0]) { assert a.sink.pending[0] in multiset(a.sink.pending); }
    }
  }

  /** As long as no spill fails the account holds, copy by copy: what was recorded is
      kept or was settled by a flush that succeeded. */
  lemma KeptOrSettledIff(calls: seq<Call>)
    requires Run(OPENING, calls).Some?
    ensures var a := Run(OPENING, calls).value;
            a.sink.flushed <= |a.sink.inner| &&
            a.settled <= multiset(a.sink.inner[..a.sink.flushed]) &&
            (a.recorded == Kept(a.sink) + a.settled <==> !SpillFails(OPENING, calls))
  {
    var a := Run(OPENING, calls).value;
    EveryRunBalances(OPENING, calls);
    LostIff(OPENING, calls);
    NothingAdded(Kept(a.sink) + a.settled, a.lost);
  }

  lemma NothingAdded(a: multiset<Line>, b: multiset<Line>)
    ensures a == a + b <==> b == multiset{}
  {
    if b != multiset{} {
      var x :| x in b;
      assert (a + b)[x] == a[x] + b[x];
    }
  }

  // ------------------------------------------------------------------
  // At least once
  // ------------------------------------------------------------------

  /** The line is pending, in a spill file, or was recorded by the inner sink before a
      flush that succeeded. */
  predicate Survives(s: Sink, line: Line)
    requires s.flushed <= |s.inner|
  {
    line in Kept(s) || line in s.inner[..s.flushed]
  }

  /** A retry flushes the inner sink if some file is replayed and flushed before any
      file aborts it. */
  predicate RetryFlushes(listing: seq<FileId>, fates: FileId -> Fate)
    decreases |listing|
  {
    listing != [] &&
    match fates(listing[0])
    case Unreadable => false
    case FlushFails => RetryFlushes(listing[1..], fates)
    case Removed => true
    case RemovalFails => true
  }

  /** The call brings about a successful flush of the inner sink. */
  predicate Covers(c: Call) {
    (c.FlushCall? && c.innerOk) || (c.RetryCall? && RetryFlushes(c.listing, c.fates))
  }

  predicate NeverCovered(calls: seq<Call>) {
    forall k :: 0 <= k < |calls| ==> !Covers(calls[k])
  }

  /** The first flush among the calls fails, and so does its spill. */
  predicate SpillLost(calls: seq<Call>)
    decreases |calls|
  {
    calls != [] && if calls[0].FlushCall? then !calls[0].innerOk && !calls[0].diskOk else SpillLost(calls[1..])
  }

  /** Call i records a line, the next flush loses its spill, and no call after the
      recording brings about a successful flush of the inner sink. */
  predicate LeavesBehind(calls: seq<Call>, i: nat) {
    i < |calls| && calls[i].RecordCall? && SpillLost(calls[i + 1..]) && NeverCovered(calls[i + 1..])
  }

  lemma {:induction false} RetryCovers(s: Sink, listing: seq<FileId>, fates: FileId -> Fate)
    requires Listed(s, listing) && s.flushed <= |s.inner|
    ensures var s' := RetryAll(s, listing, fates).0;
            if RetryFlushes(listing, fates) then |s.inner| <= s'.flushed
            else s'.flushed == s.flushed && s'.files == s.files
    decreases |listing|
  {
    if listing != [] {
      var (s', first) := RetryFile(s, listing[0], fates(listing[0]));
      RetryFileEffect(s, listing[0], fates(listing[0]));
      if first.Ok? {
        ListedRest(s, listing, fates(listing[0]));
        RetryCovers(s', listing[1..], fates);
        RetryRemovesOnlyReplayed(s', listing[1..], fates);
      }
    }
  }

  /** A call that covers covers all the inner sink holds; another flushes nothing. */
  lemma CallCovers(a: Account, c: Call)
    requires Balanced(a) && Enabled(a.sink, c)
    ensures var s, s' := a.sink, Apply(a.sink, c);
            s.inner <= s'.inner && s.flushed <= s'.flushed <= |s'.inner| &&
            if Covers(c) then |s.inner| <= s'.flushed else s'.flushed == s.flushed
  {
    if c.RetryCall? {
      RetryCovers(a.sink, c.listing, c.fates);
      RetryRemovesOnlyReplayed(a.sink, c.listing, c.fates);
    }
  }

  lemma PrefixHolds(a: seq<Line>, b: seq<Line>, m: nat, n: nat, line: Line)
    requires a <= b && m <= |a| && m <= n <= |b| && line in a[..m]
    ensures line in b[..n]
  {
    var k :| 0 <= k < m && a[k] == line;
    assert b[..n][k] == line;
  }

  lemma {:induction false} SpilledHas(files: map<FileId, seq<Line>>, n: nat, line: Line)
    ensures line in Spilled(files, n) <==> exists f: FileId :: f < n && f in files && line in files[f]
  {
    if n > 0 {
      SpilledHas(files, n - 1, line);
      if n - 1 in files && line in files[n - 1] {
        assert line in multiset(files[n - 1]);
      }
    }
  }

  /** Covered or on disk: nothing can happen to the line any more. */
  predicate IsSafe(s: Sink, line: Line)
    requires s.flushed <= |s.inner|
  {
    line in s.inner[..s.flushed] || line in Spilled(s.files, s.nextFile)
  }

  /** What the disk holds after a call: the same files, or a new one, or those that a
      retry has not removed. */
  lemma FilesAfter(a: Account, c: Call, f: FileId)
    requires Balanced(a) && Enabled(a.sink, c) && f in a.sink.files
    ensures var s, s' := a.sink, Apply(a.sink, c);
            f < s.nextFile <= s'.nextFile &&
            (f in s'.files ==> s'.files[f] == s.files[f]) &&
            (f !in s'.files ==>
               exists at :: |s.inner| <= at && s'.flushed <= |s'.inner| && Within(s'.inner, s.files[f], at, s'.flushed))
  {
    if c.RetryCall? { RetryRemovesOnlyReplayed(a.sink, c.listing, c.fates); }
  }

  lemma WithinHolds(s: seq<Line>, lines: seq<Line>, at: nat, limit: nat, line: Line)
    requires Within(s, lines, at, limit) && line in lines
    ensures line in s[..limit]
  {
    var k :| 0 <= k < |lines| && lines[k] == line;
    assert s[at..at + |lines|][k] == s[..limit][at + k];
  }

  lemma OnDiskStep(a: Account, c: Call, line: Line)
    requires Balanced(a) && Enabled(a.sink, c) && line in Spilled(a.sink.files, a.sink.nextFile)
    ensures Apply(a.sink, c).flushed <= |Apply(a.sink, c).inner|
    ensures IsSafe(Apply(a.sink, c), line)
  {
    var s, s' := a.sink, Apply(a.sink, c);
    CallCovers(a, c);
    SpilledHas(s.files, s.nextFile, line);
    SpilledHas(s'.files, s'.nextFile, line);
    var f: FileId :| f < s.nextFile && f in s.files && line in s.files[f];
    FilesAfter(a, c, f);
    if f !in s'.files {
      var at :| |s.inner| <= at && Within(s'.inner, s.files[f], at, s'.flushed);
      WithinHolds(s'.inner, s.files[f], at, s'.flushed, line);
    }
  }

  lemma SafeStep(a: Account, c: Call, line: Line)
    requires Balanced(a) && Enabled(a.sink, c) && IsSafe(a.sink, line)
    ensures Apply(a.sink, c).flushed <= |Apply(a.sink, c).inner|
    ensures IsSafe(Apply(a.sink, c), line)
  {
    CallCovers(a, c);
    if line in Spilled(a.sink.files, a.sink.nextFile) {
      OnDiskStep(a, c, line);
    } else {
      var s, s' := a.sink, Apply(a.sink, c);
      PrefixHolds(s.inner, s'.inner, s.flushed, s'.flushed, line);
    }
  }

  lemma {:induction false} SafeStays(a: Account, calls: seq<Call>, line: Line)
    requires Balanced(a) && Run(a, calls).Some? && IsSafe(a.sink, line)
    ensures Balanced(Run(a, calls).value) && Survives(Run(a, calls).value.sink, line)
    decreases |calls|
  {
    if calls != [] {
      SafeStep(a, calls[0], line);
      CallBalances(a, calls[0]);
      SafeStays(Post(a, calls[0]), calls[1..], line);
    }
  }

  lemma StepKeepsRecorded(a: Account, c: Call, line: Line)
    requires Enabled(a.sink, c) && line in a.recorded
    ensures line in Post(a, c).recorded
  {
  }

  lemma CoveredIsSafe(a: Account, c: Call, line: Line)
    requires Balanced(a) && Enabled(a.sink, c) && Covers(c) && line in a.recorded
    ensures Balanced(Post(a, c)) && IsSafe(Post(a, c).sink, line)
  {
    CallBalances(a, c);
    CallCovers(a, c);
    RecordedIsHeld(a, line);
    PrefixHolds(a.sink.inner, Apply(a.sink, c).inner, |a.sink.inner|, Apply(a.sink, c).flushed, line);
  }

  lemma RecordedIsHeld(a: Account, line: Line)
    requires Balanced(a) && line in a.recorded
    ensures line in a.sink.inner[..|a.sink.inner|]
  {
    assert line in multiset(a.sink.inner);
    assert a.sink.inner[..|a.sink.inner|] == a.sink.inner;
  }

  lemma NeverCoveredCons(calls: seq<Call>)
    requires calls != [] && !Covers(calls[0]) && NeverCovered(calls[1..])
    ensures NeverCovered(calls)
  {
    assert forall k :: 0 < k < |calls| ==> calls[k] == calls[1..][k - 1];
  }

  /** A recorded line survives any run in which the inner sink is flushed. */
  lemma {:induction false} CoveredSurvives(a: Account, calls: seq<Call>, line: Line)
    requires Balanced(a) && Run(a, calls).Some? && line in a.recorded && !NeverCovered(calls)
    ensures Balanced(Run(a, calls).value) && Survives(Run(a, calls).value.sink, line)
    decreases |calls|
  {
    if Covers(calls[0]) {
      CoveredIsSafe(a, calls[0], line);
      SafeStays(Post(a, calls[0]), calls[1..], line);
    } else {
      CallBalances(a, calls[0]);
      StepKeepsRecorded(a, calls[0], line);
      if NeverCovered(calls[1..]) { NeverCoveredCons(calls); }
      CoveredSurvives(Post(a, calls[0]), calls[1..], line);
    }
  }

  /** So does a pending line whose next flush, if any, does not lose its spill. */
  lemma {:induction false} UnlostSurvives(a: Account, calls: seq<Call>, line: Line)
    requires Balanced(a) && Run(a, calls).Some? && line in a.sink.pending && !SpillLost(calls)
    ensures Balanced(Run(a, calls).value) && Survives(Run(a, calls).value.sink, line)
    decreases |calls|
  {
    PendingIsKept(a, line);
    if calls != [] {
      var c := calls[0];
      CallBalances(a, c);
      if Covers(c) {
        CoveredIsSafe(a, c, line);
        SafeStays(Post(a, c), calls[1..], line);
      } else if c.FlushCall? {
        FailedFlushStep(a, c, line);
        SafeStays(Post(a, c), calls[1..], line);
      } else {
        PendingStep(a, c, line);
        UnlostSurvives(Post(a, c), calls[1..], line);
      }
    }
  }

  lemma PendingIsKept(a: Account, line: Line)
    requires Balanced(a) && line in a.sink.pending
    ensures line in Kept(a.sink) && line in a.recorded
  {
    assert line in multiset(a.sink.pending);
  }

  /** A flush that fails moves the pending lines to disk, or to the lost ones. */
  lemma FailedFlushStep(a: Account, c: Call, line: Line)
    requires Balanced(a) && Enabled(a.sink, c) && c.FlushCall? && !c.innerOk && line in a.sink.pending
    ensures Apply(a.sink, c).flushed <= |Apply(a.sink, c).inner|
    ensures if c.diskOk then IsSafe(Post(a, c).sink, line) else line in Post(a, c).lost
  {
    var s' := Apply(a.sink, c);
    if c.diskOk {
      SpilledHas(s'.files, s'.nextFile, line);
      assert s'.files[a.sink.nextFile] == a.sink.pending;
    } else {
      assert line in multiset(a.sink.pending);
    }
  }

  /** Recording and retrying leave pending what is. */
  lemma PendingStep(a: Account, c: Call, line: Line)
    requires Balanced(a) && Enabled(a.sink, c) && !c.FlushCall? && line in a.sink.pending
    ensures line in Post(a, c).sink.pending
  {
    if c.RetryCall? { RetryRemovesOnlyReplayed(a.sink, c.listing, c.fates); }
  }

  /** Recorded once, and never flushed since. */
  predicate IsOnlyCopy(a: Account, line: Line) {
    Balanced(a) && a.recorded[line] == 1 && line !in a.sink.inner[..a.sink.flushed]
  }

  lemma OnlyCopyStep(a: Account, c: Call, line: Line)
    requires IsOnlyCopy(a, line) && Enabled(a.sink, c) && !Covers(c) && c != RecordCall(line)
    ensures IsOnlyCopy(Post(a, c), line)
  {
    CallBalances(a, c);
    FlushedStays(a, c);
    RecordedStays(a, c, line);
  }

  lemma FlushedStays(a: Account, c: Call)
    requires Balanced(a) && Enabled(a.sink, c) && !Covers(c)
    ensures var s, s' := a.sink, Apply(a.sink, c);
            s'.flushed == s.flushed <= |s'.inner| && s'.inner[..s'.flushed] == s.inner[..s.flushed]
  {
    CallCovers(a, c);
  }

  lemma RecordedStays(a: Account, c: Call, line: Line)
    requires Enabled(a.sink, c) && c != RecordCall(line)
    ensures Post(a, c).recorded[line] == a.recorded[line]
  {
  }

  lemma {:induction false} LostDoesNotSurvive(a: Account, calls: seq<Call>, line: Line)
    requires IsOnlyCopy(a, line) && line in a.lost
    requires Run(a, calls).Some? && NeverCovered(calls) && RecordCall(line) !in calls
    ensures Balanced(Run(a, calls).value) && !Survives(Run(a, calls).value.sink, line)
    decreases |calls|
  {
    if calls != [] {
      assert !Covers(calls[0]) && calls[0] in calls;
      OnlyCopyStep(a, calls[0], line);
      LostDoesNotSurvive(Post(a, calls[0]), calls[1..], line);
    }
  }

  lemma {:induction false} PendingDoesNotSurvive(a: Account, calls: seq<Call>, line: Line)
    requires IsOnlyCopy(a, line) && line in a.sink.pending
    requires Run(a, calls).Some? && SpillLost(calls) && NeverCovered(calls) && RecordCall(line) !in calls
    ensures Balanced(Run(a, calls).value) && !Survives(Run(a, calls).value.sink, line)
    decreases |calls|
  {
    QuietRest(calls, line);
    OnlyCopyStep(a, calls[0], line);
    var next := Post(a, calls[0]);
    if calls[0].FlushCall? {
      FailedFlushStep(a, calls[0], line);
      LostDoesNotSurvive(next, calls[1..], line);
    } else {
      PendingStep(a, calls[0], line);
      PendingDoesNotSurvive(next, calls[1..], line);
    }
  }

  lemma QuietRest(calls: seq<Call>, line: Line)
    requires calls != [] && NeverCovered(calls) && RecordCall(line) !in calls
    ensures !Covers(calls[0]) && calls[0] != RecordCall(line)
    ensures NeverCovered(calls[1..]) && RecordCall(line) !in calls[1..]
  {
    assert calls[0] in calls;
  }

  // ------------------------------------------------------------------
  // From the opening
  // ------------------------------------------------------------------

  lemma {:induction false} RunConcat(a: Account, first: seq<Call>, rest: seq<Call>)
    ensures Run(a, first + rest) == match Run(a, first) case Some(b) => Run(b, rest) case None => None
    decreases |first|
  {
    if first == [] {
      assert first + rest == rest;
    } else {
      assert (first + rest)[0] == first[0] && (first + rest)[1..] == first[1..] + rest;
      if Enabled(a.sink, first[0]) { RunConcat(Post(a, first[0]), first[1..], rest); }
    }
  }

  lemma {:induction false} RecordedIff(a: Account, calls: seq<Call>, line: Line)
    requires Run(a, calls).Some?
    ensures line in Run(a, calls).value.recorded <==> line in a.recorded || RecordCall(line) in calls
    decreases |calls|
  {
    if calls != [] {
      assert calls == [calls[0]] + calls[1..];
      RecordedIff(Post(a, calls[0]), calls[1..], line);
    }
  }

  /** The inner sink has been given nothing that was not recorded. */
  predicate InnerIsRecorded(a: Account) {
    forall line :: line in a.sink.inner ==> line in a.recorded
  }

  lemma {:induction false} RetryReplaysFiles(s: Sink, listing: seq<FileId>, fates: FileId -> Fate, line: Line)
    requires Listed(s, listing) && line in RetryAll(s, listing, fates).0.inner
    ensures line in s.inner || exists f: FileId :: f in s.files && line in s.files[f]
    decreases |listing|
  {
    if listing != [] {
      var (s', first) := RetryFile(s, listing[0], fates(listing[0]));
      if first.Ok? {
        ListedRest(s, listing, fates(listing[0]));
        RetryReplaysFiles(s', listing[1..], fates, line);
      }
    }
  }

  lemma StepKeepsInnerRecorded(a: Account, c: Call)
    requires Balanced(a) && InnerIsRecorded(a) && Enabled(a.sink, c)
    ensures InnerIsRecorded(Post(a, c))
  {
    forall line | line in Apply(a.sink, c).inner ensures line in Post(a, c).recorded {
      if c.RetryCall? {
        RetryReplaysFiles(a.sink, c.listing, c.fates, line);
        if line !in a.sink.inner { FileIsRecorded(a, line); }
      }
    }
  }

  lemma FileIsRecorded(a: Account, line: Line)
    requires Balanced(a) && exists f: FileId :: f in a.sink.files && line in a.sink.files[f]
    ensures line in a.recorded
  {
    SpilledHas(a.sink.files, a.sink.nextFile, line);
  }

  lemma {:induction false} RunKeepsInnerRecorded(a: Account, calls: seq<Call>)
    requires Balanced(a) && InnerIsRecorded(a) && Run(a, calls).Some?
    ensures InnerIsRecorded(Run(a, calls).value)
    decreases |calls|
  {
    if calls != [] {
      StepKeepsInnerRecorded(a, calls[0]);
      CallBalances(a, calls[0]);
      RunKeepsInnerRecorded(Post(a, calls[0]), calls[1..]);
    }
  }

  /** The account right after call i of a run has recorded its line. */
  lemma AfterRecording(calls: seq<Call>, i: nat) returns (a: Account)
    requires Run(OPENING, calls).Some? && i < |calls| && calls[i].RecordCall?
    ensures Balanced(a) && calls[i].line in a.sink.pending && calls[i].line in a.recorded
    ensures Run(a, calls[i + 1..]) == Run(OPENING, calls)
    ensures calls[i] !in calls[..i] ==> IsOnlyCopy(a, calls[i].line)
  {
    var line := calls[i].line;
    assert calls == calls[..i] + calls[i..];
    RunConcat(OPENING, calls[..i], calls[i..]);
    var before := Run(OPENING, calls[..i]).value;
    EveryRunBalances(OPENING, calls[..i]);
    RunKeepsInnerRecorded(OPENING, calls[..i]);
    RecordedIff(OPENING, calls[..i], line);
    a := Post(before, calls[i]);
    CallBalances(before, calls[i]);
    assert calls[i..][1..] == calls[i + 1..];
    assert a.sink.inner[..a.sink.flushed] == before.sink.inner[..before.sink.flushed];
  }

  /** A line recorded once survives exactly when its recording leaves nothing behind. */
  lemma LineSurvivesIff(calls: seq<Call>, i: nat)
    requires Run(OPENING, calls).Some? && i < |calls| && calls[i].RecordCall?
    requires calls[i] !in calls[..i] && calls[i] !in calls[i + 1..]
    ensures Balanced(Run(OPENING, calls).value)
    ensures Survives(Run(OPENING, calls).value.sink, calls[i].line) <==> !LeavesBehind(calls, i)
  {
    var a := AfterRecording(calls, i);
    if LeavesBehind(calls, i) {
      PendingDoesNotSurvive(a, calls[i + 1..], calls[i].line);
    } else if SpillLost(calls[i + 1..]) {
      CoveredSurvives(a, calls[i + 1..], calls[i].line);
    } else {
      UnlostSurvives(a, calls[i + 1..], calls[i].line);
    }
  }

  /** Delivery at least once: every line ever recorded survives. */
  ghost predicate AtLeastOnce(a: Account)
    requires a.sink.flushed <= |a.sink.inner|
  {
    forall line :: line in a.recorded ==> Survives(a.sink, line)
  }

  /** It holds if no recording is left behind, whether or not lines repeat. */
  lemma NothingLeftBehindIsDelivered(calls: seq<Call>)
    requires Run(OPENING, calls).Some? && forall i :: !LeavesBehind(calls, i)
    ensures Balanced(Run(OPENING, calls).value) && AtLeastOnce(Run(OPENING, calls).value)
  {
    var final := Run(OPENING, calls).value;
    EveryRunBalances(OPENING, calls);
    forall line | line in final.recorded ensures Survives(final.sink, line) {
      RecordedIff(OPENING, calls, line);
      var i :| 0 <= i < |calls| && calls[i] == RecordCall(line);
      var a := AfterRecording(calls, i);
      assert !LeavesBehind(calls, i);
      if SpillLost(calls[i + 1..]) {
        CoveredSurvives(a, calls[i + 1..], line);
      } else {
        UnlostSurvives(a, calls[i + 1..], line);
      }
    }
  }

  predicate RecordsAreDistinct(calls: seq<Call>) {
    forall i, j :: 0 <= i < j < |calls| && calls[i].RecordCall? && calls[j].RecordCall? ==>
      calls[i].line != calls[j].line
  }

  /** Of distinct lines it holds exactly then. */
  lemma AtLeastOnceIff(calls: seq<Call>)
    requires Run(OPENING, calls).Some? && RecordsAreDistinct(calls)
    ensures Balanced(Run(OPENING, calls).value)
    ensures AtLeastOnce(Run(OPENING, calls).value) <==> forall i :: !LeavesBehind(calls, i)
  {
    var final := Run(OPENING, calls).value;
    EveryRunBalances(OPENING, calls);
    if i: nat :| LeavesBehind(calls, i) {
      DistinctIsOnce(calls, i);
      RecordedIff(OPENING, calls, calls[i].line);
      LineSurvivesIff(calls, i);
      assert !Survives(final.sink, calls[i].line);
    } else {
      NothingLeftBehindIsDelivered(calls);
    }
  }

  lemma DistinctIsOnce(calls: seq<Call>, i: nat)
    requires RecordsAreDistinct(calls) && i < |calls| && calls[i].RecordCall?
    ensures calls[i] in calls && calls[i] !in calls[..i] && calls[i] !in calls[i + 1..]
  {
  }

  /** The shortest run that loses a line, and the same with a successful flush after:
      there the spill failed and the line is delivered all the same. */
  lemma LostUnlessFlushedLater(line: Line)
    ensures var calls := [RecordCall(line), FlushCall(false, false)];
            Run(OPENING, calls).Some? && Balanced(Run(OPENING, calls).value) &&
            !Survives(Run(OPENING, calls).value.sink, line)
    ensures var calls := [RecordCall(line), FlushCall(false, false), FlushCall(true, true)];
            Run(OPENING, calls).Some? && Balanced(Run(OPENING, calls).value) && SpillFails(OPENING, calls) &&
            Survives(Run(OPENING, calls).value.sink, line)
  {
    var record, fail, flush := RecordCall(line), FlushCall(false, false), FlushCall(true, true);
    var lost, saved := [record, fail], [record, fail, flush];
    var a := Post(Post(OPENING, record), fail);
    assert lost[1..] == [fail] && lost[1..][1..] == [] && lost[0..0] == [] == lost[..0];
    assert saved[1..] == [fail, flush] && saved[1..][1..] == [flush] && saved[1..][1..][1..] == [];
    assert Run(a, []) == Some(a);
    assert Run(Post(OPENING, record), [fail]) == Some(a);
    assert Run(Post(a, flush), []).Some?;
    assert Run(a, [flush]).Some?;
    assert Run(Post(OPENING, record), [fail, flush]).Some?;
    assert Loses(Post(OPENING, record).sink, fail);
    LineSurvivesIff(lost, 0);
    assert Covers(saved[1..][1]);
    LineSurvivesIff(saved, 0);
  }

  // ------------------------------------------------------------------
  // What a retry leaves
  // ------------------------------------------------------------------

  predicate Aborts(fate: Fate) {
    fate == Unreadable || fate == RemovalFails
  }

  /** A retry succeeds exactly when no listed file can neither be read nor removed. */
  lemma {:induction false} RetrySucceedsIff(s: Sink, listing: seq<FileId>, fates: FileId -> Fate)
    requires Listed(s, listing)
    ensures RetryAll(s, listing, fates).1.Ok? <==> forall k :: 0 <= k < |listing| ==> !Aborts(fates(listing[k]))
    decreases |listing|
  {
    if listing != [] {
      var (s', first) := RetryFile(s, listing[0], fates(listing[0]));
      assert Aborts(fates(listing[0])) <==> first.Err?;
      if first.Ok? {
        ListedRest(s, listing, fates(listing[0]));
        RetrySucceedsIff(s', listing[1..], fates);
        assert forall k :: 0 < k < |listing| ==> listing[k] == listing[1..][k - 1];
        if k :| 0 <= k < |listing[1..]| && Aborts(fates(listing[1..][k])) { assert Aborts(fates(listing[k + 1])); }
      }
    }
  }

  /** After the first file that aborts it a retry does nothing more. */
  lemma {:induction false} RetryStopsAtAbort(s: Sink, listing: seq<FileId>, fates: FileId -> Fate, k: nat)
    requires Listed(s, listing) && k < |listing| && Aborts(fates(listing[k]))
    ensures Listed(s, listing[..k + 1])
    ensures RetryAll(s, listing, fates) == RetryAll(s, listing[..k + 1], fates)
    ensures RetryAll(s, listing, fates).1 == Err(IoError)
    decreases k
  {
    var cut := listing[..k + 1];
    assert forall i :: 0 <= i < |cut| ==> cut[i] == listing[i];
    var (s', first) := RetryFile(s, listing[0], fates(listing[0]));
    if first.Ok? {
      ListedRest(s, listing, fates(listing[0]));
      ListedRest(s, cut, fates(listing[0]));
      RetryStopsAtAbort(s', listing[1..], fates, k - 1);
      assert cut[1..] == listing[1..][..k];
    }
  }

  /** The lines of the listed files, in the order of the listing. */
  function LinesOf(files: map<FileId, seq<Line>>, listing: seq<FileId>): seq<Line>
    requires forall i :: 0 <= i < |listing| ==> listing[i] in files
  {
    if listing == [] then [] else files[listing[0]] + LinesOf(files, listing[1..])
  }

  lemma {:induction false} SameLines(a: map<FileId, seq<Line>>, b: map<FileId, seq<Line>>, listing: seq<FileId>)
    requires forall i :: 0 <= i < |listing| ==> listing[i] in a && listing[i] in b && a[listing[i]] == b[listing[i]]
    ensures LinesOf(a, listing) == LinesOf(b, listing)
  {
    if listing != [] { SameLines(a, b, listing[1..]); }
  }

  /** A retry that succeeds replays all the listed files, in the order of the listing. */
  lemma {:induction false} RetryReplaysAll(s: Sink, listing: seq<FileId>, fates: FileId -> Fate)
    requires Listed(s, listing) && RetryAll(s, listing, fates).1.Ok?
    ensures RetryAll(s, listing, fates).0.inner == s.inner + LinesOf(s.files, listing)
    decreases |listing|
  {
    if listing == [] {
      assert s.inner + [] == s.inner;
    } else {
      var file, rest := listing[0], listing[1..];
      var s1 := RetryFile(s, file, fates(file)).0;
      ListedRest(s, listing, fates(file));
      RetryReplaysAll(s1, rest, fates);
      SameLines(s.files, s1.files, rest);
      Associates(s.inner, s.files[file], LinesOf(s.files, rest));
    }
  }

  /** It removes those whose flush succeeded, and no others. */
  lemma {:induction false} RetryRemovesFlushed(s: Sink, listing: seq<FileId>, fates: FileId -> Fate, f: FileId)
    requires Listed(s, listing) && RetryAll(s, listing, fates).1.Ok?
    ensures f in RetryAll(s, listing, fates).0.files <==> f in s.files && !(f in listing && fates(f) == Removed)
    decreases |listing|
  {
    if listing != [] {
      var file, rest := listing[0], listing[1..];
      ListedRest(s, listing, fates(file));
      assert f in listing <==> f == file || f in rest;
      RetryRemovesFlushed(RetryFile(s, file, fates(file)).0, rest, fates, f);
    }
  }
}
