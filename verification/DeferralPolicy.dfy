/** The mid-session decision to hide a tool's schema again. */
module DeferralPolicy {
  import opened RealPowers
  import opened DiscBeta
  import opened Tools

  datatype Rule = Rule(pattern: string, mode: ToolLoadMode)

  /** Glob matching is a parameter: it belongs to another crate. */
  datatype Config = Config(rules: seq<Rule>, defaultMode: ToolLoadMode, matches: (string, ToolId) -> bool,
                           deferAfter: nat, threshMult: real, gamma: real)

  predicate Applies(config: Config, rule: Rule, id: ToolId) {
    rule.pattern == id || config.matches(rule.pattern, id)
  }

  /** First match wins. */
  function ResolveMode(config: Config, id: ToolId): ToolLoadMode {
    ResolveIn(config, config.rules, id)
  }

  function ResolveIn(config: Config, rules: seq<Rule>, id: ToolId): ToolLoadMode {
    if rules == [] then config.defaultMode
    else if Applies(config, rules[0], id) then rules[0].mode
    else ResolveIn(config, rules[1..], id)
  }

  function IdleTurns(e: Entry, now: nat): nat {
    match e.lastUsedTurn
    case Some(last) => if now > last then now - last else 0
    case None => now
  }

  const CONFIDENCE: real := 0.90

  /** The scaled breakeven frequency. */
  function Threshold(e: Entry, config: Config): real
    requires BreakevenP(e, config.gamma).Some?
  {
    BreakevenP(e, config.gamma).value * config.threshMult
  }

  /** An eager tool that the configuration defers, idle for long enough, and
      whose upper credible bound lies below the threshold. */
  predicate ShouldDefer(id: ToolId, e: Entry, modes: map<ToolId, ToolLoadMode>, config: Config, now: nat)
    requires Valid(e)
  {
    id in modes && modes[id] == Eager &&
    ResolveMode(config, id) == Deferred &&
    IdleTurns(e, now) >= config.deferAfter &&
    BreakevenP(e, config.gamma).Some? &&
    UpperCiBelow(e, CONFIDENCE, Threshold(e, config))
  }

  /** The deviation is the square root of the variance, as far as there is evidence. */
  predicate IsDeviation(deviation: real, e: Entry)
    requires Valid(e)
  {
    Total(e) >= NEGLIGIBLE ==> IsSqrt(deviation, Variance(e))
  }

  /** One round of the loop below: the reasons to skip a tool, in order, and last the
      comparison of its upper bound with the threshold. */
  method CheckTool(id: ToolId, entry: Entry, deviation: real,
                   modes: map<ToolId, ToolLoadMode>, config: Config, now: nat)
    returns (defer: bool)
    requires Valid(entry) && IsDeviation(deviation, entry)
    ensures defer == ShouldDefer(id, entry, modes, config, now)
  {
    if id !in modes || modes[id] != Eager {
      return false;
    }
    if ResolveMode(config, id) == Eager {
      return false;
    }
    var idle := match entry.lastUsedTurn
      case Some(last) => if now > last then now - last else 0
      case None => now;
    if idle < config.deferAfter {
      return false;
    }
    var pBreak := BreakevenP(entry, config.gamma);
    if pBreak.None? {
      return false;
    }
    var threshold := Threshold(entry, config);
    UpperCiBelowIff(entry, CONFIDENCE, threshold, deviation);
    return UpperCi(entry, CONFIDENCE, deviation) < threshold;
  }

  /** Visits the tools in any order; the result lists exactly the tools to defer,
      each once. */
  method ToolsToDefer(tools: map<ToolId, Entry>, deviations: map<ToolId, real>,
                      modes: map<ToolId, ToolLoadMode>, config: Config, now: nat)
    returns (toDefer: seq<ToolId>)
    requires forall id :: id in tools ==>
      Valid(tools[id]) && id in deviations && IsDeviation(deviations[id], tools[id])
    ensures forall id :: id in toDefer <==> id in tools && ShouldDefer(id, tools[id], modes, config, now)
    ensures forall i, j :: 0 <= i < j < |toDefer| ==> toDefer[i] != toDefer[j]
  {
    toDefer := [];
    var todo := tools.Keys;
    ghost var deferred: set<ToolId> := {};
    while todo != {}
      invariant todo <= tools.Keys
      invariant forall id :: id in toDefer <==> id in deferred
      invariant deferred <= tools.Keys - todo
      invariant forall id :: id in tools.Keys - todo ==>
        (id in deferred <==> ShouldDefer(id, tools[id], modes, config, now))
      invariant forall i, j :: 0 <= i < j < |toDefer| ==> toDefer[i] != toDefer[j]
      decreases todo
    {
      var id :| id in todo;
      todo := todo - {id};
      var defer := CheckTool(id, tools[id], deviations[id], modes, config, now);
      if defer {
        toDefer := toDefer + [id];
        deferred := deferred + {id};
      }
    }
  }

  // ------------------------------------------------------------------
  // The decision on the raw numbers
  // ------------------------------------------------------------------

  /** The first rule whose pattern is the tool, or matches it, sets the mode. */
  lemma {:induction false} FirstMatchSets(config: Config, rules: seq<Rule>, id: ToolId, k: nat)
    requires k <= |rules|
    requires forall j :: 0 <= j < k ==> rules[j].pattern != id && !config.matches(rules[j].pattern, id)
    requires k < |rules| ==> rules[k].pattern == id || config.matches(rules[k].pattern, id)
    ensures ResolveIn(config, rules, id) == if k < |rules| then rules[k].mode else config.defaultMode
    decreases k
  {
    if k > 0 { FirstMatchSets(config, rules[1..], id, k - 1); }
  }

  lemma ResolveModeIsFirstMatch(config: Config, id: ToolId, k: nat)
    requires k <= |config.rules|
    requires forall j :: 0 <= j < k ==> config.rules[j].pattern != id && !config.matches(config.rules[j].pattern, id)
    requires k < |config.rules| ==> config.rules[k].pattern == id || config.matches(config.rules[k].pattern, id)
    ensures ResolveMode(config, id) == if k < |config.rules| then config.rules[k].mode else config.defaultMode
  {
    FirstMatchSets(config, config.rules, id, k);
  }

  /** The tool has not been used in the last turns. */
  predicate IsIdleFor(e: Entry, turns: nat, now: nat) {
    turns == 0 || (if e.lastUsedTurn.Some? then e.lastUsedTurn.value else 0) + turns <= now
  }

  /** The deviation of the Beta distribution, without division or root. */
  predicate IsBetaDeviation(deviation: real, alpha: real, beta: real) {
    var total := alpha + beta;
    deviation >= 0.0 && deviation * deviation * (total * total * (total + 1.0)) == alpha * beta
  }

  lemma SquareOfQuotient(square: real, cube: real, product: real)
    requires cube > 0.0 && square * cube == product
    ensures square == product / cube
  {
  }

  lemma BetaDeviationIsRoot(deviation: real, e: Entry)
    requires Valid(e) && Total(e) >= NEGLIGIBLE && IsBetaDeviation(deviation, e.alpha, e.betaParam)
    ensures IsSqrt(deviation, Variance(e))
  {
    var t := Total(e);
    var cube := t * t * (t + 1.0);
    MulPositive(t, t);
    MulPositive(t * t, t + 1.0);
    SquareOfQuotient(deviation * deviation, cube, e.alpha * e.betaParam);
    assert Variance(e) == e.alpha * e.betaParam / cube;
  }

  lemma ScaleByGamma(bound: real, saving: real, gamma: real, threshMult: real)
    requires gamma > 0.0
    ensures bound < saving / gamma * threshMult <==> bound * gamma < saving * threshMult
  {
    var q := saving / gamma;
    assert q * gamma == saving;
    var gap := q * threshMult - bound;
    assert gap * gamma == saving * threshMult - bound * gamma by {
      assert (q * threshMult) * gamma == (q * gamma) * threshMult;
    }
    if gap > 0.0 { MulPositive(gap, gamma); } else { NonNegativeProduct(-gap, gamma); }
  }

  /** The upper bound of the tool's use at the confidence of the policy. */
  function UpperBound(e: Entry, deviation: real): real {
    var total := e.alpha + e.betaParam;
    if total < 0.0000000001 then 1.0 else AtMostOne(e.alpha / total + 1.282 * deviation)
  }

  lemma BelowThresholdIff(e: Entry, deviation: real, threshold: real)
    requires Valid(e)
    requires e.alpha + e.betaParam >= 0.0000000001 ==> IsBetaDeviation(deviation, e.alpha, e.betaParam)
    ensures UpperCiBelow(e, CONFIDENCE, threshold) <==> UpperBound(e, deviation) < threshold
  {
    if Total(e) >= NEGLIGIBLE {
      BetaDeviationIsRoot(deviation, e);
      UpperCiOnNumbers(e, deviation);
    }
    UpperCiBelowIff(e, CONFIDENCE, threshold, deviation);
  }

  lemma IdleIff(e: Entry, turns: nat, now: nat)
    ensures IdleTurns(e, now) >= turns <==> IsIdleFor(e, turns, now)
  {
  }

  /** A tool is deferred if and only if it is eager, deferred by the configuration and
      idle for long enough, and its upper bound, weighted with the cost of a wrong
      guess, stays below what deferring it saves. */
  lemma ShouldDeferIff(id: ToolId, e: Entry, deviation: real, modes: map<ToolId, ToolLoadMode>,
                       config: Config, now: nat)
    requires Valid(e)
    requires e.alpha + e.betaParam >= 0.0000000001 ==> IsBetaDeviation(deviation, e.alpha, e.betaParam)
    ensures ShouldDefer(id, e, modes, config, now) <==>
            id in modes && modes[id] == Eager && ResolveMode(config, id) == Deferred &&
            IsIdleFor(e, config.deferAfter, now) &&
            e.c > e.cBar && config.gamma > 0.0 &&
            UpperBound(e, deviation) * config.gamma < (e.c - e.cBar) * config.threshMult
  {
    IdleIff(e, config.deferAfter, now);
    if BreakevenP(e, config.gamma).Some? {
      BelowThresholdIff(e, deviation, Threshold(e, config));
      BelowSavingIff(e, config, UpperBound(e, deviation));
    }
  }

  lemma BelowSavingIff(e: Entry, config: Config, bound: real)
    requires BreakevenP(e, config.gamma).Some?
    ensures bound < Threshold(e, config) <==> bound * config.gamma < (e.c - e.cBar) * config.threshMult
  {
    assert Threshold(e, config) == (e.c - e.cBar) / config.gamma * config.threshMult;
    ScaleByGamma(bound, e.c - e.cBar, config.gamma, config.threshMult);
  }

  // ------------------------------------------------------------------
  // What a deferral rests on
  // ------------------------------------------------------------------

  /** The evaluator, given these tools, returns this one. */
  predicate IsDeferred(tools: map<ToolId, Entry>, id: ToolId, modes: map<ToolId, ToolLoadMode>,
                       config: Config, now: nat) {
    id in tools && Valid(tools[id]) && ShouldDefer(id, tools[id], modes, config, now)
  }

  /** A tool is never deferred while its estimated frequency of use reaches the
      scaled breakeven, unless that exceeds one, which no frequency does. */
  lemma DeferredOnlyBelowBreakeven(id: ToolId, e: Entry, modes: map<ToolId, ToolLoadMode>, config: Config, now: nat)
    requires Valid(e) && ShouldDefer(id, e, modes, config, now)
    ensures e.c > e.cBar && config.gamma > 0.0
    ensures Mean(e) * config.gamma < (e.c - e.cBar) * config.threshMult
  {
    MeanInUnitInterval(e);
    assert Mean(e) < Threshold(e, config);
    BelowSavingIff(e, config, Mean(e));
  }

  predicate Ascending(history: seq<Turn>) {
    forall i, j :: 0 <= i < j < |history| ==> history[i].number <= history[j].number
  }

  lemma {:induction false} LastUseGrows(e: Entry, id: ToolId, omega: real, history: seq<Turn>, turn: nat)
    requires e.lastUsedTurn.Some? && e.lastUsedTurn.value >= turn
    requires forall i :: 0 <= i < |history| ==> history[i].number >= turn
    ensures var last := RunEntry(e, id, omega, history).lastUsedTurn; last.Some? && last.value >= turn
    decreases |history|
  {
    if history != [] {
      LastUseGrows(Observe(e, omega, history[0].number, id in history[0].called), id, omega, history[1..], turn);
    }
  }

  lemma {:induction false} LastUseIsLatest(e: Entry, id: ToolId, omega: real, history: seq<Turn>, k: nat)
    requires Ascending(history) && k < |history| && id in history[k].called
    ensures var last := RunEntry(e, id, omega, history).lastUsedTurn; last.Some? && last.value >= history[k].number
    decreases |history|
  {
    var next := Observe(e, omega, history[0].number, id in history[0].called);
    if k == 0 {
      LastUseGrows(next, id, omega, history[1..], history[0].number);
    } else {
      LastUseIsLatest(next, id, omega, history[1..], k - 1);
    }
  }

  /** After any history, a tool that is deferred costs more loaded than deferred, is
      estimated to be used below the scaled breakeven, and was called in none of the
      last defer_after turns. */
  lemma DeferredIsIdleAndRare(tools: map<ToolId, Entry>, id: ToolId, omega: real, history: seq<Turn>,
                              modes: map<ToolId, ToolLoadMode>, config: Config, now: nat)
    requires id in tools && Valid(tools[id]) && omega >= 0.0 && Ascending(history)
    requires IsDeferred(Run(tools, omega, history), id, modes, config, now)
    ensures var e := Run(tools, omega, history)[id];
            e.c == tools[id].c && e.cBar == tools[id].cBar && e.c > e.cBar && config.gamma > 0.0 &&
            Mean(e) * config.gamma < (e.c - e.cBar) * config.threshMult
    ensures forall k :: 0 <= k < |history| && id in history[k].called ==>
              config.deferAfter == 0 || history[k].number + config.deferAfter <= now
  {
    var e := Run(tools, omega, history)[id];
    RunIsPointwise(tools, omega, history);
    RunKeepsValid(tools[id], id, omega, history);
    DeferredOnlyBelowBreakeven(id, e, modes, config, now);
    forall k | 0 <= k < |history| && id in history[k].called
      ensures config.deferAfter == 0 || history[k].number + config.deferAfter <= now
    {
      LastUseIsLatest(tools[id], id, omega, history, k);
    }
  }

  // ------------------------------------------------------------------
  // Eventual re-deferral
  // ------------------------------------------------------------------

  /** After enough turns without a call, every tool the configuration defers, and
      that costs more loaded than deferred, is deferred again: whatever happens to
      the other tools meanwhile, whatever the prior, and for good. */
  lemma EventuallyDeferred(tools: map<ToolId, Entry>, id: ToolId, omega: real,
                           modes: map<ToolId, ToolLoadMode>, config: Config, start: nat) returns (enough: nat)
    requires id in tools && Valid(tools[id]) && 0.0 <= omega < 1.0
    requires tools[id].c > tools[id].cBar && config.gamma > 0.0 && config.threshMult > 0.0
    requires id in modes && modes[id] == Eager && ResolveMode(config, id) == Deferred
    requires tools[id].lastUsedTurn.Some? ==> tools[id].lastUsedTurn.value <= start
    ensures forall history: seq<Turn>, now: nat ::
              |history| >= enough && NeverCalled(id, history) && now >= start + |history| ==>
              IsDeferred(Run(tools, omega, history), id, modes, config, now)
  {
    var e := tools[id];
    ThresholdIsPositive(e, config);
    var threshold := Threshold(e, config);
    SquarePositive(threshold);
    var byMean := PowVanishes(omega, e.alpha, threshold / 2.0);
    var bySpread := PowVanishes(omega, e.alpha, Square(threshold) / 8.0);
    enough := byMean + bySpread + config.deferAfter + 1;
    forall history: seq<Turn>, now: nat
      | |history| >= enough && NeverCalled(id, history) && now >= start + |history|
      ensures IsDeferred(Run(tools, omega, history), id, modes, config, now)
    {
      RunIsPointwise(tools, omega, history);
      LongIdleIsDeferred(e, id, omega, modes, config, start, history, now);
    }
  }

  lemma LongIdleIsDeferred(e: Entry, id: ToolId, omega: real, modes: map<ToolId, ToolLoadMode>, config: Config,
                           start: nat, history: seq<Turn>, now: nat)
    requires Valid(e) && omega >= 0.0
    requires id in modes && modes[id] == Eager && ResolveMode(config, id) == Deferred
    requires e.lastUsedTurn.Some? ==> e.lastUsedTurn.value <= start
    requires NeverCalled(id, history) && now >= start + |history| && |history| >= config.deferAfter + 1
    requires BreakevenP(e, config.gamma).Some? && Threshold(e, config) > 0.0
    requires Decayed(e.alpha, omega, |history|) <= Threshold(e, config) / 2.0
    requires Decayed(e.alpha, omega, |history|) <= Square(Threshold(e, config)) / 8.0
    ensures Valid(RunEntry(e, id, omega, history))
    ensures ShouldDefer(id, RunEntry(e, id, omega, history), modes, config, now)
  {
    var last := RunEntry(e, id, omega, history);
    RunKeepsValid(e, id, omega, history);
    IdleDecay(e, id, omega, history);
    SmallAlphaIsDeferred(id, last, modes, config, now, Threshold(e, config));
  }

  lemma SmallAlphaIsDeferred(id: ToolId, e: Entry, modes: map<ToolId, ToolLoadMode>, config: Config, now: nat,
                             threshold: real)
    requires Valid(e) && Total(e) >= 1.0 && threshold > 0.0
    requires id in modes && modes[id] == Eager && ResolveMode(config, id) == Deferred
    requires IdleTurns(e, now) >= config.deferAfter
    requires BreakevenP(e, config.gamma).Some? && Threshold(e, config) == threshold
    requires e.alpha <= threshold / 2.0 && e.alpha <= Square(threshold) / 8.0
    ensures ShouldDefer(id, e, modes, config, now)
  {
    SmallAlphaIsBelow(e, threshold);
  }

  lemma ThresholdIsPositive(e: Entry, config: Config)
    requires e.c > e.cBar && config.gamma > 0.0 && config.threshMult > 0.0
    ensures BreakevenP(e, config.gamma).Some?
    ensures Threshold(e, config) > 0.0
  {
    var p := BreakevenP(e, config.gamma).value;
    MulPositive(p, config.threshMult);
  }
}
