/** What recorded actions mean for a tool call in the end. */
module PermissionLaws {
  import opened Options
  import opened KeyedEdits
  import opened Permissions

  // ------------------------------------------------------------------
  // Rules on tools
  // ------------------------------------------------------------------

  /** With rules on tools alone, a call is decided by the rule recorded for its tool. */
  lemma ToolRulesDecide<P, A>(lang: Language<P, A>, p: PolicyState<P>, call: Call<A>)
    requires KeyedBySubject(lang, p.rules)
    requires forall k :: k in p.rules ==> p.rules[k].subject.Tool?
    ensures Verdict(lang, p, call) ==
            if "tool:" + call.toolId in p.rules then p.rules["tool:" + call.toolId].behavior else p.defaultBehavior
  {
    var key := "tool:" + call.toolId;
    var own: Subject<P> := Tool(call.toolId);
    assert Key(lang, own) == key;
    forall k | k in p.rules ensures Match(lang, p.rules[k], call).Some? <==> k == key {
      KeysAgreeIff(lang, p.rules[k].subject, own);
    }
    if key in p.rules {
      assert IsBest(lang, p.rules, p.rules.Keys, call, key);
      BestRuleGivesVerdict(lang, p, call, key);
    }
  }

  /** What an action leaves recorded for a tool, given what was recorded. */
  function AfterAction(recorded: Option<Behavior>, a: Action, id: string): Option<Behavior> {
    match a
    case SetTool(tool, b) => if tool == id then Some(b) else recorded
    case AllowTool(tool) => if tool == id then Some(Allow) else recorded
    case DenyTool(tool) => if tool == id then Some(Deny) else recorded
    case RemoveTool(tool) => if tool == id then None else recorded
    case ClearTools => None
    case _ => recorded
  }

  function AfterActions(recorded: Option<Behavior>, actions: seq<Action>, id: string): Option<Behavior>
    decreases |actions|
  {
    if actions == [] then recorded else AfterActions(AfterAction(recorded, actions[0], id), actions[1..], id)
  }

  function Recorded<P>(rules: Rules<P>, id: string): Option<Behavior> {
    if "tool:" + id in rules then Some(rules["tool:" + id].behavior) else None
  }

  lemma ToolKeys(id: string, other: string, text: string)
    ensures "tool:" + id == "tool:" + other <==> id == other
    ensures "tool:" + id != "pattern:" + text
  {
    assert ("tool:" + id)[5..] == id && ("tool:" + other)[5..] == other;
    assert ("tool:" + id)[0] == 't' && ("pattern:" + text)[0] == 'p';
  }

  lemma ActionRecords<P, A>(lang: Language<P, A>, rules: Rules<P>, a: Action, source: Source, id: string)
    ensures Recorded(Perform(rules, RuleEdit(lang, a, source)), id) == AfterAction(Recorded(rules, id), a, id)
  {
    PerformDecides(rules, RuleEdit(lang, a, source), "tool:" + id);
    match a {
      case SetTool(tool, _) => ToolKeys(id, tool, "");
      case AllowTool(tool) => ToolKeys(id, tool, "");
      case DenyTool(tool) => ToolKeys(id, tool, "");
      case RemoveTool(tool) => ToolKeys(id, tool, "");
      case SetRule(text, _) => if lang.parse(text).Some? { ToolKeys(id, id, lang.show(lang.parse(text).value)); }
      case RemoveRule(text) => if lang.parse(text).Some? { ToolKeys(id, id, lang.show(lang.parse(text).value)); }
      case _ =>
    }
  }

  lemma {:induction false} RunRecords<P, A>(lang: Language<P, A>, rules: Rules<P>, actions: seq<Action>,
                                            source: Source, id: string)
    ensures Recorded(RunActions(lang, rules, actions, source), id) == AfterActions(Recorded(rules, id), actions, id)
    decreases |actions|
  {
    if actions != [] {
      ActionRecords(lang, rules, actions[0], source, id);
      RunRecords(lang, Perform(rules, RuleEdit(lang, actions[0], source)), actions[1..], source, id);
    }
  }

  /** After any run of actions on tools a call is decided by what they leave recorded for
      its tool, and by the default if that is nothing. */
  lemma ToolActionsDecide<P, A>(lang: Language<P, A>, defaultBehavior: Behavior, actions: seq<Action>, call: Call<A>)
    requires forall i :: 0 <= i < |actions| ==> !actions[i].SetRule?
    ensures var recorded := AfterActions(None, actions, call.toolId);
            Verdict(lang, PolicyState(defaultBehavior, RunActions(lang, map[], actions, FromRuntime)), call) ==
              if recorded.Some? then recorded.value else defaultBehavior
  {
    var rules := RunActions(lang, map[], actions, FromRuntime);
    RunKeepsKeys(lang, map[], actions, FromRuntime);
    ToolActionsMakeToolRules(lang, map[], actions, FromRuntime);
    RunRecords(lang, map[], actions, FromRuntime, call.toolId);
    ToolRulesDecide(lang, PolicyState(defaultBehavior, rules), call);
  }

  /** After any run at all, patterns included, a tool recorded as denied is denied. */
  lemma DeniedToolIsDenied<P, A>(lang: Language<P, A>, defaultBehavior: Behavior, actions: seq<Action>, call: Call<A>)
    requires AfterActions(None, actions, call.toolId) == Some(Deny)
    ensures Verdict(lang, PolicyState(defaultBehavior, RunActions(lang, map[], actions, FromRuntime)), call) == Deny
  {
    var rules := RunActions(lang, map[], actions, FromRuntime);
    var key := "tool:" + call.toolId;
    RunKeepsKeys(lang, map[], actions, FromRuntime);
    RunRecords(lang, map[], actions, FromRuntime, call.toolId);
    KeysAgreeIff(lang, rules[key].subject, Tool(call.toolId));
    assert Match(lang, rules[key], call).Some?;
  }

  // ------------------------------------------------------------------
  // Rules on patterns
  // ------------------------------------------------------------------

  lemma {:induction false} RunActionsSnoc<P, A>(lang: Language<P, A>, rules: Rules<P>, actions: seq<Action>,
                                                last: Action, source: Source)
    ensures RunActions(lang, rules, actions + [last], source) ==
            Perform(RunActions(lang, rules, actions, source), RuleEdit(lang, last, source))
    decreases |actions|
  {
    if actions == [] {
      assert (actions + [last])[1..] == [];
    } else {
      assert (actions + [last])[0] == actions[0] && (actions + [last])[1..] == actions[1..] + [last];
      RunActionsSnoc(lang, Perform(rules, RuleEdit(lang, actions[0], source)), actions[1..], last, source);
    }
  }

  /** A pattern rule set last decides the calls it matches unless a rule of higher rank
      matches, too; removed last, it decides nothing. */
  lemma PatternActionDecides<P, A>(lang: Language<P, A>, defaultBehavior: Behavior, actions: seq<Action>,
                                   text: string, b: Behavior, call: Call<A>)
    requires lang.parse(text).Some?
    ensures lang.matching(lang.parse(text).value, call.toolId, call.args).Some? ==>
      var made := PolicyState(defaultBehavior, RunActions(lang, map[], actions + [SetRule(text, b)], FromRuntime));
      var v := Verdict(lang, made, call);
      v == b || v == Deny || (v == Allow && b == Ask)
    ensures "pattern:" + lang.show(lang.parse(text).value)
            !in RunActions(lang, map[], actions + [RemoveRule(text)], FromRuntime)
  {
    var p := lang.parse(text).value;
    var before := RunActions(lang, map[], actions, FromRuntime);
    var key := "pattern:" + lang.show(p);
    RunActionsSnoc(lang, map[], actions, SetRule(text, b), FromRuntime);
    RunActionsSnoc(lang, map[], actions, RemoveRule(text), FromRuntime);
    PerformDecides(before, RuleEdit(lang, RemoveRule(text), FromRuntime), key);
    var after := Perform(before, RuleEdit(lang, SetRule(text, b), FromRuntime));
    assert key in after && after[key] == Rule(Pattern(p), b, FromRuntime);
    if lang.matching(p, call.toolId, call.args).Some? {
      assert Match(lang, after[key], call).Some?;
      assert Applies(lang, after, call, b);
    }
  }

  // ------------------------------------------------------------------
  // Specificity
  // ------------------------------------------------------------------

  function Fields(s: Specificity): seq<nat> {
    [s.toolKind, if s.hasArgs then 1 else 0, s.fieldCount, s.fieldPrecision]
  }

  /** Two specificities differ first in field k, and there the first is smaller. */
  predicate SmallerAt(a: Specificity, b: Specificity, k: nat)
    requires k < 4
  {
    Fields(a)[k] < Fields(b)[k] && forall i :: 0 <= i < k ==> Fields(a)[i] == Fields(b)[i]
  }

  /** Specificities compare field by field, the kind of tool match first. */
  lemma LessSpecificIff(a: Specificity, b: Specificity)
    ensures LessSpecific(a, b) <==> exists k: nat :: k < 4 && SmallerAt(a, b, k)
  {
    if LessSpecific(a, b) {
      var k := if a.toolKind != b.toolKind then 0 else if a.hasArgs != b.hasArgs then 1
               else if a.fieldCount != b.fieldCount then 2 else 3;
      assert SmallerAt(a, b, k);
    }
    if k: nat :| k < 4 && SmallerAt(a, b, k) {
      assert k > 0 ==> Fields(a)[0] == Fields(b)[0];
      assert k > 1 ==> Fields(a)[1] == Fields(b)[1];
      assert k > 2 ==> Fields(a)[2] == Fields(b)[2];
    }
  }

  /** Of two rules with the same behavior a rule on the tool itself outranks a glob or a
      regular expression, and is outranked by an exact pattern with arguments. */
  lemma ToolRuleRank<P, A>(lang: Language<P, A>, call: Call<A>, tool: Rule<P>, pattern: Rule<P>)
    requires tool.subject == Tool(call.toolId) && pattern.subject.Pattern? && tool.behavior == pattern.behavior
    requires Match(lang, pattern, call).Some?
    ensures Match(lang, tool, call).Some?
    ensures Match(lang, pattern, call).value.toolKind in [1, 2] ==> Below(lang, call, pattern, tool)
    ensures Match(lang, pattern, call).value.toolKind == 3 && Match(lang, pattern, call).value.hasArgs ==>
      Below(lang, call, tool, pattern)
    ensures Match(lang, pattern, call).value == Specificity(3, false, 0, 0) ==>
      !Below(lang, call, tool, pattern) && !Below(lang, call, pattern, tool)
  {
  }

  // ------------------------------------------------------------------
  // Missing layers
  // ------------------------------------------------------------------

  /** Without a policy calls are asked about, unless an override decides. */
  lemma MissingLayers<P, A>(lang: Language<P, A>, policy: PolicyState<P>, overrides: Rules<P>, call: Call<A>)
    ensures Verdict(lang, Layered(None, None), call) == Ask
    ensures Verdict(lang, Layered(Some(policy), None), call) == Verdict(lang, policy, call)
    ensures Verdict(lang, Layered(None, Some(overrides)), call) == Verdict(lang, PolicyState(Ask, overrides), call)
  {
    assert map[] + overrides == overrides;
  }

  // ------------------------------------------------------------------
  // Where rules come from
  // ------------------------------------------------------------------

  lemma {:induction false} RunKeepsSource<P, A>(lang: Language<P, A>, rules: Rules<P>, actions: seq<Action>,
                                                source: Source)
    requires forall k :: k in rules ==> rules[k].source == source
    ensures forall k :: k in RunActions(lang, rules, actions, source) ==>
              RunActions(lang, rules, actions, source)[k].source == source
    decreases |actions|
  {
    if actions != [] { RunKeepsSource(lang, Perform(rules, RuleEdit(lang, actions[0], source)), actions[1..], source); }
  }

  lemma {:induction false} PolicyRunIsRun<P, A>(lang: Language<P, A>, p: PolicyState<P>, actions: seq<Action>)
    ensures ReducedBy(lang, p, actions).rules == RunActions(lang, p.rules, actions, FromRuntime)
    decreases |actions|
  {
    if actions != [] { PolicyRunIsRun(lang, ReducePolicy(lang, p, actions[0]), actions[1..]); }
  }

  function ReducedBy<P, A>(lang: Language<P, A>, p: PolicyState<P>, actions: seq<Action>): PolicyState<P>
    decreases |actions|
  {
    if actions == [] then p else ReducedBy(lang, ReducePolicy(lang, p, actions[0]), actions[1..])
  }

  /** A rule in force is marked as a skill's exactly when the run's overrides hold one
      under its key. */
  lemma SkillRulesAreOverridesIff<P, A>(lang: Language<P, A>, made: seq<Action>, granted: seq<Action>, k: string)
    requires var policy := ReducedBy(lang, PolicyState(Ask, map[]), made);
             k in Layered(Some(policy), Some(RunActions(lang, map[], granted, FromSkill))).rules
    ensures var policy := ReducedBy(lang, PolicyState(Ask, map[]), made);
            var overrides := RunActions(lang, map[], granted, FromSkill);
            Layered(Some(policy), Some(overrides)).rules[k].source == FromSkill <==> k in overrides
  {
    PolicyRunIsRun(lang, PolicyState(Ask, map[]), made);
    RunKeepsSource(lang, map[], made, FromRuntime);
    RunKeepsSource(lang, map[], granted, FromSkill);
  }
}
