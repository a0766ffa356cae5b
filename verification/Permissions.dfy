/** Permission rules for tool calls: how they are recorded, layered and decided.
    The language of tool patterns is a parameter. */
module Permissions {
  import opened Options
  import opened KeyedEdits

  datatype Behavior = Allow | Ask | Deny

  datatype Subject<P> = Tool(toolId: string) | Pattern(pattern: P)

  datatype Source = FromRuntime | FromSkill

  datatype Rule<P> = Rule(subject: Subject<P>, behavior: Behavior, source: Source)

  datatype Specificity = Specificity(toolKind: nat, hasArgs: bool, fieldCount: nat, fieldPrecision: nat)

  /** How patterns are written, read and matched against a call. */
  datatype Language<!P, !A> = Language(
    show: P -> string,
    parse: string -> Option<P>,
    matching: (P, string, A) -> Option<Specificity>)

  function Key<P, A>(lang: Language<P, A>, subject: Subject<P>): string {
    match subject
    case Tool(id) => "tool:" + id
    case Pattern(p) => "pattern:" + lang.show(p)
  }

  /** Subjects of different kinds never share a key. */
  lemma KeysAgreeIff<P, A>(lang: Language<P, A>, a: Subject<P>, b: Subject<P>)
    ensures Key(lang, a) == Key(lang, b) <==>
            (a.Tool? && b.Tool? && a.toolId == b.toolId) ||
            (a.Pattern? && b.Pattern? && lang.show(a.pattern) == lang.show(b.pattern))
  {
    var x, y := Key(lang, a), Key(lang, b);
    assert if a.Tool? then x[0] == 't' && x[5..] == a.toolId else x[0] == 'p' && x[8..] == lang.show(a.pattern);
    assert if b.Tool? then y[0] == 't' && y[5..] == b.toolId else y[0] == 'p' && y[8..] == lang.show(b.pattern);
  }

  type Rules<P> = map<string, Rule<P>>

  // ------------------------------------------------------------------
  // Reducers
  // ------------------------------------------------------------------

  datatype Action =
    | SetDefault(behavior: Behavior)
    | SetTool(toolId: string, toolBehavior: Behavior)
    | SetRule(text: string, ruleBehavior: Behavior)
    | RemoveTool(removedTool: string)
    | RemoveRule(removedText: string)
    | ClearTools
    | AllowTool(allowedTool: string)
    | DenyTool(deniedTool: string)

  function ToolRule<P>(toolId: string, behavior: Behavior, source: Source): Rule<P> {
    Rule(Tool(toolId), behavior, source)
  }

  /** What an action decides about the rules. Text that is no pattern decides nothing. */
  function RuleEdit<P, A>(lang: Language<P, A>, a: Action, source: Source): Edit<string, Rule<P>> {
    match a
    case SetDefault(_) => Edit(false, map[])
    case SetTool(id, b) => Edit(false, map["tool:" + id := Some(ToolRule(id, b, source))])
    case AllowTool(id) => Edit(false, map["tool:" + id := Some(ToolRule(id, Allow, source))])
    case DenyTool(id) => Edit(false, map["tool:" + id := Some(ToolRule(id, Deny, source))])
    case RemoveTool(id) => Edit(false, map["tool:" + id := None])
    case SetRule(text, b) =>
      var p := lang.parse(text);
      if p.None? then Edit(false, map[])
      else Edit(false, map["pattern:" + lang.show(p.value) := Some(Rule(Pattern(p.value), b, source))])
    case RemoveRule(text) =>
      var p := lang.parse(text);
      if p.None? then Edit(false, map[]) else Edit(false, map["pattern:" + lang.show(p.value) := None])
    case ClearTools => Edit(true, map[])
  }

  datatype PolicyState<P> = PolicyState(defaultBehavior: Behavior, rules: Rules<P>)

  function ReducePolicy<P, A>(lang: Language<P, A>, p: PolicyState<P>, a: Action): PolicyState<P> {
    PolicyState(if a.SetDefault? then a.behavior else p.defaultBehavior,
                Perform(p.rules, RuleEdit(lang, a, FromRuntime)))
  }

  /** The rules of a thread's policy or of a run's overrides. */
  class RuleTable<P> {
    var rules: Rules<P>

    constructor ()
      ensures rules == map[]
    {
      rules := map[];
    }

    method UpsertTool(toolId: string, behavior: Behavior, source: Source)
      modifies this
      ensures rules == old(rules)["tool:" + toolId := ToolRule(toolId, behavior, source)]
    {
      var rule := ToolRule(toolId, behavior, source);
      rules := rules["tool:" + toolId := rule];
    }

    method ReduceRules<A>(lang: Language<P, A>, action: Action, source: Source)
      modifies this
      ensures rules == Perform(old(rules), RuleEdit(lang, action, source))
    {
      match action {
        case SetTool(id, behavior) => UpsertTool(id, behavior, source);
        case AllowTool(id) => UpsertTool(id, Allow, source);
        case DenyTool(id) => UpsertTool(id, Deny, source);
        case SetRule(text, behavior) =>
          var parsed := lang.parse(text);
          if parsed.Some? {
            var rule := Rule(Pattern(parsed.value), behavior, source);
            rules := rules[Key(lang, rule.subject) := rule];
          }
        case RemoveTool(id) =>
          var subject: Subject<P> := Tool(id);
          rules := rules - {Key(lang, subject)};
        case RemoveRule(text) =>
          var parsed := lang.parse(text);
          if parsed.Some? {
            rules := rules - {Key(lang, Pattern(parsed.value))};
          }
        case ClearTools => rules := map[];
        case SetDefault(_) =>
      }
    }
  }

  class Policy<P> {
    var defaultBehavior: Behavior
    const table: RuleTable<P>

    function Value(): PolicyState<P>
      reads this, table
    {
      PolicyState(defaultBehavior, table.rules)
    }

    constructor ()
      ensures Value() == PolicyState(Ask, map[]) && fresh(table)
    {
      defaultBehavior := Ask;
      table := new RuleTable();
    }

    method Reduce<A>(lang: Language<P, A>, action: Action)
      modifies this, table
      ensures Value() == ReducePolicy(lang, old(Value()), action)
    {
      if action.SetDefault? {
        defaultBehavior := action.behavior;
        return;
      }
      table.ReduceRules(lang, action, FromRuntime);
    }
  }

  /** Every rule is recorded under the key of its own subject. */
  predicate KeyedBySubject<P, A>(lang: Language<P, A>, rules: Rules<P>) {
    forall k :: k in rules ==> Key(lang, rules[k].subject) == k
  }

  lemma ReduceKeepsKeys<P, A>(lang: Language<P, A>, rules: Rules<P>, a: Action, source: Source)
    requires KeyedBySubject(lang, rules)
    ensures KeyedBySubject(lang, Perform(rules, RuleEdit(lang, a, source)))
  {
  }

  function RunActions<P, A>(lang: Language<P, A>, rules: Rules<P>, actions: seq<Action>, source: Source): Rules<P>
    decreases |actions|
  {
    if actions == [] then rules
    else RunActions(lang, Perform(rules, RuleEdit(lang, actions[0], source)), actions[1..], source)
  }

  lemma {:induction false} RunKeepsKeys<P, A>(lang: Language<P, A>, rules: Rules<P>, actions: seq<Action>,
                                              source: Source)
    requires KeyedBySubject(lang, rules)
    ensures KeyedBySubject(lang, RunActions(lang, rules, actions, source))
    decreases |actions|
  {
    if actions != [] {
      ReduceKeepsKeys(lang, rules, actions[0], source);
      RunKeepsKeys(lang, Perform(rules, RuleEdit(lang, actions[0], source)), actions[1..], source);
    }
  }

  function PatternKey<P, A>(lang: Language<P, A>, text: string): Option<string> {
    var p := lang.parse(text);
    if p.Some? then Some("pattern:" + lang.show(p.value)) else None
  }

  /** The one rule an action sets or removes, by its key; none for the other actions. */
  function Target<P, A>(lang: Language<P, A>, a: Action): Option<string> {
    match a
    case SetTool(id, _) => Some("tool:" + id)
    case AllowTool(id) => Some("tool:" + id)
    case DenyTool(id) => Some("tool:" + id)
    case RemoveTool(id) => Some("tool:" + id)
    case SetRule(text, _) => PatternKey(lang, text)
    case RemoveRule(text) => PatternKey(lang, text)
    case _ => None
  }

  /** What it leaves there: no rule, or one for this subject with this behavior. */
  function Left<P, A>(lang: Language<P, A>, a: Action): Option<(Subject<P>, Behavior)> {
    match a
    case SetTool(id, b) => Some((Tool(id), b))
    case AllowTool(id) => Some((Tool(id), Allow))
    case DenyTool(id) => Some((Tool(id), Deny))
    case SetRule(text, b) => if lang.parse(text).Some? then Some((Pattern(lang.parse(text).value), b)) else None
    case _ => None
  }

  /** Whether what two actions do to the rules can be done in either order: they have
      different targets or leave the same there, and neither sets what the other clears. */
  predicate RulesIndependent<P(==), A>(lang: Language<P, A>, a: Action, b: Action) {
    (a.ClearTools? ==> Left(lang, b).None?) &&
    (b.ClearTools? ==> Left(lang, a).None?) &&
    (Target(lang, a).Some? && Target(lang, a) == Target(lang, b) ==> Left(lang, a) == Left(lang, b))
  }

  lemma EditOfTarget<P, A>(lang: Language<P, A>, a: Action, source: Source)
    ensures var e, t, left := RuleEdit(lang, a, source), Target(lang, a), Left(lang, a);
            e.clears == a.ClearTools? &&
            (t.None? ==> e.puts == map[] && left.None?) &&
            (t.Some? ==>
              e.puts == map[t.value := if left.None? then None else Some(Rule(left.value.0, left.value.1, source))])
  {
  }

  lemma AgreeIff<P(!new), A>(lang: Language<P, A>, a: Action, b: Action, source: Source)
    ensures Agree(RuleEdit(lang, a, source), RuleEdit(lang, b, source)) <==> RulesIndependent(lang, a, b)
  {
    var e, f := RuleEdit(lang, a, source), RuleEdit(lang, b, source);
    EditOfTarget(lang, a, source);
    EditOfTarget(lang, b, source);
    if Agree(e, f) {
      AgreementAt(e, f, Target(lang, a));
      AgreementAt(e, f, Target(lang, b));
    }
  }

  lemma AgreementAt<P(!new)>(e: Edit<string, Rule<P>>, f: Edit<string, Rule<P>>, key: Option<string>)
    requires Agree(e, f)
    ensures key.Some? && Decides(e, key.value) && Decides(f, key.value) ==>
      Decision(e, key.value) == Decision(f, key.value)
  {
  }

  predicate Independent<P(==), A>(lang: Language<P, A>, a: Action, b: Action) {
    (a.SetDefault? && b.SetDefault? ==> a == b) && RulesIndependent(lang, a, b)
  }

  /** The key of the policy is declared to take its updates in any order. Two of them
      commute exactly when they do not set different defaults and are independent on
      the rules. */
  lemma PolicyActionsCommuteIff<P(!new), A>(lang: Language<P, A>, p: PolicyState<P>, a: Action, b: Action)
    ensures ReducePolicy(lang, ReducePolicy(lang, p, a), b) == ReducePolicy(lang, ReducePolicy(lang, p, b), a)
            <==> Independent(lang, a, b)
  {
    CommuteIff(p.rules, RuleEdit(lang, a, FromRuntime), RuleEdit(lang, b, FromRuntime));
    AgreeIff(lang, a, b, FromRuntime);
  }

  /** So is the key of the overrides, which have no default to set. */
  lemma OverrideActionsCommuteIff<P(!new), A>(lang: Language<P, A>, rules: Rules<P>, a: Action, b: Action)
    ensures Perform(Perform(rules, RuleEdit(lang, a, FromSkill)), RuleEdit(lang, b, FromSkill))
              == Perform(Perform(rules, RuleEdit(lang, b, FromSkill)), RuleEdit(lang, a, FromSkill)) <==>
            RulesIndependent(lang, a, b)
  {
    CommuteIff(rules, RuleEdit(lang, a, FromSkill), RuleEdit(lang, b, FromSkill));
    AgreeIff(lang, a, b, FromSkill);
  }

  /** Clearing the rules does not commute with setting one. */
  lemma ClearCommutesIff<P(!new), A>(lang: Language<P, A>, p: PolicyState<P>, a: Action)
    ensures ReducePolicy(lang, ReducePolicy(lang, p, a), ClearTools)
              == ReducePolicy(lang, ReducePolicy(lang, p, ClearTools), a) <==>
            !(a.SetTool? || a.AllowTool? || a.DenyTool? || (a.SetRule? && lang.parse(a.text).Some?))
  {
    PolicyActionsCommuteIff(lang, p, a, ClearTools);
  }

  // ------------------------------------------------------------------
  // Decisions
  // ------------------------------------------------------------------

  function Priority(b: Behavior): nat {
    match b
    case Deny => 2
    case Allow => 1
    case Ask => 0
  }

  predicate LessSpecific(a: Specificity, b: Specificity) {
    a.toolKind < b.toolKind || (a.toolKind == b.toolKind && (
      (!a.hasArgs && b.hasArgs) || (a.hasArgs == b.hasArgs && (
        a.fieldCount < b.fieldCount || (a.fieldCount == b.fieldCount && a.fieldPrecision < b.fieldPrecision)))))
  }

  datatype Call<A> = Call(toolId: string, args: A)

  const EXACT_TOOL := Specificity(3, false, 0, 0)

  function Match<P, A>(lang: Language<P, A>, rule: Rule<P>, call: Call<A>): Option<Specificity> {
    match rule.subject
    case Tool(id) => if id == call.toolId then Some(EXACT_TOOL) else None
    case Pattern(p) => lang.matching(p, call.toolId, call.args)
  }

  /** Two matching rules in the order of evaluation: by behavior, then by specificity. */
  predicate Below<P, A>(lang: Language<P, A>, call: Call<A>, a: Rule<P>, b: Rule<P>)
    requires Match(lang, a, call).Some? && Match(lang, b, call).Some?
  {
    Priority(a.behavior) < Priority(b.behavior) ||
    (Priority(a.behavior) == Priority(b.behavior) &&
     LessSpecific(Match(lang, a, call).value, Match(lang, b, call).value))
  }

  /** A rule recorded among these keys that matches and that no other matching one outranks. */
  predicate IsBest<P, A>(lang: Language<P, A>, rules: Rules<P>, keys: set<string>, call: Call<A>, k: string)
    requires keys <= rules.Keys
  {
    k in keys && Match(lang, rules[k], call).Some? &&
    forall j :: j in keys && Match(lang, rules[j], call).Some? ==> !Below(lang, call, rules[k], rules[j])
  }

  /** Looks at the rules in no particular order; among equals the one met last wins. */
  method RuleForToolCall<P, A>(lang: Language<P, A>, rules: Rules<P>, call: Call<A>)
    returns (found: bool, best: string)
    ensures found <==> exists k :: k in rules && Match(lang, rules[k], call).Some?
    ensures found ==> IsBest(lang, rules, rules.Keys, call, best)
  {
    found, best := false, "";
    var todo, seen := rules.Keys, {};
    while todo != {}
      invariant seen + todo == rules.Keys
      invariant !found ==> forall k :: k in seen ==> Match(lang, rules[k], call).None?
      invariant found ==> IsBest(lang, rules, seen, call, best)
      decreases todo
    {
      var k :| k in todo;
      todo, seen := todo - {k}, seen + {k};
      var specificity := Match(lang, rules[k], call);
      if specificity.Some? && (!found || !Below(lang, call, rules[k], rules[best])) {
        found, best := true, k;
      }
    }
  }

  /** Whether a rule with this behavior matches. */
  predicate Applies<P, A>(lang: Language<P, A>, rules: Rules<P>, call: Call<A>, b: Behavior) {
    exists k :: k in rules && rules[k].behavior == b && Match(lang, rules[k], call).Some?
  }

  /** What the rules mean, without any order: a denial wins over a permission, a
      permission over a question, and any rule over the default. */
  function Verdict<P, A>(lang: Language<P, A>, p: PolicyState<P>, call: Call<A>): Behavior {
    if Applies(lang, p.rules, call, Deny) then Deny
    else if Applies(lang, p.rules, call, Allow) then Allow
    else if Applies(lang, p.rules, call, Ask) then Ask
    else p.defaultBehavior
  }

  /** Whichever best rule the iteration finds, its behavior and specificity are the same. */
  lemma BestRulesAgree<P, A>(lang: Language<P, A>, rules: Rules<P>, call: Call<A>, j: string, k: string)
    requires IsBest(lang, rules, rules.Keys, call, j) && IsBest(lang, rules, rules.Keys, call, k)
    ensures rules[j].behavior == rules[k].behavior
    ensures Match(lang, rules[j], call) == Match(lang, rules[k], call)
  {
    assert !Below(lang, call, rules[j], rules[k]) && !Below(lang, call, rules[k], rules[j]);
  }

  lemma BestRuleGivesVerdict<P, A>(lang: Language<P, A>, p: PolicyState<P>, call: Call<A>, k: string)
    requires IsBest(lang, p.rules, p.rules.Keys, call, k)
    ensures p.rules[k].behavior == Verdict(lang, p, call)
  {
    var b := Verdict(lang, p, call);
    assert Applies(lang, p.rules, call, p.rules[k].behavior);
    if Applies(lang, p.rules, call, b) {
      var j :| j in p.rules && p.rules[j].behavior == b && Match(lang, p.rules[j], call).Some?;
      assert !Below(lang, call, p.rules[k], p.rules[j]);
    }
  }

  method EvaluateToolPermission<P, A>(lang: Language<P, A>, p: PolicyState<P>, call: Call<A>)
    returns (behavior: Behavior)
    ensures behavior == Verdict(lang, p, call)
  {
    var found, best := RuleForToolCall(lang, p.rules, call);
    if found {
      BestRuleGivesVerdict(lang, p, call, best);
      behavior := p.rules[best].behavior;
    } else {
      behavior := p.defaultBehavior;
    }
  }

  // ------------------------------------------------------------------
  // Layers
  // ------------------------------------------------------------------

  /** A run's overrides laid over the thread's policy. */
  function Layered<P>(policy: Option<PolicyState<P>>, overrides: Option<Rules<P>>): PolicyState<P> {
    var base := if policy.Some? then policy.value else PolicyState(Ask, map[]);
    if overrides.Some? then base.(rules := base.rules + overrides.value) else base
  }

  method PermissionRulesFromState<P>(policy: Option<PolicyState<P>>, overrides: Option<Rules<P>>)
    returns (ruleset: PolicyState<P>)
    ensures ruleset == Layered(policy, overrides)
  {
    ruleset := PolicyState(Ask, map[]);
    if policy.Some? {
      ruleset := PolicyState(policy.value.defaultBehavior, ruleset.rules + policy.value.rules);
      assert ruleset.rules == policy.value.rules;
    }
    if overrides.Some? {
      ghost var base := ruleset.rules;
      var o := overrides.value;
      var todo, done := o.Keys, {};
      while todo != {}
        invariant done + todo == o.Keys && done !! todo
        invariant ruleset.defaultBehavior == (if policy.Some? then policy.value.defaultBehavior else Ask)
        invariant ruleset.rules == base + (map k | k in done :: o[k])
        decreases todo
      {
        var k :| k in todo;
        todo, done := todo - {k}, done + {k};
        ruleset := ruleset.(rules := ruleset.rules[k := o[k]]);
      }
      assert (map k | k in done :: o[k]) == o;
    }
  }

  /** A call is denied exactly when an override denies it, or a denying rule of the
      policy matches whose key no override has, or nothing matches and that is the
      default. */
  lemma LayeredDenyIff<P, A>(lang: Language<P, A>, policy: PolicyState<P>, overrides: Rules<P>, call: Call<A>)
    ensures var merged := Layered(Some(policy), Some(overrides));
            Verdict(lang, merged, call) == Deny <==>
            Applies(lang, overrides, call, Deny) ||
            Applies(lang, policy.rules - overrides.Keys, call, Deny) ||
            (policy.defaultBehavior == Deny &&
             forall k :: k in merged.rules ==> Match(lang, merged.rules[k], call).None?)
  {
    var merged := Layered(Some(policy), Some(overrides)).rules;
    var exposed := policy.rules - overrides.Keys;
    assert Applies(lang, merged, call, Deny) <==>
           Applies(lang, overrides, call, Deny) || Applies(lang, exposed, call, Deny) by {
      if k :| k in overrides && overrides[k].behavior == Deny && Match(lang, overrides[k], call).Some? {
        assert merged[k] == overrides[k];
      }
      if k :| k in exposed && exposed[k].behavior == Deny && Match(lang, exposed[k], call).Some? {
        assert merged[k] == exposed[k];
      }
      if k :| k in merged && merged[k].behavior == Deny && Match(lang, merged[k], call).Some? {
        if k in overrides { assert merged[k] == overrides[k]; } else { assert merged[k] == exposed[k]; }
      }
    }
    if k :| k in merged && Match(lang, merged[k], call).Some? {
      assert Applies(lang, merged, call, merged[k].behavior);
    }
  }

  /** Granting and revoking tools by name cannot lift a denial by pattern. */
  lemma ToolOverridesKeepPatternDenials<P, A>(lang: Language<P, A>, policy: PolicyState<P>, overrides: Rules<P>,
                                              call: Call<A>, k: string)
    requires KeyedBySubject(lang, policy.rules) && KeyedBySubject(lang, overrides)
    requires forall j :: j in overrides ==> overrides[j].subject.Tool?
    requires k in policy.rules && policy.rules[k].subject.Pattern? && policy.rules[k].behavior == Deny
    requires Match(lang, policy.rules[k], call).Some?
    ensures Verdict(lang, Layered(Some(policy), Some(overrides)), call) == Deny
  {
    var merged := Layered(Some(policy), Some(overrides)).rules;
    if k in overrides {
      KeysAgreeIff(lang, policy.rules[k].subject, overrides[k].subject);
    }
    assert k in merged && merged[k] == policy.rules[k];
  }

  lemma {:induction false} ToolActionsMakeToolRules<P, A>(lang: Language<P, A>, rules: Rules<P>,
                                                          actions: seq<Action>, source: Source)
    requires forall k :: k in rules ==> rules[k].subject.Tool?
    requires forall i :: 0 <= i < |actions| ==> !actions[i].SetRule?
    ensures forall k :: k in RunActions(lang, rules, actions, source) ==>
      RunActions(lang, rules, actions, source)[k].subject.Tool?
    decreases |actions|
  {
    if actions != [] {
      assert !actions[0].SetRule?;
      ToolActionsMakeToolRules(lang, Perform(rules, RuleEdit(lang, actions[0], source)), actions[1..], source);
    }
  }

  /** Whatever actions made the policy, and whatever actions on tools made the
      overrides: a matching denial by pattern in the policy stays in force. */
  lemma PatternDenialsOutlastToolActions<P, A>(lang: Language<P, A>, defaultBehavior: Behavior,
                                               made: seq<Action>, granted: seq<Action>, call: Call<A>, k: string)
    requires forall i :: 0 <= i < |granted| ==> !granted[i].SetRule?
    requires var rules := RunActions(lang, map[], made, FromRuntime);
             k in rules && rules[k].subject.Pattern? && rules[k].behavior == Deny && Match(lang, rules[k], call).Some?
    ensures var policy := PolicyState(defaultBehavior, RunActions(lang, map[], made, FromRuntime));
            var overrides := RunActions(lang, map[], granted, FromSkill);
            Verdict(lang, Layered(Some(policy), Some(overrides)), call) == Deny
  {
    var policy := PolicyState(defaultBehavior, RunActions(lang, map[], made, FromRuntime));
    var overrides := RunActions(lang, map[], granted, FromSkill);
    RunKeepsKeys(lang, map[], made, FromRuntime);
    RunKeepsKeys(lang, map[], granted, FromSkill);
    ToolActionsMakeToolRules(lang, map[], granted, FromSkill);
    ToolOverridesKeepPatternDenials(lang, policy, overrides, call, k);
  }
}
