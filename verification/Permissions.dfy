/** Gate two: the per-agent permission matrix, compiled once and scanned per call. */
module Permissions {
  import opened Prelude
  import opened StableSort

  const WILDCARD := "*"

  datatype Effect = Allow | Deny | UnknownEffect(text: string)

  datatype Permission = Permission(agentKind: string, tool: string, action: string, effect: Effect) {
    predicate Matches(t: string, a: string) {
      (tool == WILDCARD || tool == t) && (action == WILDCARD || action == a)
    }

    function Specificity(): nat {
      (if tool != WILDCARD then 2 else 0) + (if action != WILDCARD then 1 else 0)
    }
  }

  datatype Matrix = Matrix(byAgent: map<string, seq<Permission>>) {
    function Rules(kind: string): seq<Permission> {
      if kind in byAgent then byAgent[kind] else []
    }

    /** Verdict and the rule that produced it; no rule means denied by default. */
    function Allows(kind: string, tool: string, action: string): (bool, Option<Permission>) {
      match First((r: Permission) => r.Matches(tool, action), Rules(kind))
      case None => (false, None)
      case Some(r) => (r.effect == Allow, Some(r))
    }
  }

  function Earlier(a: Permission, b: Permission): bool {
    if a.Specificity() != b.Specificity() then a.Specificity() > b.Specificity()
    else a.effect == Deny && b.effect != Deny
  }

  function OfKind(rules: seq<Permission>, kind: string): seq<Permission> {
    if rules == [] then []
    else
      var front := OfKind(rules[..|rules| - 1], kind);
      var last := rules[|rules| - 1];
      if last.agentKind == kind then front + [last] else front
  }

  /** Each agent's rules, in the order a lookup resolves them. */
  function Compile(rules: seq<Permission>): Matrix {
    Matrix(map r | r in rules :: r.agentKind := Sort(Earlier, OfKind(rules, r.agentKind)))
  }

  method CompilePermissions(rules: seq<Permission>) returns (m: Matrix)
    ensures m == Compile(rules)
  {
    var grouped := GroupByAgent(rules);
    var byAgent := SortEach(grouped);
    m := Matrix(byAgent);
    assert forall k | k in byAgent :: byAgent[k] == Compile(rules).byAgent[k];
  }

  /** Sorts every agent's rules, in whatever order the map gives the agents. */
  method SortEach(grouped: map<string, seq<Permission>>) returns (byAgent: map<string, seq<Permission>>)
    ensures byAgent.Keys == grouped.Keys
    ensures forall k | k in byAgent :: byAgent[k] == Sort(Earlier, grouped[k])
  {
    byAgent := grouped;
    var todo := byAgent.Keys;
    while todo != {}
      invariant todo <= byAgent.Keys == grouped.Keys
      invariant forall k | k in byAgent :: byAgent[k] == if k in todo then grouped[k] else Sort(Earlier, grouped[k])
    {
      var k :| k in todo;
      byAgent := byAgent[k := Sort(Earlier, byAgent[k])];
      todo := todo - {k};
    }
  }

  /** Each agent's rules, in list order. */
  method GroupByAgent(rules: seq<Permission>) returns (byAgent: map<string, seq<Permission>>)
    ensures byAgent.Keys == set r | r in rules :: r.agentKind
    ensures forall k | k in byAgent :: byAgent[k] == OfKind(rules, k)
  {
    byAgent := map[];
    for i := 0 to |rules|
      invariant byAgent.Keys == set r | r in rules[..i] :: r.agentKind
      invariant forall k | k in byAgent :: byAgent[k] == OfKind(rules[..i], k)
    {
      var r := rules[i];
      assert rules[..i + 1] == rules[..i] + [r];
      assert rules[..i + 1][..i] == rules[..i];
      if r.agentKind !in byAgent { NoneOfKind(rules[..i], r.agentKind); }
      byAgent := byAgent[r.agentKind := Matrix(byAgent).Rules(r.agentKind) + [r]];
    }
    assert rules[..|rules|] == rules;
  }

  lemma {:induction false} NoneOfKind(rules: seq<Permission>, kind: string)
    requires forall r | r in rules :: r.agentKind != kind
    ensures OfKind(rules, kind) == []
  {
    if rules != [] {
      assert rules[|rules| - 1] in rules;
      NoneOfKind(rules[..|rules| - 1], kind);
    }
  }

  lemma CompiledRules(rules: seq<Permission>, kind: string)
    ensures Compile(rules).Rules(kind) == Sort(Earlier, OfKind(rules, kind))
  {
    if !exists r | r in rules :: r.agentKind == kind { NoneOfKind(rules, kind); }
  }

  // ---- what the matrix means, without sorting or scanning ----

  predicate Applies(r: Permission, kind: string, tool: string, action: string) {
    r.agentKind == kind && r.Matches(tool, action)
  }

  /** r applies and nothing that applies is more specific. */
  ghost predicate MostSpecific(rules: seq<Permission>, r: Permission, kind: string, tool: string, action: string) {
    && r in rules && Applies(r, kind, tool, action)
    && forall o | o in rules && Applies(o, kind, tool, action) :: o.Specificity() <= r.Specificity()
  }

  /** Some rule applies, and every most specific one says allow. */
  ghost predicate Granted(rules: seq<Permission>, kind: string, tool: string, action: string) {
    && (exists r :: MostSpecific(rules, r, kind, tool, action))
    && (forall r | MostSpecific(rules, r, kind, tool, action) :: r.effect == Allow)
  }

  /** What the table's CHECK constraint on `effect` guarantees. */
  ghost predicate KnownEffects(rules: seq<Permission>) {
    forall r | r in rules :: r.effect == Allow || r.effect == Deny
  }

  lemma {:induction false} OfKindMembers(rules: seq<Permission>, kind: string)
    ensures forall r :: r in OfKind(rules, kind) <==> r in rules && r.agentKind == kind
  {
    if rules != [] {
      OfKindMembers(rules[..|rules| - 1], kind);
      assert rules == rules[..|rules| - 1] + [rules[|rules| - 1]];
    }
  }

  /** An allow rule is most specific and no equally specific denial stands against it. */
  ghost predicate WonByAllow(rules: seq<Permission>, kind: string, tool: string, action: string) {
    && (exists r :: MostSpecific(rules, r, kind, tool, action) && r.effect == Allow)
    && (forall r | MostSpecific(rules, r, kind, tool, action) :: r.effect != Deny)
  }

  /** The compiled scan returns a most specific applicable rule, a denial if there is one. */
  lemma AllowsPicksABestRule(rules: seq<Permission>, kind: string, tool: string, action: string)
    ensures var (ok, rule) := Compile(rules).Allows(kind, tool, action);
            && (rule.None? <==> forall r | r in rules :: !Applies(r, kind, tool, action))
            && (rule.Some? ==> MostSpecific(rules, rule.value, kind, tool, action))
            && (rule.Some? && rule.value.effect != Deny ==>
                  forall r | MostSpecific(rules, r, kind, tool, action) :: r.effect != Deny)
            && (ok <==> rule.Some? && rule.value.effect == Allow)
            && (ok ==> WonByAllow(rules, kind, tool, action))
  {
    var mine := OfKind(rules, kind);
    var p := (r: Permission) => r.Matches(tool, action);
    CompiledRules(rules, kind);
    OfKindMembers(rules, kind);
    var w := SortThenScan(Earlier, p, mine);
    var first := First(p, Sort(Earlier, mine));
    if first.Some? {
      forall r | r in rules && Applies(r, kind, tool, action)
        ensures r == mine[w] || !Earlier(r, mine[w]) {
        var j :| 0 <= j < |mine| && mine[j] == r;
        assert j < w || w < j || j == w;
      }
      assert mine[w] in mine;
    } else {
      forall r | r in rules ensures !Applies(r, kind, tool, action) {
        if r in mine { var j :| 0 <= j < |mine| && mine[j] == r; }
      }
    }
  }

  /** Compilation refines the declarative reading. */
  lemma AllowsIsGranted(rules: seq<Permission>, kind: string, tool: string, action: string)
    requires KnownEffects(rules)
    ensures Compile(rules).Allows(kind, tool, action).0 <==> Granted(rules, kind, tool, action)
  {
    AllowsPicksABestRule(rules, kind, tool, action);
    if Compile(rules).Allows(kind, tool, action).1.None? {
      forall r ensures !MostSpecific(rules, r, kind, tool, action) {}
    }
  }

  lemma ListOrderIsIrrelevant(
      rules: seq<Permission>, rules': seq<Permission>, kind: string, tool: string, action: string)
    requires KnownEffects(rules) && multiset(rules) == multiset(rules')
    ensures Compile(rules).Allows(kind, tool, action).0 == Compile(rules').Allows(kind, tool, action).0
  {
    forall r ensures r in rules <==> r in rules' {
      assert r in multiset(rules) <==> r in multiset(rules');
    }
    AllowsIsGranted(rules, kind, tool, action);
    AllowsIsGranted(rules', kind, tool, action);
    forall r ensures MostSpecific(rules, r, kind, tool, action) <==> MostSpecific(rules', r, kind, tool, action) {}
  }

  /** Adding a denial never enlarges the allowed set; adding an allowance never shrinks it. */
  lemma AddingARuleIsMonotone(
      rules: seq<Permission>, extra: Permission, at: nat, kind: string, tool: string, action: string)
    requires at <= |rules| && KnownEffects(rules)
    ensures var before := Compile(rules).Allows(kind, tool, action).0;
            var after := Compile(rules[..at] + [extra] + rules[at..]).Allows(kind, tool, action).0;
            && (extra.effect == Deny && after ==> before)
            && (extra.effect == Allow && before ==> after)
  {
    var rules' := rules[..at] + [extra] + rules[at..];
    assert rules == rules[..at] + rules[at..];
    assert forall r :: r in rules' <==> r in rules || r == extra;
    AllowsPicksABestRule(rules, kind, tool, action);
    AllowsPicksABestRule(rules', kind, tool, action);
    forall r | r in rules && MostSpecific(rules', r, kind, tool, action)
      ensures MostSpecific(rules, r, kind, tool, action) {}
    forall r | MostSpecific(rules, r, kind, tool, action) && !MostSpecific(rules', r, kind, tool, action)
      ensures Applies(extra, kind, tool, action) && extra.Specificity() > r.Specificity() {}
  }

  lemma TiesGoToTheFirstListed(a: Permission, b: Permission, tool: string, action: string)
    requires a.agentKind == b.agentKind && a.Specificity() == b.Specificity() && a.Matches(tool, action)
    requires a.effect != Deny && b.effect != Deny
    ensures Compile([a, b]).Allows(a.agentKind, tool, action) == (a.effect == Allow, Some(a))
  {
    var kind := a.agentKind;
    CompiledRules([a, b], kind);
    assert OfKind([a, b], kind) == [a, b] by {
      assert [a, b][..1] == [a] && [a][..0] == [];
      assert OfKind([a], kind) == OfKind([], kind) + [a];
    }
    assert Sort(Earlier, [a, b]) == [a, b] by {
      assert [a, b][1..] == [b] && [b][1..] == [];
      assert Sort(Earlier, [b]) == [b];
    }
  }

  /** With an effect the table would refuse, the verdict does depend on list order. */
  lemma UnknownEffectsMakeOrderMatter(a: Permission, u: Permission, tool: string, action: string)
    requires a.agentKind == u.agentKind && a.tool == u.tool && a.action == u.action && a.Matches(tool, action)
    requires a.effect == Allow && u.effect.UnknownEffect?
    ensures Compile([a, u]).Allows(a.agentKind, tool, action).0
    ensures !Compile([u, a]).Allows(a.agentKind, tool, action).0
  {
    TiesGoToTheFirstListed(a, u, tool, action);
    TiesGoToTheFirstListed(u, a, tool, action);
  }

  // ---- the wildcard scheme, case by case ----

  /** What a rule covers, by the shape it is written in. */
  lemma FourShapes(kind: string, t: string, a: string, effect: Effect, tool: string, action: string)
    requires t != "*" && a != "*"
    ensures Permission(kind, t, a, effect).Matches(tool, action) <==> tool == t && action == a
    ensures Permission(kind, t, "*", effect).Matches(tool, action) <==> tool == t
    ensures Permission(kind, "*", a, effect).Matches(tool, action) <==> action == a
    ensures Permission(kind, "*", "*", effect).Matches(tool, action)
  {
  }

  /** How narrow a rule's scope is: exact, then naming the tool, then naming the action, then blanket. */
  function Narrowness(r: Permission): nat {
    match (r.tool == WILDCARD, r.action == WILDCARD)
    case (false, false) => 3
    case (false, true) => 2
    case (true, false) => 1
    case (true, true) => 0
  }

  /** A narrower rule wins, and at equal scope a denial. */
  predicate Beats(a: Permission, b: Permission) {
    Narrowness(a) > Narrowness(b) || (Narrowness(a) == Narrowness(b) && a.effect == Deny && b.effect != Deny)
  }

  /** The rule that decides is one of the agent's that covers the call, and no such rule beats it. */
  lemma DecidingRuleIsUnbeaten(rules: seq<Permission>, kind: string, tool: string, action: string)
    ensures var (ok, rule) := Compile(rules).Allows(kind, tool, action);
            && (ok <==> rule.Some? && rule.value.effect == Allow)
            && (rule.None? <==> forall r | r in rules && r.agentKind == kind :: !r.Matches(tool, action))
            && (rule.Some? ==> rule.value in rules && rule.value.agentKind == kind && rule.value.Matches(tool, action))
            && (rule.Some? ==> forall r | r in rules && r.agentKind == kind && r.Matches(tool, action) ::
                                 !Beats(r, rule.value))
  {
    AllowsPicksABestRule(rules, kind, tool, action);
    var rule := Compile(rules).Allows(kind, tool, action).1;
    if rule.Some? {
      forall r | r in rules && r.agentKind == kind && r.Matches(tool, action) ensures !Beats(r, rule.value) {
        assert Applies(r, kind, tool, action);
        if r.Specificity() == rule.value.Specificity() { assert MostSpecific(rules, r, kind, tool, action); }
      }
    }
  }
}
