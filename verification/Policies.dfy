/** Gate three: the policy that governs an action, and the autonomy ruling it leads to. */
module Policies {
  import opened Prelude
  import opened StableSort
  import opened Verdicts
  import Permissions

  datatype Policy = Policy(
    name: string, tool: string, action: string, risk: Risk, requiresApproval: bool,
    minConfidence: real, priority: int, enabled: bool)
  {
    predicate Matches(t: string, a: string) {
      enabled && (tool == Permissions.WILDCARD || tool == t) && (action == Permissions.WILDCARD || action == a)
    }

    function Specificity(): nat {
      (if tool != Permissions.WILDCARD then 2 else 0) + (if action != Permissions.WILDCARD then 1 else 0)
    }

    predicate NeedsApproval(confidence: real) {
      risk == Forbidden || requiresApproval || confidence < minConfidence
    }
  }

  function Earlier(a: Policy, b: Policy): bool {
    if a.Specificity() != b.Specificity() then a.Specificity() > b.Specificity()
    else if a.priority != b.priority then a.priority > b.priority
    else a.risk.Rank() > b.risk.Rank()
  }

  datatype Compiled = Compiled(ordered: seq<Policy>) {
    function For(tool: string, action: string): Option<Policy> {
      First((p: Policy) => p.Matches(tool, action), ordered)
    }
  }

  function Compile(policies: seq<Policy>): Compiled {
    Compiled(Sort(Earlier, policies))
  }

  /** p matches, and no match has a greater (specificity, priority, risk rank). */
  ghost predicate Governs(p: Policy, policies: seq<Policy>, tool: string, action: string) {
    && p in policies && p.Matches(tool, action)
    && forall o | o in policies && o.Matches(tool, action) ::
         || o.Specificity() < p.Specificity()
         || (o.Specificity() == p.Specificity() &&
             (o.priority < p.priority || (o.priority == p.priority && o.risk.Rank() <= p.risk.Rank())))
  }

  lemma ForGoverns(policies: seq<Policy>, tool: string, action: string)
    ensures var f := Compile(policies).For(tool, action);
            && (f.None? <==> forall p | p in policies :: !p.Matches(tool, action))
            && (f.Some? ==> Governs(f.value, policies, tool, action))
  {
    var match_ := (p: Policy) => p.Matches(tool, action);
    var w := SortThenScan(Earlier, match_, policies);
    if Compile(policies).For(tool, action).Some? {
      forall o | o in policies && o.Matches(tool, action) ensures o == policies[w] || !Earlier(o, policies[w]) {
        var j :| 0 <= j < |policies| && policies[j] == o;
        assert j < w || w < j || j == w;
      }
    } else {
      forall p | p in policies ensures !p.Matches(tool, action) {
        var j :| 0 <= j < |policies| && policies[j] == p;
      }
    }
  }

  /** The table's unique index on (tool, action). */
  ghost predicate UniqueKeys(policies: seq<Policy>) {
    forall i, j | 0 <= i < j < |policies| ::
      policies[i].tool != policies[j].tool || policies[i].action != policies[j].action
  }

  /** Under that index exactly one policy can govern, whatever order the rows come in. */
  lemma GoverningPolicyIsUnique(policies: seq<Policy>, p: Policy, tool: string, action: string)
    requires UniqueKeys(policies) && Governs(p, policies, tool, action)
    ensures Compile(policies).For(tool, action) == Some(p)
  {
    ForGoverns(policies, tool, action);
    var q := Compile(policies).For(tool, action).value;
    assert q.Specificity() == p.Specificity();
    assert q.tool == p.tool && q.action == p.action;
  }

  // ---- the ruling ----

  datatype Ruling = Ruling(risk: Risk, decision: Decision, requiresApproval: bool, policy: Option<Policy>)

  /** The configured ceiling; None is "grant no autonomy". */
  function CeilingOf(text: string): Option<Risk> {
    var risk := ParseRisk(text);
    if risk.Unrecognised? || risk == Forbidden then None else Some(risk)
  }

  function Rule(policies: Compiled, ceiling: Option<Risk>, tool: string, action: string, confidence: real): Ruling {
    match policies.For(tool, action)
    case None => Ruling(Forbidden, DeniedPolicy, false, None)
    case Some(p) =>
      if p.risk == Forbidden then Ruling(Forbidden, DeniedPolicy, false, Some(p))
      else if ceiling.None? then Ruling(p.risk, AwaitingApproval, true, Some(p))
      else if !p.risk.AtOrBelow(ceiling.value) then Ruling(p.risk, AwaitingApproval, true, Some(p))
      else if p.requiresApproval then Ruling(p.risk, AwaitingApproval, true, Some(p))
      else if confidence < p.minConfidence then Ruling(p.risk, AwaitingApproval, true, Some(p))
      else Ruling(p.risk, Allowed, false, Some(p))
  }

  lemma OnlyThreeCeilingsGrantAutonomy(text: string)
    ensures (CeilingOf(text) == Some(Low) <==> text == "low") && (CeilingOf(text) == Some(Medium) <==> text == "medium")
    ensures CeilingOf(text) == Some(High) <==> text == "high"
    ensures CeilingOf(text).Some? <==> text in {"low", "medium", "high"}
    ensures CeilingOf(text).Some? ==> CeilingOf(text).value.Rank() < 3
  {
    if text in {"low", "medium", "high"} { assert CeilingOf(text).Some?; }
  }

  /** When an action runs with no human, in terms of the rule list and the two guards. */
  lemma AllowedExactlyWhen(policies: seq<Policy>, ceiling: Option<Risk>, tool: string, action: string, confidence: real)
    ensures var r := Rule(Compile(policies), ceiling, tool, action, confidence);
            && (r.decision == Allowed <==>
                  && r.policy.Some? && Governs(r.policy.value, policies, tool, action)
                  && ceiling.Some? && r.policy.value.risk.AtOrBelow(ceiling.value)
                  && !r.policy.value.NeedsApproval(confidence))
            && (r.decision == DeniedPolicy <==>
                  || (forall p | p in policies :: !p.Matches(tool, action))
                  || (r.policy.Some? && Governs(r.policy.value, policies, tool, action)
                      && r.policy.value.risk == Forbidden))
            && r.decision in {Allowed, DeniedPolicy, AwaitingApproval}
            && (r.requiresApproval <==> r.decision == AwaitingApproval)
            && (r.policy.Some? ==> r.risk == r.policy.value.risk)
  {
    ForGoverns(policies, tool, action);
    var f := Compile(policies).For(tool, action);
    if f.Some? { assert f.value in policies && f.value.Matches(tool, action); }
  }

  function Autonomy(d: Decision): nat {
    if d == Allowed then 2 else if d == AwaitingApproval then 1 else 0
  }

  ghost predicate NoHigher(a: Option<Risk>, b: Option<Risk>) {
    a.None? || (b.Some? && a.value.Rank() <= b.value.Rank())
  }

  /** Lowering the ceiling or the reported confidence never raises the ruling. */
  lemma RulingIsMonotone(policies: seq<Policy>, low: Option<Risk>, high: Option<Risk>,
                         tool: string, action: string, unsure: real, sure: real)
    requires NoHigher(low, high) && unsure <= sure
    ensures Autonomy(Rule(Compile(policies), low, tool, action, unsure).decision)
            <= Autonomy(Rule(Compile(policies), high, tool, action, sure).decision)
    ensures Rule(Compile(policies), low, tool, action, unsure).decision == DeniedPolicy <==>
            Rule(Compile(policies), high, tool, action, sure).decision == DeniedPolicy
  {
    AllowedExactlyWhen(policies, low, tool, action, unsure);
    AllowedExactlyWhen(policies, high, tool, action, sure);
  }

  // ---- the same laws by the names of the tiers ----

  /** The nine pairs of named tiers, and the six in which the ceiling covers the risk. */
  predicate Covers(ceiling: Risk, risk: Risk) {
    (risk, ceiling) in {(Low, Low), (Low, Medium), (Low, High), (Medium, Medium), (Medium, High), (High, High)}
  }

  /** Which actions run with no human, by tier: exactly the covered ones, and never one whose tier is
      forbidden or not recognised. */
  lemma AllowedByTier(
      policies: seq<Policy>, ceiling: Option<Risk>, tool: string, action: string, confidence: real, p: Policy)
    requires Compile(policies).For(tool, action) == Some(p)
    requires ceiling.Some? ==> ceiling.value in {Low, Medium, High}
    ensures Rule(Compile(policies), ceiling, tool, action, confidence).decision == Allowed <==>
            && ceiling.Some? && Covers(ceiling.value, p.risk)
            && !p.requiresApproval && confidence >= p.minConfidence
    ensures Rule(Compile(policies), ceiling, tool, action, confidence).decision == DeniedPolicy <==> p.risk == Forbidden
  {
  }

  /** How dangerous a tier is: a named one by its name, any other like a forbidden one. */
  predicate MoreDangerous(a: Risk, b: Risk) {
    match b
    case Low => a != Low
    case Medium => a != Low && a != Medium
    case High => a == Forbidden || a.Unrecognised?
    case Forbidden => false
    case Unrecognised(_) => false
  }

  /** The shape a policy's scope is written in; a disabled one covers nothing. */
  lemma FourShapes(p: Policy, tool: string, action: string)
    requires tool != "*" && action != "*"
    ensures p.Matches(tool, action) <==>
            p.enabled && (p.tool, p.action) in
              {(tool, action), (tool, "*"), ("*", action), ("*", "*")}
  {
  }

  /** Scope first, then priority, then danger: a match is beaten by one with a narrower scope (an exact
      one, then one naming the tool, then one naming the action), at equal scope by a higher priority,
      and at equal priority by a more dangerous tier. */
  predicate Beats(a: Policy, b: Policy) {
    var wide := Permissions.WILDCARD;
    var rank := (p: Policy) => if p.tool != wide && p.action != wide then 3 else if p.tool != wide then 2
                               else if p.action != wide then 1 else 0;
    || rank(a) > rank(b)
    || (rank(a) == rank(b) && (a.priority > b.priority || (a.priority == b.priority && MoreDangerous(a.risk, b.risk))))
  }

  /** The governing policy is a match that no match beats. */
  lemma ForIsUnbeaten(policies: seq<Policy>, tool: string, action: string)
    ensures var f := Compile(policies).For(tool, action);
            && (f.None? <==> forall p | p in policies :: !p.Matches(tool, action))
            && (f.Some? ==> f.value in policies && f.value.Matches(tool, action)
                            && forall o | o in policies && o.Matches(tool, action) :: !Beats(o, f.value))
  {
    ForGoverns(policies, tool, action);
  }
}
