/** The harness pipeline as the list of effects each handler call performs, in order.
    A process that stops half-way has performed a prefix of that list. */
module HarnessModel {
  import opened Prelude
  import opened Verdicts
  import opened ParamSchema
  import Permissions
  import Policies
  import Rbac

  // ---- rows ----

  /** What the agent proposed; nothing in the store can rewrite it. */
  datatype Proposal = Proposal(
    incident: Id, agent: Id, agentName: string, tool: string, action: string, params: Params,
    confidence: real, createdAt: Time)

  /** The fields `ToolCallRepo.Update` writes. */
  datatype Verdict = Verdict(risk: Risk, decision: Decision, decidedBy: Option<Id>, decidedAt: Option<Time>)

  datatype Row = Row(proposal: Proposal, verdict: Verdict)

  const UNDECIDED := Verdict(Unrecognised(""), Pending, None, None)

  datatype ExecStatus = Succeeded | Failed | TimedOut | DryRun

  datatype Execution = Execution(call: Id, status: ExecStatus, dryRun: bool)

  datatype Invocation = Invocation(call: Id, tool: string, action: string, params: Params, dryRun: bool)

  datatype Outcome = OutcomeAllowed | OutcomeDenied | OutcomeExecuted | OutcomeFailed | OutcomeDryRun

  /** One attempt to append to the ledger. */
  datatype Attempt = Attempt(call: Id, outcome: Outcome, written: bool)

  /** The tables, and the log of what actually reached a tool. */
  datatype Store = Store(
    calls: map<Id, Row>, execs: map<Id, Execution>, attempts: seq<Attempt>, invoked: seq<Invocation>)

  const EMPTY := Store(map[], map[], [], [])

  // ---- what the handler finds around it ----

  datatype ToolResult = Returned | Errored | Overran

  /** Clock, deployment settings, the rules being served, and which operations fail. */
  datatype Env = Env(
    now: Time, ttl: Time, ceiling: Option<Risk>, dryRun: bool, tools: Catalogue,
    agentKind: Option<string>, permissions: Option<seq<Permissions.Permission>>, policies: Option<seq<Policies.Policy>>,
    toolResult: ToolResult, updateFails: bool, denialFails: bool, saveFails: bool, appendFails: bool,
    sweepFails: set<Id>)

  datatype HumanRuling = Approve | Reject | NotARuling

  datatype Approver = Approver(user: Id, role: Rbac.Role)

  datatype Event =
    | Proposed(call: Id, proposal: Proposal)
    | Requested(call: Id)
    | Ruled(call: Id, ruling: HumanRuling, approver: Approver)
    | Swept(page: seq<Id>)

  // ---- effects ----

  datatype Effect =
    | Create(call: Id, proposal: Proposal)
    | Persist(call: Id, verdict: Verdict)
    | Invoke(invocation: Invocation)
    | SaveExecution(execution: Execution)
    | Audit(attempt: Attempt)

  function Do(s: Store, eff: Effect): Store {
    match eff
    case Create(id, proposal) => s.(calls := s.calls[id := Row(proposal, UNDECIDED)])
    case Persist(id, verdict) =>
      if id in s.calls then s.(calls := s.calls[id := s.calls[id].(verdict := verdict)]) else s
    case Invoke(i) => s.(invoked := s.invoked + [i])
    case SaveExecution(x) => s.(execs := s.execs[x.call := x])
    case Audit(a) => s.(attempts := s.attempts + [a])
  }

  function DoAll(s: Store, effects: seq<Effect>): Store {
    if effects == [] then s else Do(DoAll(s, effects[..|effects| - 1]), effects[|effects| - 1])
  }

  // ---- the gates ----

  datatype Gate =
    | Refuse(decision: Decision, tier: Option<Risk>)
    | Faulted
    | Park(risk: Risk)
    | Go(risk: Risk, params: Params)

  function RulingFor(p: Proposal, policies: seq<Policies.Policy>, e: Env): Policies.Ruling {
    Policies.Rule(Policies.Compile(policies), e.ceiling, p.tool, p.action, p.confidence)
  }

  /** Registry, permission and policy, in that order; a rule set that cannot be loaded is a fault. */
  function Gates(p: Proposal, e: Env): Gate {
    if !Known(e.tools, p.tool, p.action) then Refuse(DeniedUnknown, None)
    else
      match ValidateParams(e.tools, p.tool, p.action, p.params)
      case None => Refuse(DeniedParams, None)
      case Some(params) =>
        if e.agentKind.None? || e.permissions.None? then Faulted
        else if !Permissions.Compile(e.permissions.value).Allows(e.agentKind.value, p.tool, p.action).0 then
          Refuse(DeniedPermission, None)
        else if e.policies.None? then Faulted
        else
          var ruling := RulingFor(p, e.policies.value, e);
          if ruling.decision == DeniedPolicy then Refuse(DeniedPolicy, Some(ruling.risk))
          else if ruling.decision == AwaitingApproval then Park(ruling.risk)
          else Go(ruling.risk, params)
  }

  // ---- execution and audit ----

  datatype Failure = NoFailure | ApprovalRefused | HarnessFailure

  function OutcomeFor(decision: Decision, execution: Option<Execution>, failure: Failure): Outcome {
    if failure == ApprovalRefused then OutcomeDenied
    else if failure == HarnessFailure then OutcomeFailed
    else if execution.Some? then
      if execution.value.dryRun then OutcomeDryRun
      else if execution.value.status == Succeeded then OutcomeExecuted
      else OutcomeFailed
    else if decision.Permits() || decision == AwaitingApproval then OutcomeAllowed
    else OutcomeDenied
  }

  function StatusOf(e: Env): ExecStatus {
    match e.toolResult
    case Overran => TimedOut
    case Errored => Failed
    case Returned => if e.dryRun then DryRun else Succeeded
  }

  function Record(id: Id, outcome: Outcome, e: Env): Effect {
    Audit(Attempt(id, outcome, !e.appendFails))
  }

  /** Invoke, save the execution record, append to the ledger. */
  function ExecuteEffects(s: Store, id: Id, p: Proposal, decision: Decision, params: Params, e: Env): seq<Effect> {
    var x := Execution(id, StatusOf(e), e.dryRun);
    var saved := !e.saveFails && id !in s.execs;
    [Invoke(Invocation(id, p.tool, p.action, params, e.dryRun))]
    + (if saved then [SaveExecution(x)] else [])
    + [Record(id, OutcomeFor(decision, Some(x), if e.saveFails then HarnessFailure else NoFailure), e)]
  }

  // ---- the handlers ----

  function EvaluateEffects(s: Store, id: Id, e: Env): seq<Effect>
    requires id in s.calls
  {
    if s.calls[id].verdict.decision.Terminal() then [] else GateEffects(s, id, Gates(s.calls[id].proposal, e), e)
  }

  /** What a gate verdict leads to. */
  function GateEffects(s: Store, id: Id, g: Gate, e: Env): seq<Effect>
    requires id in s.calls
  {
    var v := s.calls[id].verdict;
    match g
    case Refuse(d, tier) =>
      var refused := v.(decision := d, decidedAt := Some(e.now), risk := if tier.Some? then tier.value else v.risk);
      (if e.updateFails then [] else [Persist(id, refused)]) + [Record(id, OutcomeFor(d, None, NoFailure), e)]
    case Faulted => [Record(id, OutcomeFailed, e)]
    case Park(risk) =>
      if e.updateFails then [Record(id, OutcomeFailed, e)]
      else [Persist(id, v.(decision := AwaitingApproval, risk := risk)),
            Record(id, OutcomeFor(AwaitingApproval, None, NoFailure), e)]
    case Go(risk, params) => PermittedEffects(s, id, v.(decision := Allowed, risk := risk), params, e)
  }

  /** A permitting verdict is persisted before anything runs. */
  function PermittedEffects(s: Store, id: Id, v: Verdict, params: Params, e: Env): seq<Effect>
    requires id in s.calls
  {
    if e.updateFails then [Record(id, OutcomeFailed, e)]
    else [Persist(id, v)] + ExecuteEffects(s, id, s.calls[id].proposal, v.decision, params, e)
  }

  predicate Lapsed(row: Row, e: Env) {
    row.verdict.decision == AwaitingApproval && e.now - row.proposal.createdAt > e.ttl
  }

  /** Gate four: the verdict a human's ruling leads to, or None when the ruling is refused. */
  function HumanVerdict(row: Row, ruling: HumanRuling, approver: Approver, e: Env): Option<Verdict> {
    var v := row.verdict;
    if ruling == NotARuling || v.decision != AwaitingApproval || Lapsed(row, e) then None
    else if ruling == Reject then
      Some(v.(decision := Rejected, decidedBy := Some(approver.user), decidedAt := Some(e.now)))
    else if v.risk == Forbidden || !Rbac.CanApproveRisk(approver.role, v.risk) then None
    else Some(v.(decision := Approved, decidedBy := Some(approver.user), decidedAt := Some(e.now)))
  }

  function ApprovalEffects(s: Store, id: Id, ruling: HumanRuling, approver: Approver, e: Env): seq<Effect>
    requires id in s.calls
  {
    var row := s.calls[id];
    match HumanVerdict(row, ruling, approver, e)
    case None => [Record(id, OutcomeDenied, e)]
    case Some(v) =>
      if v.decision == Approved then ApprovedEffects(s, id, v, e)
      else if e.updateFails then [Record(id, OutcomeFailed, e)]
      else [Persist(id, v), Record(id, OutcomeFor(v.decision, None, NoFailure), e)]
  }

  /** After a human's approval: the policy as it is now, then the parameters, then the tool. */
  function ApprovedEffects(s: Store, id: Id, v: Verdict, e: Env): seq<Effect>
    requires id in s.calls
  {
    var p := s.calls[id].proposal;
    if e.policies.None? then [Record(id, OutcomeFailed, e)]
    else if RulingFor(p, e.policies.value, e).decision == DeniedPolicy then
      if e.updateFails then [Record(id, OutcomeFailed, e)]
      else [Persist(id, v.(decision := DeniedPolicy)), Record(id, OutcomeDenied, e)]
    else if e.updateFails then [Record(id, OutcomeFailed, e)]
    else [Persist(id, v)] + RevalidatedEffects(s, id, v, e)
  }

  /** An approved call whose parameters the schema no longer accepts is denied after all. */
  function RevalidatedEffects(s: Store, id: Id, v: Verdict, e: Env): seq<Effect>
    requires id in s.calls
  {
    var p := s.calls[id].proposal;
    match ValidateParams(e.tools, p.tool, p.action, p.params)
    case None =>
      (if e.denialFails then [] else [Persist(id, v.(decision := DeniedParams))])
      + [Record(id, OutcomeFor(DeniedParams, None, NoFailure), e)]
    case Some(params) => ExecuteEffects(s, id, p, v.decision, params, e)
  }

  /** One listed request of the expiry sweep. */
  function ExpireEffects(s: Store, id: Id, e: Env): seq<Effect>
    requires id in s.calls
  {
    var row := s.calls[id];
    if !Lapsed(row, e) || id in e.sweepFails then []
    else [Persist(id, row.verdict.(decision := Expired, decidedAt := Some(e.now))), Record(id, OutcomeDenied, e)]
  }

  function SweepEffects(s: Store, page: seq<Id>, e: Env): seq<Effect>
    requires forall id | id in page :: id in s.calls
  {
    if page == [] then []
    else SweepEffects(s, page[..|page| - 1], e) + ExpireEffects(s, page[|page| - 1], e)
  }

  predicate Distinct(page: seq<Id>) {
    forall i, j | 0 <= i < j < |page| :: page[i] != page[j]
  }

  /** An event naming a row that does not exist is dropped; a sweep lists distinct rows. */
  function Effects(s: Store, event: Event, e: Env): seq<Effect> {
    match event
    case Proposed(id, proposal) => if id in s.calls then [] else [Create(id, proposal)]
    case Requested(id) => if id in s.calls then EvaluateEffects(s, id, e) else []
    case Ruled(id, ruling, approver) => if id in s.calls then ApprovalEffects(s, id, ruling, approver, e) else []
    case Swept(page) =>
      if Distinct(page) && forall id | id in page :: id in s.calls then SweepEffects(s, page, e) else []
  }

  // ---- runs ----

  /** One handler call; it performs at most `kept` effects before the process stops. */
  datatype Activation = Activation(event: Event, env: Env, kept: nat)

  function Prefix(effects: seq<Effect>, kept: nat): seq<Effect> {
    if kept < |effects| then effects[..kept] else effects
  }

  function Step(s: Store, a: Activation): Store {
    DoAll(s, Prefix(Effects(s, a.event, a.env), a.kept))
  }

  function Run(activations: seq<Activation>): Store {
    if activations == [] then EMPTY
    else Step(Run(activations[..|activations| - 1]), activations[|activations| - 1])
  }
}
