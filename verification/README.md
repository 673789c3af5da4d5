# AegisOps: verified model

A Dafny model of the decision pipeline that stands between AI agents and production tools, and of the
concurrent protocols around it. Each module states what one part of the repository does, as methods
where the Go code changes state and as functions where it computes, and proves what that part is for.

- **Harness** (`HarnessModel`, `HarnessService`, `HarnessSafety`, `HarnessAudit`, `HarnessJustice`,
  `HarnessOutcomes`, `HarnessInterleavings`): a handler call is the list of effects it performs, in order:
  persist a decision, invoke a tool, save the execution, append to the ledger. A process that stops half-way
  has performed a prefix. `HarnessService` proves that the imperative handlers perform exactly those lists. The other modules prove, over every run:
  at most one invocation per call, decisions stored first, one ledger attempt per decision with an
  honest outcome, a reason for every invocation, and exactly when each gate and each ruling lets a call
  through. `HarnessInterleavings` carries these results over to handlers of different calls at work at the same
  time.
- **Rules** (`Permissions`, `Policies`, `Verdicts`, `Rbac`, `StableSort`): sort-then-scan rule tables refine
  "the best rule wins".
- **Parameters** (`ParamSchema`, `Patterns`, `SafePaths`, `Text`): the schema validator, its anchored
  patterns and the path language.
- **Ledger** (`LedgerEncoding`, `LedgerChain`, `LedgerStore`, `LedgerHistory`, `LedgerCommits`, `AuditLedger`):
  an injective encoding, the hash chain over any unambiguous encoding, locked appends, which of them are in
  the ledger, and what tampering a range check reveals. `AuditLedger` states the results for the ledger
  itself. SHA-256 is an arbitrary function to 32 bytes. No global injectivity is assumed: each
  lemma asks only that named pairs of the strings actually hashed do not collide. Instants are those of years 1 to 9999, and RFC 3339 any rendering that keeps their
  microseconds apart; `StampsCanDiffer` shows there is one.
- **Limiter** (`RateLimiter`, `RateLimiterRuns`): the token bucket over real-valued time. `Config` carries the
  refill as a function of elapsed time. `Linear` is the limiter's own `rate * elapsed`, and
  `LinearIsSteady` shows that it has the laws the run lemmas use.
- **Bus** (`Topics`, `Subscription`, `Bus`, `BusDelivery`): the topic matcher, and a step-by-step model of
  publishers under the read lock, subscribers, closers and retrying workers. A send on a closed queue
  or a second close is counted as a panic; the proofs show the count stays zero.
- **Incidents** (`Incidents`, `IncidentRace`), **sessions** (`Sessions`, `SessionRuns`),
  **orchestration** (`Orchestrator`, `OrchestratorRuns`): guarded writes and in-memory changes as separate steps.
- **Identifiers and pages** (`Ulid`, `Paging`).

Assumptions that are not in the code: identifiers drawn at random do not repeat (a login's family is new), the
clock does not run backwards within a limiter, no two handlers work on one tool call at the same time, and
the row lock of PostgreSQL makes each statement atomic.

## Where the code differs from what is said of it

- `pkg/id/id.go` speaks of a 48-bit time; the encoder keeps fifty bits, and fifty is what round-trips.
- `AllowN` advises a RetryAfter also for a cost above the burst, which no wait makes admissible.
- The limiter says an evicted bucket is indistinguishable from a full one. It is, exactly when
  TTL times rate is at least the burst, which `New` does not check.
- The rotation guard looks at `rotated_at` only. A refresh that read its token before the family was
  revoked still rotates it, so the family gets a live token again.
- `ValidateParams` counts parameters before defaults are added, so it can refuse its own result
  (`DefaultsCanExceedTheLimit`). It converts an unbounded whole number beyond 64 bits to a different one (the
  value on amd64 is modelled), and with a range reaching past 64 bits it can refuse that result
  (`WideRangeIsNotStable`).
- The anchors put around a pattern bind its outer branches only, and the end anchor is left out when the text
  ends in an escaped dollar. `AnchoredMeans` says what is accepted; `BoundedExactlyWhen` and
  `OpenEndAcceptsAnyTail` say when the whole string is not bound. No catalog pattern is of either kind.
- `Append` accepts an optional identifier that is the nil one, stores it as NULL, and that row no longer
  verifies. The harness validates the identifiers it passes.
- `ExpirePending` reads one page of 200, newest first, so the oldest lapsed approval is expired exactly when no
  more than 200 are waiting.
- `ToolCallRepo.Update` has no version guard. Two deliveries of one call that overlap run its tool twice, and an
  approval that overlaps a sweep overwrites the Expired it stored (`OverlappingDeliveriesInvokeTwice`,
  `OverlappingApprovalRevivesExpired`).
- A dry run of a tool that fails is still recorded as a dry run.

## Model

| member | source | states |
|---|---|---|
| `HarnessJustice.EveryInvocationIsJustified` | internal/harness/harness.go:165-367 | Justified execution: in every run of proposals, deliveries, rulings and sweeps, with any rules served at each step, any store failing and the process stopping after any write, each invocation was made at a step before which the call was not invoked and after which it was, with the stored proposal's tool and action and its parameters as validated at that step; and at that step either the gates answered go under the rules then served, or a human approved the call as it was then stored: awaiting, within the TTL, by a role with authority over the recorded tier, under a policy then served and not forbidden, on a row that an earlier delivery had parked at exactly that tier and nothing had rewritten since |
| `HarnessJustice.GateReasons` | internal/harness/harness.go:194-259 | A gate verdict of "go" or "park" gives its reason over the rule lists themselves, not over their compiled forms |
| `HarnessJustice.ApprovalHasAReason` | internal/harness/harness.go:299-331 | An approval that goes through was given on a call stored as awaiting, in time, by a role with the authority for the tier in that row, under a policy that still exists and is not forbidden |
| `HarnessOutcomes.GatesDecide` | internal/harness/harness.go:194-259 | Each verdict of the gates, exactly, over the rules served: go exactly when the parameters pass, every narrowest rule of the agent that covers the call allows it, and the policy that nothing beats is within the ceiling, asks for no approval and has its confidence met; park exactly when all but the last group hold and that policy is not forbidden; and the exact condition of each refusal and of each fault |
| `HarnessOutcomes.DeliveryInvokesExactlyWhen` | internal/harness/harness.go:194-275 | Delivering an undecided call invokes its tool exactly when the rules let it go unattended and the store takes the decision; then Allowed is stored at the tier of the governing policy, with the stored proposal and the parameters as normalised now |
| `HarnessOutcomes.RulingLeaves` | internal/harness/harness.go:282-367 | What a ruling leaves in the tables: a rejection in time stores Rejected with the human and the hour; an approval that is authorised, in time, still covered by a policy and still valid stores Approved with both and runs the tool, and nothing else runs it; one that policy has since forbidden stores DeniedPolicy; anything late, unauthorised or unstorable changes nothing |
| `HarnessOutcomes.ProposalIsStored` | internal/repository/postgres/toolcall.go:35-70 | A new proposal is stored as it came, pending and at no recognised tier; one that exists is not touched |
| `HarnessOutcomes.SweepLeaves` | internal/harness/harness.go:374-401 | A sweep stores Expired and the time for exactly the listed calls waiting longer than the TTL whose write succeeds, runs nothing and leaves every other row |
| `HarnessInterleavings.EachCallFaresAsInOneRun` | internal/harness/harness.go:101-401 | Any number of handlers at work at once, their effects interleaved in any way and stopped anywhere: as long as no two work on one call at a time, the tables say of every call exactly what they would say had the handlers run one after the other, in the order in which they read their rows |
| `HarnessInterleavings.SeparateHandlersAreSafe` | internal/harness/harness.go:101-401 | So in every such interleaving no call reaches its tool twice, and each invocation has the reason that a serial run gives it |
| `HarnessInterleavings.HandlersKeepToTheirCalls` | internal/harness/harness.go:165-401 | What a handler does depends on the rows of its own calls only, and concerns only those |
| `HarnessInterleavings.OverlappingDeliveriesInvokeTwice` | internal/repository/postgres/toolcall.go:119-136 | The condition is needed: two deliveries of one undecided call that both read it before either writes run its tool twice, whenever the rules let it go |
| `HarnessInterleavings.OverlappingApprovalRevivesExpired` | internal/repository/postgres/toolcall.go:119-136 | Likewise a sweep stores Expired, and an approval that had read the call in time then stores Approved over it and runs the tool |
| `HarnessSafety.InvokedAtMostOnceInEveryRun` | internal/harness/harness.go:165-275 | Under redelivery, store failures and stops after any write, no call reaches a tool twice, and each that does has its permitting decision already stored; only invoked calls have execution records |
| `HarnessSafety.TerminalIsForever` | internal/harness/harness.go:181-192 | No handler call, however it ends, changes a stored terminal decision or any stored proposal |
| `HarnessSafety.DecidedMeans` | internal/domain/harness/toolcall.go:113-120 | Which decisions permit and which are final, by name |
| `HarnessSafety.HandlersTouchOnlyUndecided` | internal/repository/postgres/toolcall.go:119-136 | Handlers write only rows whose stored decision is not terminal, and create only new ones |
| `HarnessSafety.HandlersAreLegal` | internal/harness/harness.go:261-361 | Every handler persists before it invokes and never persists after, at any stop point |
| `HarnessAudit.OneAttemptPerDecision` | internal/harness/harness.go:181-192 | A non-terminal evaluation and every ruling on a call that loads make exactly one ledger attempt, about that call and last of all; a terminal delivery makes none |
| `HarnessAudit.OneAttemptPerExpiry` | internal/harness/harness.go:374-395 | A sweep makes one ledger attempt per persisted expiry |
| `HarnessAudit.EvaluationIsHonest` | internal/harness/harness.go:513-535 | After an evaluation the recorded outcome is executed or dry_run only if the tool was invoked, denied or allowed only if it was not, allowed exactly when the call was parked, and denied exactly when a denial was decided |
| `HarnessAudit.RulingIsHonest` | internal/harness/harness.go:513-535 | After a ruling likewise; the outcome is never merely allowed, and it is denied exactly when the ruling was refused, or, the store taking it, was a rejection or met a policy or schema that no longer lets the call through |
| `HarnessService.Harness.OnToolRequested` | internal/harness/harness.go:101-127 | A delivery performs exactly the effects of the model, and a row that does not exist is dropped |
| `HarnessService.Harness.Evaluate` | internal/harness/harness.go:165-192 | The evaluation performs exactly the modelled effects in order, terminal rows being left alone |
| `HarnessService.Harness.PassGates` | internal/harness/harness.go:194-275 | Registry, permission and policy gates in order, then persist, then execute: the effects of the model |
| `HarnessService.Harness.Consult` | internal/harness/harness.go:194-259 | The three automatic gates, each returning as soon as it knows, give the modelled gate verdict |
| `HarnessService.Harness.Proceed` | internal/harness/harness.go:261-275 | The permitting verdict is stored before the tool runs; a failed store stops the call |
| `HarnessService.Harness.Execute` | internal/harness/harness.go:404-442 | Invoke, then save the execution record; a record that already exists is not a failure |
| `HarnessService.Harness.Save` | internal/repository/postgres/toolcall.go:219-245 | One execution record per call: a second one is refused and is not a failure |
| `HarnessService.Harness.Park` | internal/harness/harness.go:236-259 | A parked call stays undecided at the tier of its policy; a failed store is a failure of the handler |
| `HarnessService.Harness.Invoke` | internal/harness/executor.go:88-148 | The executor refuses what is not permitted or not registered and classifies the result as success, failure, timeout or dry run |
| `HarnessService.Harness.Update` | internal/repository/postgres/toolcall.go:119-136 | Writes the decision fields and nothing else |
| `HarnessService.Harness.Append` | internal/harness/harness.go:462-503 | One ledger attempt, which may fail without failing the handler |
| `HarnessService.Harness.ApplyApproval` | internal/harness/harness.go:282-297 | A ruling on a call that loads performs exactly the modelled effects; an unknown call does nothing |
| `HarnessService.Harness.ApplyRuling` | internal/harness/harness.go:299-331 | Ruling, then store; a rejection runs nothing |
| `HarnessService.Harness.ApplyApproved` | internal/harness/harness.go:306-331 | An approval is checked against the policy as served now before it is stored |
| `HarnessService.Harness.RunApproved` | internal/harness/harness.go:342-367 | The parameters are validated again under the current schema; if they fail, the call is denied instead of run |
| `HarnessService.Harness.Refuse` | internal/harness/harness.go:445-459 | A denial is recorded on the request and stored if the store takes it; a failed store is swallowed |
| `HarnessService.Harness.Revalidate` | internal/harness/registry.go:213-276 | An unknown tool or action, or parameters its schema refuses, give nothing; otherwise the normalised set |
| `HarnessService.Harness.ExpireOne` | internal/harness/approval.go:201-208 | Expires exactly a lapsed awaiting call, and counts it only when stored |
| `HarnessService.Harness.ExpirePending` | internal/harness/harness.go:374-401 | The sweep lists the newest 200 pending approvals, performs the modelled effects over exactly that page and counts the expiries it stored; a failed listing does nothing |
| `HarnessService.Harness.ExpireAll` | internal/harness/harness.go:383-396 | The loop over the listed page performs the modelled effects |
| `HarnessService.OldestIsExpiredExactlyWhenFewWait` | internal/harness/harness.go:374-381 | Of the calls awaiting approval the oldest, though lapsed, is expired by a sweep exactly when no more than 200 are waiting |
| `HarnessService.Rule` | internal/harness/approval.go:125-194 | A ruling either leaves the request alone or gives the modelled verdict: known decision, awaiting, not lapsed, tier not forbidden, role with authority |
| `HarnessService.Request.Deny` | internal/domain/harness/toolcall.go:217-222 | Sets decision and time of decision only |
| `HarnessService.Request.Approve` | internal/domain/harness/toolcall.go:225-231 | Sets decision, approver and time only |
| `Rbac.ApprovalAuthority` | internal/security/rbac/rbac.go:183-204 | Who may approve what: admin any tier but forbidden, operator low and medium, nobody else anything |
| `Permissions.CompilePermissions` | internal/harness/permission.go:87-102 | The grouping and in-place stable sort build the specified matrix |
| `Permissions.AllowsPicksABestRule` | internal/harness/permission.go:109-117 | The scan returns a matching rule of maximal specificity, a deny if there is one at that specificity, and nothing exactly when nothing matches |
| `Permissions.FourShapes` | internal/domain/harness/policy.go:57-63 | A rule covers a call exactly when it names the tool or any tool, and the action or any action |
| `Permissions.DecidingRuleIsUnbeaten` | internal/harness/permission.go:87-117 | The deciding rule covers the call, and no covering rule of the agent is narrower: naming both beats naming the tool, which beats naming the action, which beats naming neither; at equal breadth a deny decides |
| `Permissions.AllowsIsGranted` | internal/harness/permission.go:87-117 | Compilation refines its meaning: allowed exactly when a matching rule exists and no maximally specific one denies, for lists of allow and deny rules |
| `Permissions.ListOrderIsIrrelevant` | internal/harness/permission.go:87-102 | The verdict does not depend on the order of such a list |
| `Permissions.AddingARuleIsMonotone` | internal/harness/permission.go:87-117 | Inserting a deny anywhere never enlarges the allowed set, inserting an allow never shrinks it |
| `Permissions.UnknownEffectsMakeOrderMatter` | internal/domain/harness/policy.go:19-53 | With an effect outside allow and deny, which the rule validator refuses, the verdict does depend on order |
| `Policies.ForGoverns` | internal/harness/policy.go:108-135 | The resolved policy is an enabled match maximal in specificity, then priority, then risk rank, and there is one exactly when something matches |
| `Policies.FourShapes` | internal/domain/harness/policy.go:124-132 | A policy covers a call exactly when it is enabled and names the tool or any tool, and the action or any action |
| `Policies.ForIsUnbeaten` | internal/harness/policy.go:108-135 | The resolved policy is a match that no match beats: by scope, then by priority, then by the more dangerous tier, tiers compared by name |
| `Policies.AllowedByTier` | internal/domain/harness/toolcall.go:54-76 | A governing policy allows with no human exactly for the six pairs of named tiers in which the risk does not exceed the ceiling, when it asks for no approval and has its confidence met; a tier that is not recognised never does |
| `Policies.GoverningPolicyIsUnique` | internal/harness/policy.go:128-135 | With unique (tool, action) keys the governing policy is unique and is the one resolved |
| `Policies.AllowedExactlyWhen` | internal/harness/policy.go:168-264 | Allowed exactly when a policy governs, autonomy is on, the risk is within the ceiling and approval is not needed; denied exactly when nothing governs or the governing policy is forbidden |
| `Policies.OnlyThreeCeilingsGrantAutonomy` | internal/harness/policy.go:71-84 | The texts low, medium and high give the ceiling of that name; a ceiling that is forbidden or not recognised grants no autonomy |
| `Policies.RulingIsMonotone` | internal/harness/policy.go:168-264 | Lowering the ceiling or the confidence never raises the ruling, and never turns a denial into anything else |
| `StableSort.SortThenScan` | internal/harness/permission.go:87-117 | Sorting stably and taking the first match finds the best match, earliest among equals |
| `ParamSchema.CheckParams` | internal/harness/registry.go:213-276 | The validation loop gives the same answer whatever order the map is visited in |
| `ParamSchema.ValidationIsSound` | internal/harness/registry.go:213-276 | Success means no undeclared key, every required key present, every supplied value inside its constraint and kept equal; for integers kept exactly when the number fits 64 bits |
| `ParamSchema.ValidatedExactlyWhen` | internal/harness/registry.go:213-276 | A call is accepted exactly when it carries at most 64 parameters, all declared, with every required one supplied and every supplied one accepted; what is absent takes its default if it has one |
| `ParamSchema.StringAcceptedExactlyWhen` | internal/harness/registry.go:302-333 | A string is accepted exactly when it is no longer than its limit, 4096 if none is given, has no control character, is one of the options if there are any and matches the pattern if there is one |
| `ParamSchema.NumberAcceptedExactlyWhen` | internal/harness/registry.go:335-383 | An integer is accepted exactly when it is whole and inside its range, a float when finite and inside its range, a flag when it is one; infinities pass only for integers without a range |
| `ParamSchema.AcceptedStringFillsItsPattern` | internal/harness/registry.go:437-445 | A string parameter accepted under a pattern of one branch is wholly of the form the pattern describes |
| `ParamSchema.CoerceIsSound` | internal/harness/registry.go:302-383 | A coerced value meets its specification and equals what was supplied exactly when an integer fits 64 bits |
| `ParamSchema.BoundedIntIsKept` | internal/harness/registry.go:375-383 | An integer with a declared range inside 64 bits always keeps its value |
| `ParamSchema.UnboundedIntCanChange` | internal/harness/registry.go:335-347 | Without a range, 2^63 is accepted and becomes the least 64-bit integer |
| `ParamSchema.CoerceTwice` | internal/harness/registry.go:302-383 | Coercing a coerced value again succeeds, and changes nothing, exactly when an integer stays in its range once converted |
| `ParamSchema.RevalidationIsStable` | internal/harness/registry.go:213-276 | When defaults meet their own specifications, validating the result again returns it unchanged exactly when supplied and defaulted names together number at most MaxParams and every supplied integer stays in its range once converted to 64 bits |
| `ParamSchema.UnboundedIntIsStable` | internal/harness/registry.go:375-383 | Without a range that second condition always holds |
| `ParamSchema.WideRangeIsNotStable` | internal/harness/registry.go:335-347 | With the range 1 to 2^63 the value 2^63 is accepted and its own result is refused |
| `ParamSchema.DefaultsCanExceedTheLimit` | internal/harness/registry.go:235-260 | An empty call to an action with 65 defaulted parameters is accepted and its own result is refused |
| `Patterns.AnchorIsOnTokens` | internal/harness/registry.go:437-445 | The prefix and suffix tests on the pattern text amount to adding a begin and an end token, the latter unless the text ends in a dollar, escaped or not |
| `Patterns.AnchoredMeans` | internal/harness/registry.go:437-445 | What an anchored pattern accepts, for every pattern: the begin anchor binds the first branch, the end anchor the last, and the latter only when the text does not end in an escaped dollar |
| `Patterns.SingleBranchIsAnchored` | internal/harness/registry.go:437-445 | One branch whose text does not end in an escaped dollar: the whole string is bound |
| `Patterns.BoundedExactlyWhen` | internal/harness/registry.go:437-445 | A single branch that brings no end anchor and matches something is bounded exactly when its text does not end in an escaped dollar |
| `Patterns.OpenEndAcceptsAnyTail` | internal/harness/registry.go:437-445 | With two or more branches, or an escaped dollar at the end, whatever the first branch matches is accepted with any tail |
| `Patterns.OpenStartAcceptsAnyHead` | internal/harness/registry.go:437-445 | With two or more branches, whatever the last one matches is accepted after any head |
| `Patterns.AlternationEscapesTheAnchors` | internal/harness/registry.go:437-445 | A pattern of two or more branches is not bounded as soon as a match of the first has a longer string outside the language |
| `SafePaths.RelativeLanguage` | internal/tools/catalog.go:62-77 | The relative-path pattern is exactly the strings of well-formed segments joined by slashes |
| `SafePaths.AbsoluteLanguage` | internal/tools/catalog.go:62-77 | The absolute-path pattern is exactly a slash followed by such a string |
| `SafePaths.CleanIsIdentity` | internal/tools/catalog.go:211-222 | Every path either pattern accepts has no "." or ".." segment and is unchanged by lexical cleaning |
| `SafePaths.AcceptedPathIsClean` | internal/tools/catalog.go:300-308 | A path parameter the registry accepts, through the anchored catalog pattern, has no dot segments and is unchanged by cleaning |
| `LedgerEncoding.StampsCanDiffer` | internal/domain/harness/audit.go:159 | There is a rendering of the instants of years 1 to 9999 that keeps them apart, as the encoding lemmas ask |
| `LedgerEncoding.Hasher.WriteField` | internal/domain/harness/audit.go:144-149 | Writing a field appends its length and its bytes, so the bytes written are those of one more field |
| `LedgerEncoding.ComputeHash` | internal/domain/harness/audit.go:140-184 | Writing predecessor, number and the fifteen fields one by one hashes exactly the specified byte string |
| `LedgerEncoding.FieldsAreUnambiguous` | internal/domain/harness/audit.go:140-165 | Two field lists of equal count with equal encodings are equal |
| `LedgerEncoding.EncodingIsUnambiguous` | internal/domain/harness/audit.go:140-184 | For predecessors of equal length, equal bytes mean equal predecessor, number and committed content |
| `LedgerEncoding.StorageKeepsWhatIsCommitted` | internal/repository/postgres/audit.go:332-337 | A database round trip keeps the committed content exactly when no optional identifier is the nil one, which is stored as NULL |
| `LedgerChain.LedgerSchemeIsFaithful` | internal/domain/harness/audit.go:140-184 | The ledger's encoding says its predecessor, number and committed content, and nothing else |
| `LedgerChain.EntryHash` | internal/domain/harness/audit.go:140-184 | The hash the chain is stated over is the one computed field by field |
| `LedgerChain.VerifyChain` | internal/domain/harness/audit.go:201-225 | The walk accepts exactly the linked sequences, and otherwise reports the first entry that does not link and which of its hashes gave it away |
| `LedgerChain.LedgerSchemeDependsOnCommitted` | internal/domain/harness/audit.go:140-184 | Contents that are committed alike are encoded alike, whatever the rendering |
| `LedgerChain.HeadHashPinsHistory` | internal/domain/harness/audit.go:201-225 | For any unambiguous encoding: two accepted histories from one start whose first n entries end in the same hash agree on every committed field of those entries, if none of the pairs of strings actually hashed collide |
| `AuditLedger.HeadHashPinsTheLedger` | internal/domain/harness/audit.go:140-225 | The head hash pins history, for the audit ledger: two chains accepted from one start whose first n rows end in the same hash have the same first n rows in every committed field |
| `AuditLedger.EveryReachableLedgerVerifies` | internal/repository/postgres/audit.go:54-274 | Whatever locked appends of real identifiers, commits and rollbacks led to it, every range request on the ledger that is not inverted is answered intact |
| `AuditLedger.ReachableLedgerVerifiesExactlyWhen` | internal/repository/postgres/audit.go:54-119 | Without that restriction, checking all of a reachable ledger answers intact exactly when no committed append has a nil optional identifier |
| `AuditLedger.RowVerifiesExactlyWhenStorable` | internal/repository/postgres/audit.go:332-337 | An audit row links after being read back exactly when none of its optional identifiers is the nil one |
| `AuditLedger.AlteredLedgerRowIsReported` | internal/repository/postgres/audit.go:210-274 | An alteration of a non-newest row k of a reachable ledger is reported at k or k+1 by any range covering both |
| `AuditLedger.DeletedLedgerRowIsReported` | internal/repository/postgres/audit.go:251-268 | Deletion of row k of a reachable ledger is reported at k by any range covering k and a later surviving row |
| `AuditLedger.NewestLedgerRowCanBeReplaced` | internal/repository/postgres/audit.go:210-274 | The limit of the chain: the newest row can be recomputed and replaced unreported |
| `LedgerCommits.LedgerHoldsExactlyTheCommitted` | internal/repository/postgres/audit.go:54-119 | The rows of every reachable ledger are those of exactly the committed appends, in order, each once; committed is told from the operations alone: made while holding the lock, in a transaction none of whose statements failed, that ended in a commit |
| `LedgerCommits.CommittedMembers` | internal/repository/postgres/tx.go:68-100 | A content is among the committed ones exactly when some committed append carried it |
| `LedgerCommits.CommittedRowsStay` | internal/repository/postgres/tx.go:68-100 | Whatever follows only adds rows after those already committed |
| `LedgerCommits.DroppedStaysDropped` | internal/repository/postgres/tx.go:68-100 | An append of a transaction that was rolled back or held a failed statement is committed in no continuation |
| `LedgerHistory.BuiltIsSoundExactlyWhen` | internal/repository/postgres/audit.go:76-112 | Rows built from contents verify exactly when storage keeps what every one of them commits to |
| `LedgerStore.EveryReachableLedgerIsSound` | internal/repository/postgres/audit.go:54-119 | Under any interleaving of locked appends, commits and rollbacks, the ledger and the open transaction on top of it are numbered 1..n and linked |
| `LedgerStore.RowSurvivesStorage` | internal/repository/postgres/audit.go:71-112 | A stored row links after being read back exactly when storage kept what was committed |
| `LedgerStore.KeptMeansStorable` | internal/repository/postgres/audit.go:332-337 | For audit entries that is exactly when no optional identifier is the nil one |
| `LedgerStore.VerifyRange` | internal/repository/postgres/audit.go:210-274 | A range check rejects an inverted range, names the first missing number if there is one, and otherwise answers as the chain walk does |
| `LedgerStore.EveryRangeIsIntact` | internal/repository/postgres/audit.go:210-274 | Every range check of numbered and linked rows is valid |
| `LedgerStore.RowsBeyondTheRangeAreNotRead` | internal/repository/postgres/audit.go:210-230 | A range check with an end answers the same whatever lies beyond it, and one that starts below the first entry starts there |
| `LedgerStore.MissingRowIsReported` | internal/repository/postgres/audit.go:251-268 | A removed row k is named exactly by any range covering k and a later surviving row |
| `LedgerStore.AlteredRowIsReported` | internal/repository/postgres/audit.go:210-274 | An alteration of a non-newest row k in anything the hash covers is reported at k or k+1 by any range covering both |
| `LedgerStore.NewestRowCanBeReplaced` | internal/repository/postgres/audit.go:210-274 | The limit of the scheme: whoever holds the table can replace the newest row and every range check still passes |
| `RateLimiter.Limiter.constructor` | internal/security/ratelimit/limiter.go:84-105 | A new limiter has no buckets and defaults for what is not positive |
| `RateLimiter.Limiter.AllowN` | internal/security/ratelimit/limiter.go:124-172 | State and decision are those of the specification: sweep if due, refill lazily, charge only when admitted |
| `RateLimiter.Limiter.Peek` | internal/security/ratelimit/limiter.go:185-219 | The specified answer, with no change of state |
| `RateLimiter.Limiter.Reset` | internal/security/ratelimit/limiter.go:225-229 | Removes one bucket |
| `RateLimiter.Limiter.EvictLocked` | internal/security/ratelimit/limiter.go:244-250 | The deleting loop keeps exactly the buckets not idle past the TTL |
| `RateLimiter.LinearIsSteady` | internal/security/ratelimit/limiter.go:253-259 | A positive rate gives an additive, strictly increasing refill whose waiting time inverts it, and the TTL condition is TTL times rate at least burst |
| `RateLimiter.DefaultsAreSteady` | internal/security/ratelimit/limiter.go:84-105 | Every configuration New can build has those laws, positive settings are kept, and the defaults satisfy the TTL condition |
| `RateLimiterRuns.WindowBound` | internal/security/ratelimit/limiter.go:124-172 | In any window of any run with nonnegative costs and no reset of the key, the cost admitted is at most burst plus the refill over the window, wherever sweeps fall, given TTL times rate at least burst |
| `RateLimiterRuns.BudgetBound` | internal/security/ratelimit/limiter.go:124-172 | From any reachable state a run admits at most the key's level plus the refill since |
| `RateLimiterRuns.EvictionIsUnobservable` | internal/security/ratelimit/limiter.go:239-250 | Evicting and never evicting give the same Allowed, Remaining and RetryAfter on every run of AllowN, Peek and Reset, exactly when a full refill fits the TTL |
| `RateLimiterRuns.ShortTTLShows` | internal/security/ratelimit/limiter.go:239-250 | With a shorter TTL a two-call run tells them apart and breaks the window bound |
| `RateLimiterRuns.PeekIsHonest` | internal/security/ratelimit/limiter.go:185-219 | Peek allows exactly when Allow at that instant would, with the same RetryAfter and one token more to show, and changes nothing |
| `RateLimiterRuns.PeekIsHonestExactlyWhen` | internal/security/ratelimit/limiter.go:185-219 | That holds after every run of calls exactly when a full refill fits the TTL |
| `RateLimiterRuns.RetryAdviceIsHonest` | internal/security/ratelimit/limiter.go:148-163 | A refused cost, nothing admitted for the key meanwhile, is admitted when retried exactly when it fits the burst and RetryAfter is over |
| `RateLimiterRuns.ResetAtIsExact` | internal/security/ratelimit/limiter.go:253-259 | Left alone, the level reaches the burst at ResetAt and not before |
| `RateLimiterRuns.AnswerShowsTheLevel` | internal/security/ratelimit/limiter.go:148-172 | An answer shows the whole tokens left and the burst, and a wait exactly when it refuses |
| `RateLimiterRuns.ResetRestoresTheBurst` | internal/security/ratelimit/limiter.go:225-229 | After a reset the key has its whole burst and no other key is affected |
| `RateLimiterRuns.ForgottenExactlyWhen` | internal/security/ratelimit/limiter.go:239-250 | A call drops another key's bucket exactly when a minute has passed since the last sweep and that bucket has been idle for longer than the TTL |
| `RateLimiterRuns.AdmitsExactlyWhatFits` | internal/security/ratelimit/limiter.go:124-172 | The limiter refuses only what the window bound forbids: after any run without a reset of the key a cost is admitted exactly when it fits the burst and, with what was admitted since, every window that began at an earlier call |
| `Topics.MatchSegments` | internal/events/inproc/bus.go:412-439 | The loop-and-recursion matcher terminates and is true exactly when the key splits so that * takes one segment, # any number and literals themselves |
| `Topics.Matches` | internal/events/inproc/bus.go:401-409 | Both shortcuts agree with that meaning |
| `Topics.EveryKeyFitsItself` | internal/events/inproc/bus.go:405-407 | Reflexivity: a string read as a pattern matches itself |
| `Subscription.Deliver` | internal/events/inproc/bus.go:330-374 | The retry loop: which attempt ends it, and exactly when the event is handled, dead-lettered or abandoned |
| `Subscription.AttemptsAreBounded` | internal/events/inproc/bus.go:330-374 | A handler sees a parcel at most MaxAttempts times; it is dead-lettered exactly after that many failures |
| `Subscription.LeavingSettlesEverything` | internal/events/inproc/bus.go:323-327 | When all workers of a subscription have left, every accepted event is handled, dead-lettered or abandoned |
| `Bus.EveryRunIsSafe` | internal/events/inproc/bus.go:118-320 | In every interleaving of publishers, subscribers, unsubscribers, closers and workers: nothing is sent on a closed queue, no queue is closed twice, the list stands still under a publisher, every subscription's books balance |
| `Bus.AcceptedEventsAreAccountedFor` | internal/events/inproc/bus.go:309-374 | In every run, per subscription: accepted = queued + handled + dead-lettered + abandoned + in delivery |
| `BusDelivery.OnlyWantedEventsAreAccepted` | internal/events/inproc/bus.go:148-152 | In every run a subscription has accepted only events whose topic fits its pattern |
| `BusDelivery.PublishBeginsExactlyWhen` | internal/events/inproc/bus.go:118-131 | A Publish call goes to work, on the subscriptions then registered, exactly when the bus is open and the event has a topic |
| `BusDelivery.FinishedCallReachedEveryone` | internal/events/inproc/bus.go:118-170 | When a Publish call is about to return, every registered subscription that fits has accepted its event exactly once from it, or turned it away with a full queue and no blocking; no other subscription has accepted anything from it |
| `BusDelivery.RegisteredExactlyWhen` | internal/events/inproc/bus.go:284-302 | A subscription is registered exactly until it is unsubscribed or the bus is closed |
| `BusDelivery.SubscribeListens` | internal/events/inproc/bus.go:173-218 | Subscribing to an open bus adds one open subscription with that pattern and leaves the others alone |
| `Subscription.SizesByDefault` | internal/events/inproc/bus.go:89-106 | Sizes that are not positive become 256 events, four workers and three attempts; others are kept |
| `Bus.DrainedMeansSettled` | internal/events/inproc/bus.go:225-253 | When Close returns through the drained path, every accepted event of every subscription is settled |
| `Incidents.Incident.TransitionTo` | internal/domain/incident/incident.go:238-271 | The move, its outcome and its stamps are those of the lifecycle graph; a refused move changes nothing |
| `Incidents.MovesExactlyAlongEdges` | internal/domain/incident/incident.go:79-122 | A move is accepted exactly when it stays in place or follows an edge, told by where each state may be entered from, and invalid exactly for a state that is not defined |
| `Incidents.MoveStamps` | internal/domain/incident/incident.go:238-271 | A move to another state sets the state, the time of change and, on first entry, that state's own stamp to the time of the move, and nothing else; any other move changes nothing |
| `Incidents.Incident.SetDiagnosis` | internal/domain/incident/incident.go:274-286 | Writes cause and confidence only when both are valid |
| `Incidents.IncidentRepo.Update` | internal/repository/postgres/incident.go:97-151 | Writes only over the version read, raising it by one in row and object; a conflict changes nothing |
| `IncidentRace.NoLostUpdate` | internal/repository/postgres/incident.go:97-151 | A write is accepted only over the very row the writer's single change started from, and is lawful: same status or an edge, version plus one, set stamps kept |
| `IncidentRace.EveryRunIsSound` | internal/agents/orchestrator.go:573-623 | For any number of investigators and closers, reads, changes and writes interleaved, with conflicts swallowed, re-reads failing and replies lost, the persisted history is lawful step by step |
| `IncidentRace.HistoryIsMonotone` | internal/services/incident.go:259-287 | Along the whole history versions rise by one, closed is absorbing and stamps never change once set |
| `IncidentRace.GoesOnExactlyWhen` | internal/domain/incident/incident.go:104-112 | An investigator goes on with the incident it loaded exactly when it is not resolved, closed or failed; a closer always does |
| `IncidentRace.LostMoveIsReadAgain` | internal/agents/orchestrator.go:585-596 | A move that loses the race writes nothing, and the investigator goes on from the row that won |
| `IncidentRace.FaultEndsTheWriter` | internal/agents/orchestrator.go:585-598 | A write that reports a fault ends its writer's program, and is in the row exactly when only the reply was lost and the version was current |
| `IncidentRace.UndisturbedInvestigationRecords` | internal/agents/orchestrator.go:573-623 | Alone, an investigation of a new incident acknowledges it, moves it to diagnosing and records the diagnosis, in three versions |
| `IncidentRace.UndisturbedCloseCloses` | internal/services/incident.go:259-287 | Alone, a closer closes any incident that is not closed, stamping it at its first close |
| `Sessions.SessionRepo.Create` | internal/repository/postgres/session.go:30-49 | Inserts a valid token under a new id, or nothing |
| `Sessions.SessionRepo.Rotate` | internal/repository/postgres/session.go:82-123 | Stores the replacement and marks the old token together, or neither; the guard is rotated_at alone |
| `Sessions.SessionRepo.RevokeFamily` | internal/repository/postgres/session.go:132-148 | Stamps every unrevoked token of the family and no other row |
| `Sessions.SessionRepo.RevokeAllForUser` | internal/repository/postgres/session.go:152-168 | Stamps every unrevoked token of the user and no other row |
| `Sessions.SessionRepo.Revoke` | internal/repository/postgres/session.go:171-187 | Stamps one token, once |
| `Sessions.Refresh` | internal/services/auth.go:198-270 | A token is issued exactly when the presented one exists, was neither rotated nor revoked and has not expired, its user is active, the write succeeds and the new row is valid and new; it carries the same user and family, and both rows change as stated. A rotated token revokes its family, an inactive user all their tokens, anything else changes nothing |
| `SessionRuns.EveryRunIsSound` | internal/repository/postgres/session.go:82-148 | In any interleaving each family is one acyclic chain of rotations |
| `SessionRuns.OneUnrotatedToken` | internal/repository/postgres/session.go:82-123 | Each family has at most one unrotated token |
| `SessionRuns.NobodyIsSound` | internal/repository/postgres/session.go:30-49 | The empty table, where every run starts, has those properties |
| `SessionRuns.DeadMeansUnusable` | internal/domain/user/session.go:115-126 | No token of a family whose tokens are all revoked is usable at any time |
| `SessionRuns.ReplayEndsTheFamily` | internal/services/auth.go:210-237 | With a refresh uninterrupted and its revocation succeeding, after a rotated token is presented no token of that family is ever usable or rotated again, whatever follows |
| `SessionRuns.RevocationHoldsExactlyWhen` | internal/repository/postgres/session.go:103-109 | In general a revoked family stays dead in every continuation exactly when no refresh holding its newest token was between its read and its write |
| `SessionRuns.RotatedOnlyByATimelyRefresh` | internal/services/auth.go:198-270 | In every interleaving a token is rotated only by a refresh that read it no later than its expiry, when it was neither rotated nor revoked, for an active user |
| `SessionRuns.TimelyRefreshRotates` | internal/services/auth.go:198-270 | A refresh that meets those conditions, read and written without interruption, rotates the token and stores one that can be redeemed for the whole TTL |
| `SessionRuns.LoginStoresAToken` | internal/services/auth.go:335-365 | A login with new identifiers stores a token that can be redeemed exactly until it expires |
| `SessionRuns.LoggedOutForGood` | internal/services/auth.go:279-302 | A token logged out can never be redeemed again, in any continuation and at any time |
| `SessionRuns.LoggedOutEverywhere` | internal/services/auth.go:304-333 | After logging out everywhere none of the user's tokens can, and no other user's is touched |
| `Ulid.NewAt` | pkg/id/id.go:51-85 | The identifier is the ten low base-32 digits of the time followed by the sixteen digits of the entropy |
| `Ulid.WriteEntropy` | pkg/id/id.go:67-82 | The 16-bit accumulator loop fills exactly positions 10 to 25, leaves no bits over and spells the 80-bit number |
| `Ulid.WriteTime` | pkg/id/id.go:60-66 | Fills positions 9 down to 0 and leaves the rest alone |
| `Ulid.AlphabetIsCrockford` | pkg/id/id.go:15-30 | The alphabet is the ten digits and then the letters without I, L, O and U, in ascending order |
| `Ulid.Valid` | pkg/id/id.go:95-105 | Twenty-six characters of the alphabet, in either case |
| `Ulid.Time` | pkg/id/id.go:108-124 | The number the first ten characters spell, or nothing for a malformed identifier |
| `Ulid.TimeRoundTrips` | pkg/id/id.go:51-124 | Decoding inverts encoding exactly for times in [0, 2^50) ms; every identifier made is well formed |
| `Ulid.TimeOrdersIdentifiers` | pkg/id/id.go:60-66 | A strictly earlier time gives a lexicographically smaller identifier whatever the entropy |
| `Ulid.EntropyIsKept` | pkg/id/id.go:67-82 | The encoding is injective in the 80 entropy bits |
| `Ulid.CaseFolds` | pkg/id/id.go:127-132 | Two texts that differ only in the case of letters are both valid or both not, and carry the same time |
| `Paging.List` | internal/repository/postgres/incident.go:154-206 | A page is the first rows under the cursor after clamping the limit; it says truly whether more exist, and a malformed cursor is an error |
| `Paging.CursorRoundTrips` | internal/repository/postgres/incident.go:546-569 | Decoding inverts encoding, given round trips of time, id and base64 text |
| `Paging.WalkNeitherSkipsNorRepeats` | internal/repository/postgres/incident.go:154-206 | A key that matches at every page of a completed walk is returned exactly once, however the rest of the table changes |
| `Paging.KeysFallAlongTheWalk` | internal/repository/postgres/toolcall.go:143-211 | Returned keys strictly fall across pages |
| `Paging.MoreExactlyWhenTooMany` | internal/repository/postgres/toolcall.go:185-211 | A page from the top says there is more exactly when more rows match than its limit |
| `Paging.PageIsNewestFirst` | internal/repository/postgres/incident.go:154-206 | A page is newest first, the greater id first at equal times, and leaves out no matching row newer than one it has |
| `Paging.OldestIsMissedExactlyWhenTooMany` | internal/repository/postgres/toolcall.go:143-211 | A newest-first page misses the oldest match exactly when more rows match than its limit |
| `Paging.CodecsCanBeFaithful` | internal/repository/postgres/incident.go:546-569 | There are renderings with the round trips that the cursor lemmas ask |
| `Orchestrator.Desk.OnIncidentDetected` | internal/agents/orchestrator.go:175-229 | Ignores nil and running incidents, defers at the limit, otherwise registers |
| `Orchestrator.Desk.Finished` | internal/agents/orchestrator.go:212-218 | An ended investigation leaves the running map |
| `Orchestrator.PublishIntents` | internal/agents/orchestrator.go:471-506 | Publishes in order exactly the calls whose row could be written; without a store, all of them |
| `Orchestrator.PublishableMeans` | internal/agents/orchestrator.go:471-506 | A call is published exactly when it was proposed and its row was written |
| `Orchestrator.PublishedIsASubsequence` | internal/agents/orchestrator.go:471-506 | What is published is a subsequence of what was proposed |
| `Orchestrator.PublishedAsOftenAsAsked` | internal/agents/orchestrator.go:471-506 | Each call is published as often as it was proposed if its row can be written, and else never |
| `Orchestrator.StartedExactlyWhen` | internal/agents/orchestrator.go:175-229 | An incident is started exactly when it is named, not running and there is room, and deferred exactly when only room is missing |
| `Orchestrator.AgentsActExactlyWhen` | internal/agents/specialists.go:363-462 | The action agent hands over its call exactly when it proposed one on a recorded diagnosis of at least one half; the diagnosis agent concludes exactly when there is telemetry and an answer |
| `OrchestratorRuns.EveryRunIsSound` | internal/agents/orchestrator.go:235-371 | In every interleaving of investigations the running map, the order of agents and persist-before-publish are kept |
| `OrchestratorRuns.AdmissionHolds` | internal/agents/orchestrator.go:175-229 | Registered investigations never exceed the limit and never include one incident twice |
| `OrchestratorRuns.OrderOfTheAgents` | internal/agents/orchestrator.go:263-304 | Diagnosis only after the calls of all three first-wave agents came back and monitoring findings were recorded; action intents only on a recorded diagnosis of at least 0.5; with a store, no event for a row whose create did not succeed |
| `OrchestratorRuns.NothingAskedForIsLost` | internal/agents/orchestrator.go:471-506 | In every interleaving, once an investigation is past a hand-off every call its agents asked for has been published, but for those whose row could not be written |
| `OrchestratorRuns.FindingsAreRecorded` | internal/agents/orchestrator.go:341-371 | What a first-wave agent finds is recorded and its calls wait to be handed over |
| `OrchestratorRuns.DiagnosisBeginsExactlyWhen` | internal/agents/orchestrator.go:263-275 | After the first wave diagnosis begins exactly when there is telemetry |

## Left out

- HarnessInterleavings.EachCallFaresAsInOneRun: a handler reads its rows once, when it begins, as the code does; rules and clock are arbitrary per handler, so when within a handler they are read makes no difference.
- RateLimiterRuns.WindowBound: real-valued time and tokens, so float rounding and the truncation of durations to nanoseconds are not covered; the same goes for RetryAdviceIsHonest and EvictionIsUnobservable.
- HarnessService.Harness.Append: an entry is reduced to the call, the outcome and whether it was written; the actor, action and resource are copies of fields of the request, and the ledger modules treat entries as arbitrary contents.
- LedgerEncoding.EncodingIsUnambiguous: instants outside years 1 to 9999 are not modelled.
- LedgerStore.AlteredRowIsReported: `Params` and `Result` are not part of an entry here because the hash does not cover them.
- Paging.List: the rows a query returns are taken as the ordered answer of the database.
- Subscription.Deliver: states the retry loop alone; that each of its steps keeps the books is proved step by step for any interleaving.
- Rule caches of the permission and policy engines: what is "served" at each step is arbitrary, which covers any staleness.
- Reason texts, notes, timeline events and bus notifications of the harness: they decide nothing.
- Idempotency keys, tool registration, policy reconciliation and the per-incident event sequence.
- Collisions of compiled patterns between tools and parameters with dotted names: patterns are kept per action.
- Deletion of expired tokens, session listing, access tokens, passwords and user storage.
- HTTP, SQL execution, JSON, RFC 3339, base64 and randomness: functions with the round trips they need, or arbitrary values.
- Reasoner answers and tool results: arbitrary.
- Liveness: whether a full queue drains, a lock is granted or a page walk ends.
