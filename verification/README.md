# Governance core of the gateway, verified

A Dafny 4.11 model of the gateway's in-memory governance machinery: the auditor that re-checks the command
event log, the AxiomWorld claim kernel, the authority-obligation mesh, the approval router, the agent runtime
coordinator, the candidate composer with its ledger, the identity budget registry, the upgrade portfolio, and the
protocol between the gateway and a restricted worker. `dafny verify dfyconfig.toml` checks everything.

Each component is a state value with one pure step per call, and runs are sequences of calls. Where the source
updates fields in place there is also a class. The kernel, mesh, router, coordinator and registry objects record their
calls in a ghost field, `Valid()` says that their fields are what a run of exactly those calls leaves behind, and every
call is proved to perform its step, to record itself and to keep `Valid()`: whatever is proved of every run holds of the
objects. The composer's methods are proved against functions of the ledger they find. Modules, in reading order:

| module | what it models |
|---|---|
| `Collections`, `Ordering`, `Json` | ordered dictionaries, filtering, Python's stable sort, `str.strip`, JSON values |
| `Merkle`, `AuditTrace`, `AuditFailures`, `AuditLedger` | the Merkle root, the global hash chain, anchors, replay, what each reported failure says, and the ledger the auditor reads |
| `AxiomWorld`, `AxiomConflicts`, `AxiomProposals`, `AxiomProjection`, `AxiomScopes`, `AxiomReceipts`, `AxiomKernelObject` | claims and truth states, how long a conflict stays on record, which claims a proposal marks, scoped projection, who is listed at which scope, what each call answers, the kernel object |
| `AuthorityMesh`, `AuthorityRuns`, `AuthorityObligations`, `AuthoritySweeps`, `AuthorityStanding`, `AuthorityPreparing`, `AuthorityReopening`, `AuthorityApproving`, `AuthorityEvidence`, `AuthorityDeadlines`, `AuthorityMeshObject` | the mesh's steps, approval chains over runs, obligations and their index, the overdue sweeps, how long an approval stands, what preparing overwrites, how long an obligation stays settled, who may approve, what counts as evidence, what the sweeps do and report, the store and mesh objects |
| `ApprovalRouter`, `ApprovalRecords`, `ApprovalRouterObject` | pending requests, timeouts, eviction, bounded history, what the records say |
| `AgentRuntime`, `AgentReuse`, `AgentAdmission`, `AgentCoordinator` | spawning, tasks, handoffs, what reusing an agent id costs, what is admitted, the coordinator object |
| `CandidateLedger`, `CandidateComposer`, `CandidateComposition`, `CandidateWinners` | the append-only ledger, composition, the recording loop, which pipelines run, who wins |
| `AgentIdentity`, `AgentRights` | admission, daily budgets, reputation, what an agent may do |
| `UpgradePortfolio`, `UpgradeRanking` | diagnosis, ranking, the portfolio, what it says of its signals |
| `WorkerProtocol`, `WorkerChecks` | requests, receipts, replies, both ends, what each end accepts |

`AuditFailures`, `AxiomProposals`, `AxiomScopes`, `AxiomReceipts`, `AuthorityApproving`, `AuthorityEvidence`,
`AuthorityDeadlines`, `ApprovalRecords`, `AgentAdmission`, `CandidateComposition`, `CandidateWinners`, `AgentRights`,
`UpgradeRanking` and `WorkerChecks` state what the operations decide in the fields of the call and of the stored records,
apart from the functions the other modules compute it with.

Conventions. Time is an integer. A hash or signature is a function parameter; where a theorem needs it not to collide,
the hypothesis is that it does not collide on the finite set of inputs at hand (`CollisionFree`), never that it is
injective everywhere. Random ids, the clock, the world-state store's answer, dispatch, evaluators, reviewers and the
rounding of a reputation score are parameters too. Messages and reason codes are enumerations.
An obligation's SATISFIED and EXPIRED are `Fulfilled` and `Lapsed`, since chains have statuses of those names.
Exceptions are `Err` results, and a raised call leaves the state as the code leaves it, which is not always unchanged.

## What does not hold, and exactly when it does

The code is modelled as it is. Where it falls short of what its names or comments suggest, the exact condition is proved,
and a run or an input that shows it wherever the condition alone does not.

- An approved command can lose its approval. Three runs: the expiry sweep saves an older, overdue chain of the same
  command and thereby makes it the current one (`AuthorityStanding.RepreparedCommandLosesItsApproval`); closing an expired
  chain does the same with nothing overdue, and leaves the command denied (`AuthorityStanding.ClosingUnseatsApproval`);
  a later decision puts a satisfied chain back to pending, when its approver does not qualify, or denies it, when anybody
  at all refuses (`AuthorityStanding.LaterDecisionsUnseat`). A call spares the approval if and only if it is none of: a
  preparation of that command that goes through, a refusal or an approval that does not count, an expiry while another chain
  of it is overdue, a closing with evidence that matches one (`AuthorityStanding.StepKeepsSatisfiedIff`); and a run does if
  and only if each of its calls does (`AuthorityStanding.StandsThroughoutIff`).
- A preparation that goes through keeps every stored chain if and only if the id it is about to use, that of the command,
  the applicable policy's id and the due time, is not stored yet or stored with just what it is about to save
  (`AuthorityPreparing.PreparingKeepsRecordsIff`). It throws approvals away if and only if a chain of that
  key has some (`AuthorityPreparing.PreparingLosesApprovalsIff`): by preparing twice at one
  instant (`AuthorityPreparing.SecondPreparationWipesApproval`), or later, after the policy was registered again with
  a shorter timeout (`AuthorityPreparing.ShorterTimeoutWipesApproval`).
- A satisfied or escalated obligation is put back to open if and only if a closure opens one of the same command, kind, due
  time and certificate again (`AuthorityReopening.StepKeepsFulfilledIff`, `AuthorityReopening.MetThroughoutIff`). For an accepted
  risk the due time is the certificate's, so presenting the certificate again at any time before it expires does it
  (`AuthorityReopening.ReopenedAfterSatisfaction`).
- Claims stay coherent through a run if and only if no step promotes an un-admitted claim against a supported rival
  (`AxiomWorld.CoherentThroughoutIff`); validation does not look for conflicts, and four calls are enough
  (`AxiomWorld.UncheckedPromotion`). Proposals alone never break coherence.
- A CONFLICTED claim leaves that state if and only if it is proposed again under its id, as a simulation, without evidence,
  or admitted without a live rival (`AxiomConflicts.StepKeepsConflictIff`, `AxiomConflicts.ConflictThroughoutIff`): no
  validation settles a conflict, and a simulation makes one go away without settling it (`AxiomConflicts.SimulatedAgain`).
- An entity admitted under the empty id is not protected by the fingerprint check (`AxiomWorld.EmptyIdEscapesIdentityCheck`),
  and that is the only way two entities come to share a fingerprint (`AxiomWorld.StepOneEntityIff`). It takes a store that
  admits empty ids: the repository's in-memory store refuses them with `object_id_required` (gateway/world_state.py:523-524),
  and with such a store every run keeps fingerprints distinct (`AxiomWorld.FingerprintsDistinct`).
- Two requests of one tenant, identity and clock reading share an id and the first is lost
  (`ApprovalRouter.CollidingIdsLoseRequest`). A call loses a request if and only if it asks above LOW under the id of one
  that still waits in time and is not the one evicted to make room (`ApprovalRouter.RequestLosesIff`).
- Registering or spawning over an agent id in use keeps scopes inherited if and only if the children under that id fit
  the new record (`AgentReuse.OverwriteKeepsAttenuationIff`), keeps every ancestry ending at a root if and only if the id is not
  an ancestor of the new parent or that parent itself (`AgentReuse.OverwriteKeepsRootsIff`), and keeps accepted tasks in
  scope if and only if the tasks under that id fit the new record (`AgentReuse.StepKeepsTasksIff`). Throughout a run all three
  hold if and only if every stored agent meets all three conditions (`AgentReuse.OrderlyThroughoutIff`). A root, its child,
  its grandchild and the root's id again under the grandchild break no scope and leave no root
  (`AgentReuse.LineageClosesOnItself`, with ids as in `AgentReuse.LetterLine`); an agent spawned under itself has none
  either (`AgentReuse.SpawnUnderItself`).
- The composer's winners and the ledger's query can disagree (`CandidateComposer.WinnersDisagree`): the query trusts the
  direction written in the scores and cannot see a compromised baseline. They agree if and only if no candidate is of that
  kind (`CandidateComposer.WinnersAgreeIff`).
- The declared composer's report is keyed by pipeline id, so of two skips under one id only the later reason is shown
  (`CandidateComposer.SecondReasonHidesFirst`). It shows the skip list as it is if and only if no id is declared more
  often than once, or twice where its first spec is composed (`CandidateComposer.SkipsReportedIff`); a pipeline that runs is
  reported as skipped too if and only if its id is declared again (`CandidateComposer.RunsAndSkippedIff`).
- Lowering a budget in mid-day leaves usage above the limit (`AgentIdentity.LoweredBelowUse`, for texts such as
  `AgentIdentity.LetterHarmless` gives); the limits hold throughout a run if and only if every registration covers what was used so far (`AgentIdentity.LimitsThroughoutIff`).
- The event chain says nothing about the fields outside the event hash (`AuditTrace.UnhashedFieldsUnchecked`) and takes the
  first link on trust: what is left of an intact log when its beginning is cut off is intact (`AuditTrace.CutIntactIff`).
- The auditor's replay check passes on the ledger's own work (`AuditLedger.LedgerReplays`) unless a command is created again
  under an id that has moved on (`AuditLedger.StepReplaysIff`).
- A Merkle root does not tell an odd list from the same list with its last hash repeated
  (`Merkle.RepeatedLastHashSameRoot`), nor some even lists (`Merkle.RepeatedLastPairSameRoot`). Two lists of two or more
  whose trees are equally high share a root if and only if padding every level with its last node makes them one list
  (`Merkle.RootSameIff`). For trees of different height the same holds only under one more assumption, which the code does
  nothing to enforce: that no digest of an event hash is also the digest of two digests (`Merkle.RootSameIffSpread`). A list
  of one hash is its own root, so it shares its root with any list of that root (`Merkle.RootOfOwnRoot`); with that
  the condition covers any two lists (`Merkle.RootSameAnyIff`).
- An untrimmed capability id makes a portfolio fail if and only if it is among the selected plans
  (`UpgradePortfolio.PortfolioOkIff`), so raising the limit by one turns success into failure if and only if the plan that
  comes in has such an id (`UpgradePortfolio.RaisingLimitIff`, and `UpgradePortfolio.RaisedLimitFails` for two signals,
  with ids as in `UpgradePortfolio.SuchAPair`).
- A dispatch result holding one of the three reserved keys is rejected by the gateway although the worker reports
  success (`WorkerProtocol.GatewayAcceptsIff`).

## Model

| member | source | states |
|---|---|---|
| Merkle.ComputeMerkleRoot | gateway/command_spine.py:1200-1214 | the level-by-level loop computes the recursive tree root, with the empty and one-element cases |
| Merkle.RootInjective | gateway/command_spine.py:1200-1214 | equal-length lists with one root are equal, if the hash does not collide on their tree |
| Merkle.RepeatedLastHashSameRoot | gateway/command_spine.py:1208-1213 | equal length is needed: an odd list and the same list with its last hash repeated share a root under any hash |
| Merkle.RepeatedLastPairSameRoot | gateway/command_spine.py:1208-1213 | even lists collide too: six hashes and the same six with the last two repeated share a root under any hash |
| Merkle.RootSameIff | gateway/command_spine.py:1200-1214 | for lists of two or more with equally high trees: one root iff padding every level with its last node gives one list |
| Merkle.RootSameIffSpread | gateway/command_spine.py:1200-1214 | the same whatever the heights, if no leaf digest is also the digest of two digests |
| Merkle.RootOfOwnRoot | gateway/command_spine.py:1202-1205 | every list shares its root with the one-element list that holds it, which is another list unless it has one element itself |
| Merkle.RootSameAnyIff | gateway/command_spine.py:1200-1214 | the exact condition for any two lists, the empty and one-element ones included, if no longer list has the root of the empty one |
| AuditTrace.VerifyGlobalEventChain | gateway/audit_trace_verifier.py:288-303 | the whole verdict: the failures are exactly the broken links and mismatched hashes, in order, and intact means every event is linked and hashed |
| AuditTrace.NoFailuresIffIntact | gateway/audit_trace_verifier.py:288-303 | an empty failure list means every event is linked and hashed, and conversely |
| AuditTrace.SameEndSameHistory | gateway/audit_trace_verifier.py:288-303 | tamper evidence: intact logs ending in one hash agree on every hashed field, event by event from the end |
| AuditTrace.SameEndSameLog | gateway/audit_trace_verifier.py:288-303 | with starting points outside the logs, such logs also have the same length and agree at every position |
| AuditTrace.UnhashedFieldsUnchecked | gateway/audit_trace_verifier.py:919-935 | rewriting only fields outside the hash changes neither the verdict nor the number of failures |
| AuditTrace.HonestLogIsIntact | gateway/command_spine.py:3871-3927 | every log built by the ledger's own append is verified intact |
| AuditTrace.CutIntactIff | gateway/audit_trace_verifier.py:288-303 | a log is intact iff its two parts at any cut are and the second starts from the last hash of the first: the first link itself is not checked |
| AuditTrace.HashesDistinct | gateway/audit_trace_verifier.py:288-303 | in an intact log that starts outside itself, all event hashes differ, by descent along the links |
| AuditTrace.AnchorRangeExact | gateway/audit_trace_verifier.py:730-750 | an anchor whose endpoints occur in order selects exactly that one contiguous range |
| AuditTrace.AnchorRangeBackwards | gateway/audit_trace_verifier.py:730-750 | endpoints in the wrong order select everything from the first endpoint on |
| AuditTrace.VerifyAnchor | gateway/audit_trace_verifier.py:305-359 | the whole report: failures in the order of the checks, none iff count, hashes, Merkle root and signature all check; both flags exact; missing anchor and missing secret handled |
| AuditTrace.CleanAnchorsAgree | gateway/audit_trace_verifier.py:305-359 | two ledgers that verify one anchor cleanly hold the same hashed content in its range |
| AuditTrace.IssuedAnchorVerifies | gateway/command_spine.py:3929-3969 | an issued anchor verifies cleanly on the log it was issued over and on every continuation of it |
| AuditTrace.VerifyReplayStateConsistency | gateway/audit_trace_verifier.py:470-528 | the whole verdict: no failures iff the command is known and its events walk from RECEIVED to the live state without a gap; the failures are the gaps in order |
| AuditFailures.EachEventAdds | gateway/audit_trace_verifier.py:288-303 | the failures stand in log order: an event adds its broken link, if its previous hash is not its predecessor's, then its wrong hash, if its hash is not that of its own fourteen fields |
| AuditFailures.ReportedIffDeserved | gateway/audit_trace_verifier.py:288-303 | a break or mismatch is reported under an event id iff some event of that id has it, told in the fields; nothing else is ever reported |
| AuditFailures.AnchorReportExact | gateway/audit_trace_verifier.py:305-359 | each of the four anchor failures is reported iff its check fails, mismatches under the id of an event that has one, and nothing else is |
| AuditFailures.IssuedAnchorSays | gateway/command_spine.py:3929-3969 | what an issued anchor says: first and last hash, count, root, key and time, signed over all of it |
| AuditFailures.FirstAnchorChecked | gateway/audit_trace_verifier.py:305-359 | of several anchors under one id the first is checked |
| AuditFailures.ReplayReportExact | gateway/audit_trace_verifier.py:470-528 | each replay failure is reported iff it is there: the gaps under the id of the event that does not go on from the state before it |
| AuditLedger.LedgerReplays | gateway/command_spine.py:2383-2422 | with fresh command ids, in every run of creations and transitions the events of every known command replay to its live state, and an unknown command has none |
| AuditLedger.StepReplaysIff | gateway/command_spine.py:3746-3794 | a call keeps every command replaying to its live state iff it does not create again a command that has moved on |
| AuditLedger.LedgerIntact | gateway/command_spine.py:3871-3927 | the log of every such run, fresh ids or not, is an intact chain |
| AxiomWorld.RealityHolds | gateway/axiomworld_kernel.py:343-410 | in every run: five truth states only, support means admitted, real and evidenced, subjects observed, ids and fingerprints consistent |
| AxiomWorld.FingerprintsIdentify | gateway/axiomworld_kernel.py:343-410 | no two distinct non-empty entity ids share a current fingerprint, in every run |
| AxiomWorld.EmptyIdEscapesIdentityCheck | gateway/axiomworld_kernel.py:343-410 | with a store that admits an empty id: a run after which an entity with the empty id and another share a fingerprint |
| AxiomWorld.StepOneEntityIff | gateway/axiomworld_kernel.py:343-410 | entities with distinct fingerprints stay so through a call iff it does not admit one under the fingerprint of the entity with the empty id |
| AxiomWorld.FingerprintsDistinct | gateway/world_state.py:523-524 | with a store that refuses empty ids, as the in-memory store does, no two entities of any run share a current fingerprint |
| AxiomWorld.StoreCoherentIff | gateway/axiomworld_kernel.py:802-815 | storing a claim keeps coherence iff it is unsupported or has no supported rival but the record it replaces |
| AxiomWorld.ProposeKeepsCoherence | gateway/axiomworld_kernel.py:412-508 | a proposal never breaks coherence, whatever the store answers and also when its id is already taken |
| AxiomWorld.ConflictPreserved | gateway/axiomworld_kernel.py:472-508 | after a conflict the claim and all its live rivals are CONFLICTED and no validation moves them |
| AxiomConflicts.StepKeepsConflictIff | gateway/axiomworld_kernel.py:343-614 | over every call: a CONFLICTED claim stays so iff it is not proposed again as a simulation, without evidence, or admitted without a live rival |
| AxiomConflicts.ConflictThroughoutIff | gateway/axiomworld_kernel.py:343-614 | a claim in conflict at some point of a run is so through the rest iff no later call does that |
| AxiomConflicts.SimulatedAgain | gateway/axiomworld_kernel.py:412-470 | a run of four calls: two rival claims in conflict, the second proposed again as a simulation; it alone is out of conflict |
| AxiomProposals.AdmittedIsStored | gateway/axiomworld_kernel.py:412-508 | an admitted, evidenced, real proposal about an observed subject is stored as proposed, CONFLICTED iff a stored claim of the same tenant, subject and relation has another value and is not revoked, deprecated or superseded, else SUPPORTED |
| AxiomProposals.ExactlyDisputedMarked | gateway/axiomworld_kernel.py:455-508 | of the other stored claims exactly those are marked CONFLICTED, nothing but their pressure changed with it; every other stays as it was |
| AxiomProposals.UnadmittedIsStored | gateway/axiomworld_kernel.py:412-454 | what every other proposal stores: a simulation or a hypothesis as proposed, or nothing |
| AxiomProposals.ProposalIsolated | gateway/axiomworld_kernel.py:802-815 | isolation: no proposal adds a claim but its own or changes one of another tenant, subject or relation, its own id apart |
| AxiomProposals.ReceiptNamesDisputed | gateway/axiomworld_kernel.py:455-508 | the receipt quarantines iff there are disputed claims and names exactly them |
| AxiomProposals.ConflictComesFromOwnMatter | gateway/axiomworld_kernel.py:412-614 | in every run a claim is CONFLICTED only through an admitted proposal about its own tenant, subject and relation: one with another value, or its own against a stored one with another value |
| AxiomProposals.ValidationExact | gateway/axiomworld_kernel.py:510-614 | a validation moves one claim one step up with the new evidence appended, iff it may, and touches no other claim or field |
| AxiomProposals.TenantsDoNotConflict | gateway/axiomworld_kernel.py:802-815 | two tenants say different things under the same names and both claims stay SUPPORTED |
| AxiomWorld.ValidateCoherentIff | gateway/axiomworld_kernel.py:510-614 | a validation keeps coherence iff it does not promote an un-admitted claim against a supported rival |
| AxiomWorld.CoherentThroughoutIff | gateway/axiomworld_kernel.py:412-614 | a whole run is coherent at every point iff none of its steps is such a promotion |
| AxiomWorld.UncheckedPromotion | gateway/axiomworld_kernel.py:510-614 | every run of four calls that observes, proposes two rival values, the second without evidence, and validates it is coherent before the last call and not after it |
| AxiomProposals.CoherentMeans | gateway/axiomworld_kernel.py:802-815 | coherence is: supported or validated claims of one tenant, subject and relation have one value |
| AxiomProposals.PromotionMeans | gateway/axiomworld_kernel.py:510-614 | the one step that breaks it: evidence for a hypothesis or simulation that the store admits, while a supported or validated claim of the same tenant, subject and relation has another value |
| AxiomProjection.ShownExactly | gateway/axiomworld_kernel.py:694-764 | what a scope shows: exactly the tenant's claims visible at that scope whose subject is shown; what visible means is told by the AxiomScopes rows below |
| AxiomProjection.WiderScopeShowsMore | gateway/axiomworld_kernel.py:925-950 | a wider scope shows every symbol and claim a narrower one shows |
| AxiomProjection.HiddenRecordsDoNotLeak | gateway/axiomworld_kernel.py:694-764 | kernels that agree on the records visible at a scope project equal symbol and claim lists |
| AxiomProjection.HiddenClaimUnobservable | gateway/axiomworld_kernel.py:694-764 | storing a claim hidden at a scope leaves the claims shown there as they were |
| AxiomProjection.HiddenSymbolUnobservable | gateway/axiomworld_kernel.py:694-764 | observing a symbol hidden at a scope leaves both lists shown there as they were |
| AxiomProjection.HiddenSymbolLeavesMark | gateway/axiomworld_kernel.py:694-764 | a newly observed hidden symbol adds exactly one redaction mark to its tenant's projection and none to another's |
| AxiomProjection.ShownPlusRedacted | gateway/axiomworld_kernel.py:694-764 | shown plus redacted counts equal the tenant's records |
| AxiomProjection.ProjectSymbols | gateway/axiomworld_kernel.py:694-725 | the symbol loop returns the shown views and the redactions of the specification, in order |
| AxiomProjection.ProjectClaims | gateway/axiomworld_kernel.py:726-764 | the claim loop does the same for claims, given the visible subjects |
| AxiomScopes.ListedExactly | gateway/axiomworld_kernel.py:694-764 | over every run an entity is listed at a scope iff its last admitted observation is of that tenant and may be seen there: PUBLIC with permission for PUBLIC, PUBLIC or INTERNAL for INTERNAL, SIMULATION for SIMULATION, any for PRIVATE |
| AxiomScopes.ListedAsObserved | gateway/axiomworld_kernel.py:694-764 | it is listed with the kind, title and overall confidence it was last observed with |
| AxiomScopes.ClaimListedExactly | gateway/axiomworld_kernel.py:925-950 | a claim is listed iff it is the tenant's, its subject is listed there, and its own scope, or for a simulation its truth state, lets it through |
| AxiomScopes.ClaimListedAsStored | gateway/axiomworld_kernel.py:694-764 | it is listed with the subject, relation, value, state and overall confidence it is stored with |
| AxiomScopes.ListedInOrder | gateway/axiomworld_kernel.py:694-764 | both lists stand strictly in the order of their ids |
| AxiomScopes.MarksTellWhy | gateway/axiomworld_kernel.py:694-764 | one symbol mark for every hidden symbol of the tenant, one subject mark for every claim of the tenant whose subject is not listed |
| AxiomScopes.ConfidenceExact | gateway/axiomworld_kernel.py:170-180 | overall confidence falls short of 1 by a sixth of what the six components lack and by all of the pressure, and stops at 0 |
| AxiomScopes.PrivateStaysPrivate | gateway/axiomworld_kernel.py:925-939 | an entity observed as PRIVATE is listed at PRIVATE only |
| AxiomScopes.UnpermittedStaysInside | gateway/axiomworld_kernel.py:925-939 | one observed as PUBLIC without permission is listed at INTERNAL and PRIVATE only |
| AxiomReceipts.OneReceipt | gateway/axiomworld_kernel.py:852-881 | every call leaves exactly one more receipt |
| AxiomReceipts.ObservationAnswered | gateway/axiomworld_kernel.py:343-410 | an observation is quarantined iff another named entity carries its fingerprint, which is named, and else accepted iff the store admits it, whose refusal is passed on |
| AxiomReceipts.UnadmittedAnswered | gateway/axiomworld_kernel.py:412-462 | the answer to every proposal that is about nothing observed, simulated, without evidence or refused |
| AxiomReceipts.AdmittedAnswered | gateway/axiomworld_kernel.py:455-508 | the answer to every other: accepted iff no claim disputes it, else quarantined naming exactly those that do, unless the store refuses the contradiction |
| AxiomReceipts.ValidationAnswered | gateway/axiomworld_kernel.py:510-614 | the answer to a validation by the state of the claim, the evidence and the store |
| AxiomReceipts.ProjectionAnswered | gateway/axiomworld_kernel.py:694-764 | the answer to a projection names tenant and scope |
| AxiomReceipts.TransitionsTold | gateway/axiomworld_kernel.py:111-143 | from which states each truth state may be reached |
| AxiomKernelObject.AxiomWorldKernel.ObserveEvent | gateway/axiomworld_kernel.py:343-410 | updates symbols, fingerprints and receipts as the step does and returns the receipt it logs |
| AxiomKernelObject.AxiomWorldKernel.ProposeClaim | gateway/axiomworld_kernel.py:412-508 | the in-place method equals the step, conflict marking included; the step is told field by field by the AxiomProposals rows above |
| AxiomKernelObject.AxiomWorldKernel.ValidateClaim | gateway/axiomworld_kernel.py:510-614 | the in-place method equals the step on every branch |
| AxiomKernelObject.AxiomWorldKernel.Project | gateway/axiomworld_kernel.py:694-764 | returns the specified projection, told entity by entity by the AxiomScopes rows above, and logs one receipt |
| AuthorityRuns.RunKeepsInv | gateway/authority_obligation_mesh.py:992-1366 | in every run: approvals duplicate-free, SATISFIED means at least the required and at least one approver, NOT_REQUIRED iff none is required, ids are hashes of their records |
| AuthorityRuns.ApproversQualified | gateway/authority_obligation_mesh.py:1086-1133 | every recorded approver once approved that very command with all required roles, and not as requester while separation was demanded; AuthorityApproving.ApproversHadTheRoles says the same in the roles of the call |
| AuthorityRuns.RequesterAbsent | gateway/authority_obligation_mesh.py:1680-1694 | the requester is no approver where every registered policy of that id demanded separation of duty, or none was registered |
| AuthorityPreparing.PreparingKeepsRecordsIff | gateway/authority_obligation_mesh.py:1508-1528 | told before the call: a preparation that goes through keeps every stored chain iff the id of the command, the applicable policy and the due time is not stored, or stored with just the chain about to be saved |
| AuthorityPreparing.PreparingLosesApprovalsIff | gateway/authority_obligation_mesh.py:1032-1084 | it loses approvals iff a stored chain of that command, policy id and due time holds some, whatever the clock read then |
| AuthorityPreparing.PreparingAgainResets | gateway/authority_obligation_mesh.py:1508-1528 | two preparations that agree on command, policy id and due time make one chain; the second leaves it without approvals and touches no other |
| AuthorityPreparing.SecondPreparationWipesApproval | gateway/authority_obligation_mesh.py:1032-1084 | a run that prepares, approves and prepares again at one instant, and ends without the approval |
| AuthorityPreparing.ShorterTimeoutWipesApproval | gateway/authority_obligation_mesh.py:1016-1084 | a run that loses it at another instant, after the policy was registered again with a shorter timeout |
| AuthorityRuns.DecisionExact | gateway/authority_obligation_mesh.py:1100-1131 | one decision, exactly: a refusal by anybody denies; an approval adds its approver once iff he qualifies, and satisfies iff he qualifies and there are then enough |
| AuthorityApproving.ApprovalExact | gateway/authority_obligation_mesh.py:1086-1133 | an approval of a pending or satisfied chain records its approver iff each required role is among the caller's and he is not the requester where the first policy under the chain's id, or its absence, demands separation; then SATISFIED iff there are enough; otherwise PENDING with approvals unchanged |
| AuthorityApproving.RefusalExact | gateway/authority_obligation_mesh.py:1086-1133 | a refusal denies such a chain, whoever gives it |
| AuthorityApproving.DecisionTouchesOneChain | gateway/authority_obligation_mesh.py:1086-1133 | no other chain changes, and none that is past deciding |
| AuthorityApproving.ApproversHadTheRoles | gateway/authority_obligation_mesh.py:1086-1133 | in every run without chain-id collisions each recorded approver once made an approving call with every required role among the roles of that call, not as requester where separation was demanded at that time |
| AuthorityApproving.OneMissingRoleRefuses | gateway/authority_obligation_mesh.py:1113-1124 | one missing role alone leaves the chain pending with nobody recorded; with it the same call satisfies the chain |
| AuthorityApproving.PreparedExactly | gateway/authority_obligation_mesh.py:1032-1084 | a preparation goes through iff command and action are known and an owner is, where the risk is high and strict mode is on; which error otherwise; what is noted as unowned; nothing else changes |
| AuthorityApproving.ChainAsksForItsPolicy | gateway/authority_obligation_mesh.py:1479-1528 | the chain asks for the roles, count and time of the policy registered for the tenant, capability and risk tier |
| AuthorityApproving.ChainAsksByDefault | gateway/authority_obligation_mesh.py:1479-1528 | with none registered, for the action's roles within 300 seconds, of nobody at low risk and of one approver above |
| AuthorityRuns.StepFrame | gateway/authority_obligation_mesh.py:992-1366 | which calls can change chains, obligations and policies at all |
| AuthorityRuns.VerifyApprovalChain | gateway/audit_trace_verifier.py:413-468 | of any mesh, each of the four failures is reported iff it is there: command unknown, approvals of its current chain repeated, satisfied with too few, committed over a chain neither satisfied nor unneeded |
| AuthorityRuns.AuditorFindsOnlyUnsatisfiedCommits | gateway/audit_trace_verifier.py:413-468 | after any run the auditor's only finding about a known command is a commit over an unsatisfied chain, and it misses none |
| AuthorityObligations.IndexEqualsFilter | gateway/authority_obligation_mesh.py:300-312 | listing by command equals, as a sequence, the full list filtered by command, in every run |
| AuthorityObligations.SatisfyIff | gateway/authority_obligation_mesh.py:1218-1240 | satisfaction succeeds iff the obligation is live and every required evidence is referenced; otherwise nothing changes |
| AuthorityObligations.SatisfiedOnEvidence | gateway/authority_obligation_mesh.py:1218-1240 | every satisfied obligation of a run was satisfied by a call naming all its required evidence |
| AuthorityEvidence.SatisfactionExact | gateway/authority_obligation_mesh.py:1218-1240 | satisfaction goes through iff the obligation is open or escalated and each piece of evidence is named by a reference: the name itself, or the name and a colon, or evidence:, the name and a colon, in front; only its status changes |
| AuthorityEvidence.SatisfactionRefusal | gateway/authority_obligation_mesh.py:1218-1240 | each refusal says what is wrong |
| AuthorityEvidence.ObligationsAskTheirKind | gateway/authority_obligation_mesh.py:1135-1216 | in every run each obligation asks for exactly the evidence of its kind, by name |
| AuthorityEvidence.SatisfiedWasShown | gateway/authority_obligation_mesh.py:1662-1678 | in every run each satisfied obligation was once shown a reference to each piece of evidence of its kind |
| AuthorityEvidence.OneMissingPieceRefuses | gateway/authority_obligation_mesh.py:1226-1228 | one piece of its kind's evidence missing alone refuses and changes nothing |
| AuthorityEvidence.OpensExactly | gateway/authority_obligation_mesh.py:1135-1216 | a closure leaves an obligation iff its papers are in order, disposition by disposition, in the fields of the certificate and the ownership on record |
| AuthorityEvidence.OpeningRefusal | gateway/authority_obligation_mesh.py:1135-1216 | each refusal names a paper that is missing |
| AuthorityEvidence.OpenedSays | gateway/authority_obligation_mesh.py:1530-1562 | the one obligation opened: command, tenant, kind, due time and certificate; no other obligation changes |
| AuthorityEvidence.OpenedIsOwned | gateway/authority_obligation_mesh.py:1455-1477 | it belongs to the owner on record of what the command was about, or to the requester and tenant operations |
| AuthorityEvidence.OpenedEscalatesUnder | gateway/authority_obligation_mesh.py:1630-1635 | it escalates under the policy of the command's chain, or the tenant's only escalation policy, or the default |
| AuthorityReopening.StepKeepsFulfilledIff | gateway/authority_obligation_mesh.py:1135-1281 | over every call: a settled obligation stays settled, and a satisfied one satisfied, iff the call is no closure that opens one under its id |
| AuthorityReopening.ReopensSameIff | gateway/authority_obligation_mesh.py:1530-1561 | where ids do not collide, that is a closure of the same command, kind, due time and certificate that goes through |
| AuthorityReopening.OpensIff | gateway/authority_obligation_mesh.py:1135-1197 | which closures leave an obligation, by disposition, told before the call, and under which id |
| AuthorityReopening.MetThroughoutIff | gateway/authority_obligation_mesh.py:1135-1281 | an obligation satisfied at some point of a run stays so through the rest iff no later call opens it again |
| AuthorityReopening.ReopenedAfterSatisfaction | gateway/authority_obligation_mesh.py:1147-1167 | a run from an empty mesh: an accepted risk is reviewed with all its evidence, the same certificate is presented again before it expires, and the obligation is open |
| AuthoritySweeps.ExpireCompleteAndIdempotent | gateway/authority_obligation_mesh.py:1283-1322 | expiry leaves nothing overdue, moves exactly the overdue chains with one event each, and a second sweep does nothing |
| AuthoritySweeps.CloseExact | gateway/authority_obligation_mesh.py:1324-1366 | closing needs evidence, denies exactly the matching expired chains with one event each, and unfiltered leaves none |
| AuthoritySweeps.ExpireThenCloseClearsChains | gateway/authority_obligation_mesh.py:1283-1366 | the two sweeps in a row leave zero overdue and zero expired chains |
| AuthoritySweeps.EscalateCompleteAndIdempotent | gateway/authority_obligation_mesh.py:1242-1281 | escalation leaves nothing overdue, raises the escalated count by the number returned with one routed event each, keeps the active reviews, and is idempotent |
| AuthorityDeadlines.ExpiryTold | gateway/authority_obligation_mesh.py:1283-1322 | record by record: PENDING and due becomes EXPIRED, everything else stays |
| AuthorityDeadlines.ExpiryReports | gateway/authority_obligation_mesh.py:1283-1322 | returned are exactly the chains moved, each reported in that order under its own id, command and tenant |
| AuthorityDeadlines.ClosingTold | gateway/authority_obligation_mesh.py:1324-1366 | record by record: EXPIRED, of the tenant and of the command if one is given, becomes DENIED, everything else stays |
| AuthorityDeadlines.ClosingReports | gateway/authority_obligation_mesh.py:1324-1366 | returned are exactly the chains denied, each reported in that order with the evidence given |
| AuthorityDeadlines.EscalationTold | gateway/authority_obligation_mesh.py:1242-1281 | record by record: OPEN and due becomes ESCALATED, everything else stays |
| AuthorityDeadlines.EscalationReturns | gateway/authority_obligation_mesh.py:1242-1281 | returned are exactly the obligations moved |
| AuthorityDeadlines.EscalationReports | gateway/authority_obligation_mesh.py:1637-1660 | each is reported in that order to whoever its escalation policy names, else the ownership of what the command was about, else its own owner |
| AuthorityDeadlines.WitnessChains | gateway/authority_obligation_mesh.py:1380-1439 | the chain counts of the witness are the numbers of stored chains pending, overdue and expired |
| AuthorityDeadlines.WitnessObligations | gateway/authority_obligation_mesh.py:1380-1439 | its obligation counts are the numbers open, overdue and escalated |
| AuthorityDeadlines.WitnessReviews | gateway/authority_obligation_mesh.py:1380-1439 | and those open or escalated of each kind |
| AuthorityDeadlines.WitnessClearIff | gateway/authority_obligation_mesh.py:1408-1414 | it is clear iff no chain is expired or overdue, no obligation escalated or overdue, and nothing noted as unowned |
| AuthoritySweeps.SatisfiedStandsIff | gateway/authority_obligation_mesh.py:1283-1322 | a satisfied current chain survives the expiry sweep as current iff no chain of its command is overdue |
| AuthorityStanding.StepKeepsSatisfiedIff | gateway/authority_obligation_mesh.py:1032-1366 | over every call: a command stays on its satisfied chain iff the call is no successful preparation of it, no refusal and no approval that does not count, no expiry with another chain of it overdue, no closing with evidence that matches one |
| AuthorityStanding.StandsThroughoutIff | gateway/authority_obligation_mesh.py:1032-1366 | an approval that stands at some point of a run stands through the rest iff no later call is of that kind |
| AuthorityStanding.RepreparedCommandLosesItsApproval | gateway/authority_obligation_mesh.py:1598-1611 | a run where the expiry sweep replaces a satisfied chain by an older, expired one |
| AuthorityStanding.ClosingUnseatsApproval | gateway/authority_obligation_mesh.py:1324-1366 | a run where closing an expired chain replaces a satisfied one, with nothing overdue, and leaves the command denied |
| AuthorityStanding.LaterDecisionsUnseat | gateway/authority_obligation_mesh.py:1100-1131 | runs where the requester's own approval puts a satisfied chain back to pending, and where anybody's refusal denies it |
| AuthoritySweeps.SweepChainsIndex | gateway/authority_obligation_mesh.py:286-295 | after a sweep a command points at the last of its swept chains, if any was swept |
| AuthorityMeshObject.InMemoryStore.SaveApprovalChain | gateway/authority_obligation_mesh.py:286-295 | the command then shows exactly this chain, and every other command what it showed before unless it pointed at the same id |
| AuthorityMeshObject.InMemoryStore.SaveTheObligation | gateway/authority_obligation_mesh.py:300-312 | the obligation is then listed once under its command, last if new and in its old place otherwise, and every other command's list is unchanged |
| AuthorityMeshObject.InMemoryStore.ListTheObligations | gateway/authority_obligation_mesh.py:309-312 | where the index is in order, the listing of a command is the full table filtered by that command, order included |
| AuthorityMeshObject.AuthorityObligationMesh.PrepareTheAuthority | gateway/authority_obligation_mesh.py:1032-1084 | equals the prepare step: errors, the note of a missing owner, default policies that are never stored |
| AuthorityMeshObject.AuthorityObligationMesh.RecordTheApproval | gateway/authority_obligation_mesh.py:1086-1133 | equals the approval step, told role by role by AuthorityApproving.ApprovalExact, with the policy looked up by a loop over the registered ones |
| AuthorityMeshObject.AuthorityObligationMesh.OpenPostClosureObligations | gateway/authority_obligation_mesh.py:1135-1216 | equals the opening step on every disposition and error |
| AuthorityMeshObject.AuthorityObligationMesh.RegisterApprovalPolicy | gateway/authority_obligation_mesh.py:1016-1022 | a negative approver count or a non-positive timeout is refused and changes nothing |
| AuthorityMeshObject.AuthorityObligationMesh.RegisterOwnership | gateway/authority_obligation_mesh.py:1010-1014 | a binding without a team or a primary owner is refused and changes nothing |
| AuthorityMeshObject.AuthorityObligationMesh.RegisterEscalationPolicy | gateway/authority_obligation_mesh.py:1024-1030 | negative timings and a missing fallback owner or team are refused and change nothing |
| AuthorityMeshObject.AuthorityObligationMesh.ObligationsFor | gateway/authority_obligation_mesh.py:1368-1370 | of any mesh object whose obligation ids have not collided: the stored obligations of the command, in storing order, through the index |
| AuthorityMeshObject.AuthorityObligationMesh.ApprovalChainFor | gateway/authority_obligation_mesh.py:1372-1374 | the command's current chain; of any mesh object it is in order, and where chain ids have not collided it belongs to that very command |
| AuthorityMeshObject.AuthorityObligationMesh.SatisfyTheObligation | gateway/authority_obligation_mesh.py:1218-1240 | equals the satisfaction step on every branch |
| AuthorityMeshObject.AuthorityObligationMesh.EscalateOverdue | gateway/authority_obligation_mesh.py:1242-1281 | the in-place loop equals the escalation sweep |
| AuthorityMeshObject.AuthorityObligationMesh.ExpireOverdueApprovalChains | gateway/authority_obligation_mesh.py:1283-1322 | the in-place loop equals the expiry sweep |
| AuthorityMeshObject.AuthorityObligationMesh.CloseExpiredApprovalChains | gateway/authority_obligation_mesh.py:1324-1366 | the in-place loop equals the closing sweep, filters included |
| ApprovalRouter.RequestConservation | gateway/approval.py:266-370 | with fresh ids every issued request is exactly once pending or settled, in every run |
| ApprovalRouter.SettledOnce | gateway/approval.py:340-370 | with fresh ids no request is settled twice |
| ApprovalRouter.RequestLosesIff | gateway/approval.py:291-338 | a call leaves one more issued request neither pending nor settled iff it asks above LOW under the id of one that waits in time and is not evicted to make room; otherwise it loses none |
| ApprovalRouter.CollidingIdsLoseRequest | gateway/approval.py:294-337 | two requests under one id: the first is neither pending nor settled |
| ApprovalRouter.ApprovalsExact | gateway/approval.py:266-370 | every approval of a run, exactly: the requests made at LOW keyword risk under a LOW or absent passport floor, as issued, and the pending ones answered yes in time |
| ApprovalRouter.TimeoutMeansDeny | gateway/approval.py:172-177 | every approved record of a run was asked for at LOW keyword risk and floor, or is above LOW and was answered strictly before its timeout; the window and the pending bound hold |
| ApprovalRouter.AutoApprovedIffLow | gateway/approval.py:114-126 | a request is auto-approved iff keyword risk and passport floor are both LOW |
| ApprovalRouter.RunGrows | gateway/approval.py:179-183 | settled records are never rewritten or dropped from the full history |
| ApprovalRouter.EvictsOldest | gateway/approval.py:219-241 | with a monotone clock the evicted request is the oldest pending one, and is settled as expired |
| ApprovalRecords.AskingExact | gateway/approval.py:266-338 | the record of a request repeats every field the caller gave, at the graver of the two risks and the time of the call: settled as approved by auto at LOW, pending and unanswered above |
| ApprovalRecords.AskingSpares | gateway/approval.py:243-338 | of the others a request settles exactly those out of time, and above LOW the first of those in time if they fill the queue; each keeps its fields, and the rest wait on unchanged |
| ApprovalRecords.EvictionsCounted | gateway/approval.py:219-241 | the eviction count grows by one iff a request above LOW meets 10000 that wait in time |
| ApprovalRecords.AnswerExact | gateway/approval.py:340-370 | an answer in time settles the request as answered, a late one as expired by timeout, with every field of the asking kept; nothing else moves |
| ApprovalRecords.LookupExact | gateway/approval.py:372-387 | a look-up settles a request out of time and changes nothing else |
| ApprovalRecords.PruneSpares | gateway/approval.py:243-264 | a prune settles what is out of time as expired and leaves the rest |
| ApprovalRecords.PruneSettlesStale | gateway/approval.py:243-264 | whatever a prune settles was out of time |
| ApprovalRecords.RecordsKeepTheirAsking | gateway/approval.py:266-370 | in every run each pending or settled record repeats what some call asked for, field by field |
| ApprovalRouterObject.Router.RequestApproval | gateway/approval.py:266-338 | equals the request step: prune, auto-approve or evict and enqueue |
| ApprovalRouterObject.Router.Resolve | gateway/approval.py:340-370 | equals the resolution step, with the late answer turned into an expiry |
| ApprovalRouterObject.Router.PruneExpiredPending | gateway/approval.py:243-264 | the loop that collects stale ids and then pops them one by one equals the prune step |
| ApprovalRouterObject.Router.LookupRequest | gateway/approval.py:372-387 | equals the lookup step and returns what was found |
| ApprovalRouterObject.Router.GetPending | gateway/approval.py:389-399 | the tenant's unexpired requests in arrival order, after pruning |
| AgentRuntime.HandoffGraphsAcyclic | gateway/agent_runtime.py:354-393 | in every run each task's handoffs are cycle-free and at most four, also when a handoff id is reused |
| AgentRuntime.EdgeToSinkAcyclic | gateway/agent_runtime.py:508-525 | adding an edge into a node without outgoing edges keeps a relation acyclic |
| AgentRuntime.HandoverKeepsAcyclic | gateway/agent_runtime.py:354-393 | one admitted handoff keeps its task's relation acyclic and within the depth |
| AgentRuntime.AuthorityAttenuates | gateway/agent_runtime.py:268-317 | with fresh ids every agent reaches a root, and is within the authority of every ancestor, in one tenant |
| AgentRuntime.AcceptedTasksInAncestorScope | gateway/agent_runtime.py:319-352 | the capability of every accepted task lies in the scope of every ancestor of its agent |
| AgentRuntime.NoForbiddenAuthority | gateway/agent_runtime.py:82-84 | no agent of any run holds a forbidden governance capability |
| AgentReuse.OverwriteKeepsAttenuationIff | gateway/agent_runtime.py:259-317 | storing an agent, under any parent, keeps every child inside its parent iff the children already stored under that id fit inside the newcomer |
| AgentReuse.OverwriteKeepsRootsIff | gateway/agent_runtime.py:259-317 | it keeps every ancestry ending at a root iff its id is not an ancestor of its parent, the parent included |
| AgentReuse.StepKeepsTasksIff | gateway/agent_runtime.py:259-352 | a call keeps accepted tasks in the scope of their agents iff an agent it stores still covers the accepted tasks under its id |
| AgentReuse.OrderlyThroughoutIff | gateway/agent_runtime.py:259-352 | all three hold throughout a run, ids reused or not, iff every stored agent meets the three conditions |
| AgentReuse.ReusedAncestorHasNoRoot | gateway/agent_runtime.py:268-317 | storing an ancestor again under its own descendant with the authority it had keeps every scope and leaves its line without a root |
| AgentReuse.LineageClosesOnItself | gateway/agent_runtime.py:268-317 | a run of four calls that does so over three generations |
| AgentReuse.SpawnUnderItself | gateway/agent_runtime.py:268-317 | an agent spawned under its own parent's id becomes its own parent, so its ancestry reaches no root |
| AgentAdmission.HandoffAdmittedIff | gateway/agent_runtime.py:354-393 | a handoff is stored iff both agents are stored, active and of its tenant, hold every capability handed over and its budget, context is given, and the task's chain has fewer than four and no edge out of the receiver; otherwise nothing changes |
| AgentAdmission.HandoffsWereWithinBoth | gateway/agent_runtime.py:511-552 | in every run each stored handoff was recorded by a call in whose state all that held |
| AgentAdmission.HandoffsWithinAncestors | gateway/agent_runtime.py:511-552 | with fresh ids it holds of the agents as stored now, and every capability handed over lies in the scope of every ancestor of both |
| AgentAdmission.NoHandoffAcrossTenants | gateway/agent_runtime.py:540-541 | however much else is in order, agents of two tenants hand nothing over |
| AgentAdmission.NoHandoffOfWhatIsNotHeld | gateway/agent_runtime.py:544-547 | nor does anybody hand over a capability that one of the two does not hold |
| AgentAdmission.TaskAdmittedIff | gateway/agent_runtime.py:319-352 | a well-formed task is stored as asked, ACCEPTED iff its agent is active, of its tenant, holds the capability and the budget, and high risk brings evidence |
| AgentAdmission.RootAdmittedIff | gateway/agent_runtime.py:259-266 | a root is registered iff it can be built and names no parent |
| AgentAdmission.SpawnAdmittedIff | gateway/agent_runtime.py:268-317 | a child and its lease are stored iff the parent is active, of its tenant, and holds all it asks for, and both can be built; otherwise nothing changes |
| AgentAdmission.SpawnDeniedIff | gateway/agent_runtime.py:268-300 | it is denied iff scopes are named and the parent may not bear the child; without scopes it is an error |
| AgentAdmission.HandoffReasonTrue | gateway/agent_runtime.py:511-552 | the reason a handoff is turned down for is a true one |
| AgentAdmission.TaskReasonTrue | gateway/agent_runtime.py:485-508 | so is a rejected task's |
| AgentAdmission.SpawnReasonTrue | gateway/agent_runtime.py:463-482 | and a denied spawn's |
| AgentCoordinator.ReceiptMade | gateway/agent_runtime.py:430-455 | a receipt is made iff tenant and actor are named, an empty actor being unknown, and says what it was given |
| AgentCoordinator.AgentRuntimeCoordinator.RegisterRootAgent | gateway/agent_runtime.py:259-266 | equals the registration step and logs one receipt, of this agent, iff it succeeds |
| AgentCoordinator.AgentRuntimeCoordinator.SpawnChildAgent | gateway/agent_runtime.py:268-317 | equals the spawn step; the receipt names parent, child, tenant and outcome, a denial its reason, an error changes nothing |
| AgentCoordinator.AgentRuntimeCoordinator.AssignTask | gateway/agent_runtime.py:319-352 | equals the assignment step, a missing time taken from the clock; the receipt is accepted iff the task is, and names agent, tenant, task and reason |
| AgentCoordinator.AgentRuntimeCoordinator.RecordHandoff | gateway/agent_runtime.py:354-393 | equals the handoff step, told by AgentAdmission.HandoffAdmittedIff, a missing time taken from the clock; the receipt names sender, tenant and handoff, a denial its reason, an error changes nothing |
| CandidateLedger.LedgerStore.AppendRecord | gateway/candidate_ledger.py:188-193 | a duplicate hash is refused and changes nothing; any other record is appended and seen |
| CandidateLedger.LedgerStore.QueryWinners | gateway/candidate_ledger.py:332-370 | the query's two passes return exactly the winners of the specification, in order |
| CandidateLedger.RefusedIffStored | gateway/candidate_ledger.py:115-128 | a record is refused iff its payload is stored already |
| CandidateLedger.AllAppendedIff | gateway/candidate_ledger.py:188-193 | a batch goes in whole iff no payload repeats within it or in the store |
| CandidateComposer.Composer.RunPipelines | gateway/candidate_composer.py:286-422 | stores exactly the records before the first refused one; when none is, the report files every candidate under its class in order, winners as CandidateWinners.ReportedByMerit says, with what was skipped and the findings against the baseline |
| CandidateComposer.Composer.RunSingles | gateway/candidate_composer.py:251-422 | the base strategy: the same, winners as CandidateWinners.ReportedByMerit says, over one pipeline per admissible capsule, every other capsule reported as skipped with its reason |
| CandidateComposer.SinglesAccounted | gateway/candidate_composer.py:251-284 | the base composer accounts for every capsule once: it runs, or it is skipped |
| CandidateComposer.FirstRunCompletes | gateway/candidate_composer.py:286-422 | a first run on a signature meets no duplicate hash and appends exactly one record per pipeline |
| CandidateComposer.SecondRunStopsAtOnce | gateway/candidate_composer.py:286-422 | the same run again stops at its first record and leaves the ledger as it was |
| CandidateComposer.WinnersAgreeIff | gateway/candidate_composer.py:382-398 | the report's winners are the ledger query's, in order, iff no candidate is misfiled by direction or compromised baseline |
| CandidateComposer.WinnersDisagree | gateway/candidate_composer.py:382-398 | a first run of one candidate whose scores declare the other direction: the two lists of winners differ |
| CandidateComposer.DisputedIsComposed | gateway/candidate_composer.py:542-607 | that run is what the declared composer makes of two specs of one registered capsule |
| CandidateComposer.DisputedConstructible | gateway/candidate_composer.py:68-94 | and nothing in it, signature, capsule, specs, pipelines or scores, is refused on construction |
| CandidateComposer.NegativesAgree | gateway/candidate_ledger.py:372-377 | the query's negatives are the baseline's, if it failed, followed by the report's, in order |
| CandidateWinners.ReportedByMerit | gateway/candidate_composer.py:286-422 | a first run reports a candidate as winner iff it passed, its review did not fail, there is a baseline whose review did not fail, and its last score of the primary metric is greater (maximize) or less (minimize) than the baseline's last one; as negative iff it did not pass; as review failure iff only its review failed |
| CandidateWinners.WinnersInOrder | gateway/candidate_composer.py:382-398 | the winners are those, in the order of the candidates |
| CandidateWinners.DeltaExact | gateway/candidate_composer.py:205-214 | the recorded difference on a metric is the last score less the baseline's last one, for exactly the metrics both were scored on |
| CandidateWinners.RecordSays | gateway/candidate_composer.py:344-380 | a candidate's record says what ran and what came of it, and has findings iff it passed and its review failed |
| CandidateWinners.BaselineSays | gateway/candidate_composer.py:300-340 | the baseline's record is marked as such and compared with nothing |
| CandidateWinners.QueriedByRecord | gateway/candidate_ledger.py:332-370 | after a first run the query finds exactly the records without findings that passed and whose last score beats the recorded baseline's last one, in the direction of their own first score of the metric |
| CandidateWinners.BetterWinsWorseDoesNot | gateway/candidate_composer.py:382-398 | a first run over a baseline of 0.7, a candidate of 0.9 and one of 0.4, metric to be high: the first alone wins |
| CandidateComposer.ClassesDisjoint | gateway/candidate_composer.py:382-398 | winners, negatives and review failures share no record; a compromised baseline leaves no winner |
| CandidateComposition.BaselineExact | gateway/candidate_composer.py:302-313 | the baseline is the first pipeline of just the declared family, the candidates all others in order |
| CandidateComposition.NoBaselineExact | gateway/candidate_composer.py:302-313 | there is none where no family is declared or no pipeline is of just it |
| CandidateComposition.ReportSays | gateway/candidate_composer.py:406-422 | the rest of the report: signature, metric, the candidates' and the baseline's hashes, and whether the baseline failed review, with its findings |
| CandidateComposer.ComposeExact | gateway/candidate_composer.py:542-607 | composed are exactly the first specs of their id with every capsule known and admissible; ids differ; every spec is composed or skipped |
| CandidateComposer.SkipsReportedIff | gateway/candidate_composer.py:519-540 | the report shows the skip list as it is iff no id is declared more often than once, or twice where its first spec is composed |
| CandidateComposer.RunsAndSkippedIff | gateway/candidate_composer.py:519-540 | a composed pipeline is reported as skipped too iff its id is declared again |
| CandidateComposer.SecondReasonHidesFirst | gateway/candidate_composer.py:519-567 | a spec with an unknown capsule declared twice: two skips, of which the report shows the second reason only |
| CandidateComposition.ComposedExactly | gateway/candidate_composer.py:542-607 | composed are exactly the first specs of their id all of whose capsules are registered, of a family not forbidden and, where any are allowed, allowed, and of a risk ceiling that reaches the signature's risk; with their families in order |
| CandidateComposition.SkippedExactly | gateway/candidate_composer.py:542-600 | every other spec is skipped: as a duplicate id, or for the first capsule of its chain that is unknown, of a wrong family or of too low a ceiling, named |
| CandidateComposition.ReasonShown | gateway/candidate_composer.py:522-540 | under a skipped id the report shows the last reason, and the capsule behind a colon |
| CandidateComposer.ComposedConstructible | gateway/candidate_composer.py:445-607 | every pipeline composed of specs that can be built can be built |
| CandidateComposer.SinglesDistinct | gateway/candidate_composer.py:251-265 | base composition: one pipeline per admissible capsule, no other, with distinct ids |
| CandidateComposition.SinglesExact | gateway/candidate_composer.py:241-265 | base composition, in the families and risks of the capsules: one pipeline of its own for each that fits, and no other |
| CandidateComposition.SinglesInOrder | gateway/candidate_composer.py:241-265 | in the order of registration |
| CandidateComposition.SinglesSkippedExactly | gateway/candidate_composer.py:267-284 | every capsule that does not fit is skipped, for its family or else for its ceiling |
| CandidateComposer.ComposedRunIsFirst | gateway/candidate_composer.py:217-607 | both ways of composing always supply the distinct ids a first run needs |
| CandidateComposer.RegisterKeepsRegistry | gateway/candidate_composer.py:233-236 | registration refuses exactly a taken id and keeps every capsule under its own |
| CandidateComposer.DeclaredCompositionComposer.ComposePipelines | gateway/candidate_composer.py:542-607 | the nested loop equals the specified composition, skip list included |
| CandidateComposer.DeclaredCompositionComposer.Run | gateway/candidate_composer.py:478-607 | the inherited run over the declared pipelines, with the same exact outcome, winners as CandidateWinners.ReportedByMerit says, and the skips keyed by pipeline id |
| AgentIdentity.BudgetConservation | gateway/agent_identity.py:322-334 | usage of an agent on a day equals the count and cost sum of that day's allowed decisions, in every run |
| AgentIdentity.DailyLimitsHold | gateway/agent_identity.py:385-417 | in runs that never lower a budget, usage never exceeds the daily limits |
| AgentIdentity.RegisterKeepsLimitsIff | gateway/agent_identity.py:310-315 | a registration keeps the limits iff the new budget covers every day's usage |
| AgentIdentity.LimitsThroughoutIff | gateway/agent_identity.py:310-334 | usage stays within the daily limits throughout a run iff every registration covers what was used so far |
| AgentIdentity.LoweredBelowUse | gateway/agent_identity.py:310-315 | a run of two actions under a limit of two, after which a limit of one is registered and exceeded; its budget, scopes and request pass their own construction checks |
| AgentIdentity.NoSelfApprovalNoPolicyMutation | gateway/agent_identity.py:385-458 | in every run no allowed decision is a policy mutation, a self-approval or unevidenced high risk, and reputation stays in [0, 1] |
| AgentIdentity.OutcomeBoundsEvidence | gateway/agent_identity.py:336-365 | after an outcome the evidence holds the newest record last, at most fifty, and the newest of those before |
| AgentRights.AllowedIff | gateway/agent_identity.py:385-458 | a request is allowed iff its agent is registered, active and of its tenant, the capability allowed and not forbidden, per-action and daily limits kept by what is counted for that day, and the memory, approval, delegation and evidence conditions hold, all told in fields |
| AgentRights.ReasonTrue | gateway/agent_identity.py:385-458 | a refusal gives the first reason, in the order of the checks, that is true |
| AgentRights.AllowedWasPermitted | gateway/agent_identity.py:322-334 | in every run each allowed decision was asked for in a state in which all that held |
| AgentRights.EvaluationCounts | gateway/agent_identity.py:322-334 | an evaluation counts one action and its cost against that agent and day iff it was allowed, and touches nothing else |
| AgentRights.RegisteredIff | gateway/agent_identity.py:179-202 | an identity is registered iff its names are given, it may do something, nothing it may do is forbidden to it or changes policy, and limit and reputation are in range |
| AgentRights.RegisteredAs | gateway/agent_identity.py:179-202 | it is stored as given, capabilities stripped, with the three policy capabilities among the forbidden |
| AgentRights.OutcomeTouches | gateway/agent_identity.py:336-365 | an outcome is taken up iff the agent is registered for that tenant, and changes its evidence and reputation only |
| AgentRights.ReputationExact | gateway/agent_identity.py:503-517 | by how much each status at each risk moves the score before rounding, kept in [0, 1] |
| AgentRights.ReputationMoves | gateway/agent_identity.py:503-517 | under monotone rounding success never lowers a rounded score, nothing else raises it, a graver status never leaves it higher, and higher risk never moves it less far |
| AgentIdentity.AgentIdentityRegistry.Evaluate | gateway/agent_identity.py:322-334 | counts usage in place iff the decision allows, as the step does |
| AgentIdentity.AgentIdentityRegistry.RecordOutcome | gateway/agent_identity.py:336-365 | replaces the identity by its updated record, or raises and changes nothing |
| UpgradePortfolio.PortfolioIsCanonical | gateway/autonomous_capability_upgrade.py:299-354 | permuting the signals gives the same portfolio, or no portfolio either way, on all inputs |
| UpgradePortfolio.LimitKeepsTheBest | gateway/autonomous_capability_upgrade.py:332-335 | a limited portfolio is a prefix of the unlimited one and no dropped plan ranks before a kept one |
| UpgradePortfolio.PortfolioOkIff | gateway/autonomous_capability_upgrade.py:310-354 | exactly when a portfolio is built, and what it then lists |
| UpgradePortfolio.RaisingLimitIff | gateway/autonomous_capability_upgrade.py:332-354 | raising the limit by one keeps a portfolio buildable iff there is no further plan or its id is trimmed |
| UpgradePortfolio.RaisedLimitFails | gateway/autonomous_capability_upgrade.py:332-354 | two constructible signals for which a limit of one succeeds and a limit of two fails |
| UpgradePortfolio.SystemicExact | gateway/autonomous_capability_upgrade.py:524-533 | systemic is exactly what two or more plans share, without repeats, by falling count and then code |
| UpgradePortfolio.SystemicWeaknessCodes | gateway/autonomous_capability_upgrade.py:524-533 | the counting loops and the sort compute the specified codes |
| UpgradePortfolio.Diagnose | gateway/autonomous_capability_upgrade.py:357-389 | the check-by-check loop yields blockers then failed checks without repeats, and the severity of the unreduced list |
| UpgradePortfolio.CountSeverities | gateway/autonomous_capability_upgrade.py:546-550 | every plan is counted in exactly one tier |
| UpgradePortfolio.PlansAimHigher | gateway/autonomous_capability_upgrade.py:483-487 | a plan aims above the present level unless at the top, and never below the level asked for |
| UpgradeRanking.ChangesExact | gateway/autonomous_capability_upgrade.py:553-558 | change classes are accepted iff every text names one, up to spaces around it, and then exactly those named are taken, once each |
| UpgradeRanking.PlanSays | gateway/autonomous_capability_upgrade.py:251-297 | a plan holds its signal, the level asked for or else one step up, the classes asked for that capability, and its diagnosis |
| UpgradeRanking.ReadByDigit | gateway/autonomous_capability_upgrade.py:26-27 | a maturity level is read from C and its digit and from no other text |
| UpgradeRanking.CodesExact | gateway/autonomous_capability_upgrade.py:357-389 | a diagnosis lists each blocker and each failed check by its code, once, or the preventive code if there is none |
| UpgradeRanking.NoFindingsIff | gateway/autonomous_capability_upgrade.py:357-377 | when there is none: no blocker, level four or higher, success of 0.98 or more, no failure, no incident, at most 5000 ms and a cost of at most 1.0 |
| UpgradeRanking.SeverityExact | gateway/autonomous_capability_upgrade.py:392-403 | exactly when a diagnosis is critical, high, medium or low, in the fields of the signal and the classes |
| UpgradeRanking.BlockedExact | gateway/autonomous_capability_upgrade.py:490-503 | exactly which reasons keep a plan blocked |
| UpgradeRanking.PortfolioInOrder | gateway/autonomous_capability_upgrade.py:506-521 | of any two plans the first is graver, or equal and with more open incidents, then more failures, a wider gap, a lower success rate, more time over 5000 ms, more cost over 1.0, or a smaller id; and how many there are |
| UpgradeRanking.PortfolioHolds | gateway/autonomous_capability_upgrade.py:323-335 | every plan is the one proposed for a signal, and without a limit every signal has its plan |
| UpgradeRanking.LimitDropsTheLeast | gateway/autonomous_capability_upgrade.py:332-335 | what a limit leaves out comes, in that order, after everything it lets in |
| UpgradeRanking.SystemicTold | gateway/autonomous_capability_upgrade.py:524-533 | systemic codes by the number of plans that carry them: two or more, falling, and alphabetical among equals |
| UpgradeRanking.SummaryTold | gateway/autonomous_capability_upgrade.py:336-354 | time stamp, counts, priority list and number of different evidence references |
| UpgradeRanking.SummaryBlocked | gateway/autonomous_capability_upgrade.py:536-543 | the portfolio is blocked by its own two reasons and by its plans' |
| UpgradeRanking.SummaryTiers | gateway/autonomous_capability_upgrade.py:546-550 | each tier's count is the number of plans of that severity |
| WorkerProtocol.BuildsIff | gateway/capability_isolation.py:109-121 | a request is built iff no required text is blank, the boundary is valid and it was drawn for this very capability |
| WorkerProtocol.BuiltRequestRoundTrip | gateway/capability_isolation.py:419-521 | every built request parses back from its own payload to the same request |
| WorkerProtocol.RequestRoundTrip | gateway/capability_isolation.py:463-521 | a valid request reads back as itself, unless its input hash was wrong, which is reported as such |
| WorkerProtocol.AcceptedInputsAgree | gateway/capability_isolation.py:507-521 | two bodies accepted under one input hash ask for the same thing |
| WorkerChecks.BoundaryReadIff | gateway/capability_isolation.py:30-58 | a boundary is read from a JSON object iff each field says so, no text but the network policy is blank, and both limits are positive |
| WorkerChecks.RequestReadIff | gateway/capability_isolation.py:477-521 | the worker reads a request from a body iff each field says so, absent optional ones as empty, no id is blank, the intent names skill and action, the boundary is of just that capability, and the input hash is right; blank text being no text |
| WorkerProtocol.ResponseRoundTrip | gateway/capability_isolation.py:524-569 | every well-formed reply reads back as itself |
| WorkerProtocol.WorkerAnswers | gateway/capability_worker.py:118-189 | what the worker answers a built request, by boundary and dispatch result |
| WorkerProtocol.AcceptedReplyIsReceipted | gateway/capability_isolation.py:572-595 | whatever answers, an accepted reply carries a valid receipt for this input, capability, plane and delivered output |
| WorkerChecks.ReceiptReadIff | gateway/capability_isolation.py:61-93 | a receipt is read from an object iff each field says so, none is blank, evidence is given, and it says twice that it closes nothing |
| WorkerChecks.ResponseReadIff | gateway/capability_isolation.py:535-569 | the gateway reads a reply from a body iff each field says so, the result null, absent or an object, and its receipt is read |
| WorkerChecks.DeliveredIff | gateway/capability_isolation.py:348-379 | whatever answers, the gateway delivers iff the reply is read, is under this request's id, succeeded, and its receipt is of this capability, plane, isolation and input, isolated where required, evidenced, and of this result |
| WorkerChecks.RefusalTrue | gateway/capability_isolation.py:572-595 | a refusal names what in the reply is wrong |
| WorkerChecks.ReceiptTold | gateway/capability_isolation.py:230-287 | the worker's receipt: capability, plane, worker and both hashes, and in id and evidence the first sixteen characters of the hash over exactly seven fields |
| WorkerChecks.ReplyTold | gateway/capability_worker.py:150-176 | the worker's reply: succeeded with the result, or failed with an error |
| WorkerChecks.LocalRunTold | gateway/capability_isolation.py:230-287 | the local run: refused for a boundary of another capability or an unfit receipt; else the raw result with the two records under their keys and otherwise as it was, or none |
| WorkerChecks.WorkerRepliesExactly | gateway/capability_worker.py:118-176 | on any body: what cannot be read, is not isolated or is of another plane is refused with that reason; anything else is run as asked, and the reply is the result without the gateway's three keys under the receipt of the run |
| WorkerProtocol.GatewayAcceptsIff | gateway/capability_isolation.py:348-379 | the gateway accepts its worker's reply iff the boundary is isolated and dispatch returned an object without reserved keys, and delivers it with the three records attached |
| WorkerProtocol.WireNamesValid | gateway/capability_isolation.py:463-533 | the key names in use can be told apart, so the theorems hold of them |

## Left out

- Locks and threads: calls are sequential steps.
- Postgres and JSON-file stores, HTTP, FastAPI, HMAC, environment loading, the Playwright adapter: only the in-memory stores, and signatures as opaque functions.
- ISO timestamps: times are integers, so the fallback to the wall clock on an unparsable string is not modelled.
- Floating point: scores, costs and rates are exact reals; the rounding of a reputation score is an arbitrary function before clipping.
- AxiomWorld.Step: `propose_action`, `simulate_action` and `materialize` (gateway/axiomworld_kernel.py:616-768) are not steps, and receipts carry no rule list, id or timestamp.
- AuthorityMesh.Step: notifications and the command ledger's own state transitions are side effects outside the model; commands and their governed actions are fixed inputs, and event ids are left out.
- ApprovalRouter.Step: the keyword risk of `classify_risk` is an input; notifications, the summary tallies and the text of a resolution reason are left out.
- AgentRuntime.Step: `evaluate_approval`, snapshots, content hashes and stamps are left out.
- AgentIdentity.EvaluateStep: required controls, the read model and stamps are left out.
- CandidateLedger.Append: record ids, timestamps, costs, durations and failure modes are left out; they are not part of the record hash.
- CandidateComposer.Composer.RunPipelines: evaluator, reviewer and seed are functions of the pipeline, so a callback that answers differently on a second call is not modelled; the report's notes and the problem id are left out.
- UpgradePortfolio.Propose: evals, sandbox tests, references, hashes and metadata of a candidate are left out; a signal is taken as already validated.
- WorkerProtocol.ParseRequest: a field of another JSON type than the protocol writes is refused as malformed; the source's `str()` and `int()` coercions of such fields are not modelled, nor are JSON floats.
- WorkerProtocol.WorkerReply: exceptions the source does not catch (an HTTP 500) are failures like the others.
- AuditLedger.Step: a `transition` to RESPONDED that raises for want of evidence changes nothing and is not a call here; leases, predictions, certificates and the ledger's other records are not part of this model.
- AuditTrace.VerifyAnchor: `sign` stands for the HMAC over the anchor's payload; `verify_command_trace`, certificate, tenant-isolation, evidence-record and trust-bundle checks are not part of this model.
- Agentic service harness projections, capability dispatch and maturity tables, redaction: constant tables and look-ups in them are not modelled.
