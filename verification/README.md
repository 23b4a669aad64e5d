# Verified model of the effect path, shared governance and canonical text

A Dafny model of the parts of the repository that promise an external effect
happens at most once, for the right reason, whatever is redelivered, retried or
raced; of the two rate limiters and circuit breakers; and of the canonical JSON
and quarantine printers. `dafny verify dfyconfig.toml` checks all of it.

The model follows the program's components, one module a file:

| module | models |
|---|---|
| `EffectStore`, `Approvals`, `CommitRecords` | draft rows with compare-and-set decisions, approvals, the write-once record table |
| `EffectGateway` | drafting, committing and discarding: one function for each stretch of code between awaits, and a class whose methods do the same in place |
| `CommitProtocol` | any number of replicas, each with a gateway with its own stores and decision lock, over one record table; one step per await, failures and restarts anywhere |
| `CommitGuarantees`, `CommitHistory`, `CommitWitness` | what every run of it promises; what its log tells: when a connector is called, how often a key is executed, what a decision stands on; and runs that meet the bound |
| `WorkQueue`, `Processor`, `EndToEnd`, `EndToEndWitness` | the peek-lock queue, the two processors, N replicas draining one queue through their gateways, and a run that meets their bound |
| `Verification`, `ItemPipeline`, `CostControl` | the bounded classify/act/verify run under its ledger, and the consume loop under the daily budget |
| `SharedTable`, `RowCreation`, `SharedRateLimit`, `TokenBucket`, `CircuitBreaker` | ETag read-modify-write by many replicas, its one unguarded write, and both forms of limiter and breaker |
| `JsonText`, `CanonicalJson`, `SignedText`, `Quarantine` | JSON text in UTF-16 units, canonical JSON, the request hash and escalation signature built on it, the fences |
| `SamplingQa` | the disagreement window and the breaker it trips |

The main results, hardest first: `EndToEnd.AtMostOnce`, `CommitHistory.ExecutionsBounded`
with `CommitWitness.BoundIsMet`, `CommitHistory.CalledOnceExactlyWhen`,
`CommitGuarantees.AtMostOneFreshAnswer`, `CommitGuarantees.CommittedKeyReplaysForever`,
`SharedTable.Linearizable`, `SharedRateLimit.CrossReplicaBound`,
`RowCreation.NeverOverwritesExactlyWhen`, `CommitHistory.TrippedCommitsAreHuman`,
`Approvals.BlockedForGoodExactlyWhen`,
`CanonicalJson.EqualTextExactly` and `TripExactly`, `SignedText.AssembledVerifiesAfterTheWire`,
`Processor.QueueDrains`, `CircuitBreaker.RefinesExactlyWhenProbing`, `ItemPipeline.RunItemPipeline`,
`CostControl.DayCapHoldsExactlyWhen`, `Quarantine.ExactlyOneOfEachFence`, `SamplingQa.TrippedExactly`.

Runs are sequences of labels; `Run` applies them one by one where they are
enabled, so a theorem about `Run(labels)` is about every interleaving. The
environment (clocks, models, connectors, operators, the evidence resolver, token
verification, fresh ids) enters as parameters of the labels and functions and is
otherwise arbitrary. `Config.durableStores` says whether the stores of a gateway
survive a restart (SQLite) or not (memory, which is what
`queue-ingress/src/index.ts:201-206` gets by passing no store); the theorems are
about both, and say where they differ.

## Where the code and its words differ

The model follows the code in each case.

- `toolshed.ts:610-614` says a timed-out approval is replaced by a fresh one. It never is, whatever an operator decides late: an approval first puts the call in the branch that answers `approval_timeout`, a denial in the one that answers `approval_denied`, and as it cannot be consumed the hash stays blocked for good (`Approvals.TimedOutForGood`, with the exact condition in `BlockedForGoodExactlyWhen`). A commit may still name the approval by its id (`Approvals.NamedIsPermittedExactly`).
- `shared-governance-state.ts:219-224` describes an optimistic read-modify-write. Its write of a row that was absent when read is unconditional. It can replace a stored row unless the row is stored and no call in progress is about to create it (`RowCreation.NeverOverwritesExactlyWhen`); K such creations multiply the rate limit by K (`SharedRateLimit.CreationRace`) and start the breaker over (`CircuitBreaker.ReplicasAreOneBreaker`); a row created before the replicas start rules it out (`SharedRateLimit.OneBucketOnceCreated`, `CircuitBreaker.OneBreakerOnceCreated`).
- `effect-gateway.ts:757-764` does not consume an approval that a commit names by its id, so one approval can permit many commits (`Approvals.OneApprovalManyCommits`); a single use is what calls matched by their hash get (`Approvals.EachApprovalSpentOnce`).
- `store.ts:91-96` says ties resolve to the newest request. At equal times the first inserted approval stays the match; the last one is it exactly when requested strictly later (`Approvals.LastIsMatchExactly`, `ResumesExactlyWhenLater`).
- `canonical-json.ts:7-16` promises the same text after a stringify/parse trip. It is the same exactly for values that hold no function and no symbol (`CanonicalJson.TripExactly`).
- `quarantine.ts:37-58` speaks of escaping only the exact delimiters. The code breaks every `<<<`, and the label can be read back exactly if it does not hold the fixed sentence (`Quarantine.BothRecoverableExactly`); with it the output itself is ambiguous (`Quarantine.LabelIsAmbiguous`).
- `README.md:342` promises zero double-commits. Over n replicas n connectors may return for one key even with durable stores, and with drafts in memory once more for every crash between a return and its put; no smaller bound holds (`CommitHistory.ExecutionsBounded`, `CommitWitness.BoundIsMet`, `EndToEndWitness.EveryReplicaExecutes`). A connector is called exactly when a commit clears its checks and looked up before every put (`CommitHistory.CalledOnceExactlyWhen`). A key is executed at most once exactly when no two commits of it cleared their checks, looked up before every put and returned (`CommitHistory.ExecutedTwiceExactlyWhen`). With the record table, what is at most one whatever happens is the fresh answer (`CommitGuarantees.AtMostOneFreshAnswer`).
- `cost-control.ts:119-124` caps the spend of a day, and the ledger is reset whenever the day differs. The cap (plus one item) holds, and an audit id is written once, exactly when the clock never returns to a day it has left (`CostControl.DayCapHoldsExactlyWhen`, `IdsApartExactlyWhen`).

## Model

| member | source | states |
|---|---|---|
| `EndToEnd.AtMostOnce` | extensions/queue-ingress/src/pipeline-processor.ts:279-349 | Through the whole path, with duplicates, lost locks, failing runs, failing settles and crashes between any two awaits, and whether or not an outcome was ever recorded: a replica executes an idempotency key to a return at most once, plus once for every crash that took its gateway's memory between that return and the first put of the key; over all replicas at most once each plus those crashes; and with durable draft stores there are none of those |
| `EndToEnd.CompletedMeansDone` | extensions/queue-ingress/src/pipeline-processor.ts:302-348 | Every message is in exactly one place; a completed one had an outcome recorded for its key, in the shared table still on record; a recorded pipeline commit stands on an execution of that key; a dead letter says malformed exactly when the envelope is |
| `EndToEnd.RecordedIsNeverRerun` | extensions/queue-ingress/src/pipeline-processor.ts:297-301 | Once a replica has an outcome of a key on record, every later delivery of it there, at any delivery count, is completed with that outcome: never run, never dead-lettered. With the table store that is every replica, for ever, with the first outcome; with outcomes in memory, that replica until it crashes |
| `EndToEnd.OutcomesAreKept` | extensions/queue-ingress/src/table-idempotency-store.ts:70-87 | What a replica has on record stays on record over every continuation of a run: in the table for ever and with the first outcome, in memory until that replica crashes |
| `EndToEnd.DuplicateRunsOnAnotherReplica` | extensions/queue-ingress/src/idempotency-store.ts:27-37 | A run in which one replica has run the item, in its pipeline if it has one, and recorded the outcome in its memory, and the duplicate is run again on another |
| `EndToEndWitness.EveryReplicaExecutes` | extensions/queue-ingress/src/pipeline-processor.ts:204-218 | For every n there is a run in which n replicas each carry a duplicate of one pipeline item to a connector call that returns, whichever stores are durable or shared: the bound over all replicas is met |
| `EndToEndWitness.SomeItem` | extensions/queue-ingress/src/pipeline-processor.ts:204-218 | Such an item, its draft and its caller exist for every kind of store |
| `EndToEnd.GatewaysRunTheProtocol` | extensions/queue-ingress/src/pipeline-processor.ts:204-218 | Seen from the gateways, every run of queue, processors and pipelines is a run of the commit protocol, so all of its theorems hold end to end |
| `EndToEnd.AnswerStands` | extensions/queue-ingress/src/pipeline-processor.ts:217-217 | A committed answer to the draft a pipeline made is about its own item's key, and that key has been executed |
| `CommitProtocol.Reachable` | extensions/mcp-toolshed/src/effect-gateway.ts:492-636 | Every state any number of gateways can reach, one step per await, with restarts that keep durable stores and lose memory ones, keeps the protocol invariant |
| `CommitProtocol.StepKeepsInv` | extensions/mcp-toolshed/src/effect-gateway.ts:496-636 | Each single step (draft, lookup, connector return, put, winner fetch, failed await, operators, review, QA reset, restart of either kind) keeps the invariant and undoes nothing |
| `CommitGuarantees.DecisionsAreFinal` | extensions/mcp-toolshed/src/effect-store.ts:198-209 | However a run goes on, durable records and the log stay as they are, and so does every decided row of a gateway; a gateway whose memory was lost keeps its rows only as history |
| `CommitGuarantees.CommittedKeyReplaysForever` | extensions/mcp-toolshed/src/effect-gateway.ts:512-518 | Once a row of a key is committed on a gateway, every later commit that gateway starts of a known draft of that key by a verified caller answers that row's decision and outcome; it goes on serving its replica for ever with durable stores, and until a restart with stores in memory |
| `CommitGuarantees.OncePerGateway` | extensions/mcp-toolshed/src/effect-gateway.ts:992-1002 | On one gateway, with lock-serialised decisions and rejections included, until its memory is lost: at most one row per key is committed and no key is executed to a return twice |
| `CommitGuarantees.AtMostOneFreshAnswer` | extensions/mcp-toolshed/src/effect-gateway.ts:606-635 | With the shared record store, at most one call per key over all gateways is answered as a fresh commit, and its decision and outcome are the durable record's |
| `CommitGuarantees.RecordSurvivesRowLoss` | extensions/mcp-toolshed/src/effect-gateway.ts:519-532 | Whatever stores are lost in between, once a key has a durable record a commit of it on any gateway is answered, when its lookup returns, with exactly that record as a replay |
| `CommitGuarantees.NothingExecutesAfterAPut` | extensions/mcp-toolshed/src/effect-gateway.ts:519-532 | A commit begun after any gateway's put for the key, won or lost, neither has executed nor is executing its connector |
| `CommitHistory.EveryDecisionStands` | extensions/mcp-toolshed/src/effect-gateway.ts:537-586 | Every committed row comes from one execution that was unexpired and evidenced at its checks and carries, wherever policy, a tripped QA breaker or the sampler asked for one, a human named by a non-empty approver of an approved record for that tool and draft in the store its gate read; every discarded row has a reason and such a human where due |
| `CommitGuarantees.CompareAndSetAloneIsNotEnough` | extensions/mcp-toolshed/src/effect-store.ts:198-209 | Why the lock and the lookup are needed: two unserialised commits of two drafts of one key both pass the lookup, and both per-draft compare-and-set writes win |
| `CommitProtocol.RecordCommitWrites` | extensions/mcp-toolshed/src/effect-gateway.ts:588-604 | Under the lock the decision write never loses: the not-written branch of a commit is unreachable |
| `CommitGuarantees.FreshIsDurable` | extensions/mcp-toolshed/src/effect-gateway.ts:606-613 | A fresh answer follows at once on a won put and repeats it |
| `CommitProtocol.ProceedsUncommitted` | extensions/mcp-toolshed/src/effect-gateway.ts:508-518 | A commit that passes its replays has found no committed row of its key |
| `CommitHistory.HistHolds` | extensions/mcp-toolshed/src/effect-gateway.ts:336-346 | In every reachable state the log tells which gateway served a replica when, what each gate found and read from the QA store, and which gate each execution comes from; a gateway acts only after every earlier one of its replica was lost |
| `CommitHistory.CalledOnceExactlyWhen` | extensions/mcp-toolshed/src/effect-gateway.ts:519-586 | A commit calls its connector if and only if it clears its own checks and looked the key up before every put of it; so a key's connector is called at most once if and only if, of any two commits of it that clear their checks, the later lookup came after a put |
| `CommitHistory.ExecutedTwiceExactlyWhen` | extensions/mcp-toolshed/src/effect-gateway.ts:519-604 | A key is executed to a return more than once if and only if two commits cleared their checks, looked it up before every put, and had their connector come back |
| `CommitHistory.ExecutionsBounded` | extensions/mcp-toolshed/src/effect-gateway.ts:492-636 | Over n replicas a key is executed to a return at most n times, plus once for every gateway that lost its memory between that return and the first put; with durable stores that is n |
| `CommitHistory.OncePerReplica` | extensions/mcp-toolshed/src/effect-gateway.ts:343-346 | One replica executes a key to a return at most once, plus once for every one of its gateways lost between that return and the first put; with durable stores once, whatever restarts |
| `CommitWitness.BoundIsMet` | extensions/queue-ingress/src/index.ts:201-206 | For every n and c there is a run of n replicas over one record table with exactly c gateways lost between return and put and n + c executions of one key; with durable stores c is 0 and all n replicas still execute it |
| `CommitWitness.SomeoneIsAble` | extensions/mcp-toolshed/src/effect-gateway.ts:519-586 | A configuration, draft and caller that clear every check exist, with durable stores and with stores in memory |
| `CommitHistory.TrippedCommitsAreHuman` | extensions/mcp-toolshed/src/effect-gateway.ts:546-571 | Every row committed while its type was tripped at its gate, which is when some verdict recorded on that gateway since the last reset left the windowed rate at or above the threshold, names a human authorised for it |
| `EffectGateway.OnlyVerifiedCallersProceed` | extensions/mcp-toolshed/src/effect-gateway.ts:496-518 | A commit gets past its start only with a token that verifies and speaks for the agent and scope the call names, for the draft it names, with no committed row of the key |
| `EffectGateway.DraftsAreInert` | extensions/mcp-toolshed/src/effect-gateway.ts:362-487 | A draft is undecided, takes its policy from its effect type, expires within seven days, and has a verified drafter only by a valid token of that agent |
| `EffectGateway.GateIsSound` | extensions/mcp-toolshed/src/effect-gateway.ts:522-586 | The connector is called only for an undiscarded, unexpired, evidenced draft no durable record covers, by an agent exactly when no human is needed, and otherwise by a human whose approved record was in the store |
| `EffectGateway.DiscardIsSound` | extensions/mcp-toolshed/src/effect-gateway.ts:644-703 | A discard writes exactly when it answers a fresh decision, and then turns one undecided row into an authorised discarded one with a non-blank reason and changes nothing else |
| `EffectGateway.EffectGateway.DraftEffect` | extensions/mcp-toolshed/src/effect-gateway.ts:362-487 | A draft is stored, inert, exactly when it is valid, with policy taken from the effect type; a refused one stores nothing |
| `EffectGateway.EffectGateway.StartCommit` | extensions/mcp-toolshed/src/effect-gateway.ts:496-518 | The step-by-step start of a commit: identity, draft, own replays |
| `EffectGateway.EffectGateway.ResolveHuman` | extensions/mcp-toolshed/src/effect-gateway.ts:750-797 | The approval a commit finds, consumes, waits for or creates; one named by the caller is not consumed |
| `EffectGateway.EffectGateway.AfterLookup` | extensions/mcp-toolshed/src/effect-gateway.ts:522-580 | The step-by-step gate from the durable lookup to the connector |
| `EffectGateway.EffectGateway.AfterExecute` | extensions/mcp-toolshed/src/effect-gateway.ts:588-604 | The decision write after the connector and its lost-race answers |
| `EffectGateway.EffectGateway.AfterPut` | extensions/mcp-toolshed/src/effect-gateway.ts:612-635 | A lost put answers the winner's record; an agent's commit may be routed to review |
| `EffectGateway.EffectGateway.DiscardEffect` | extensions/mcp-toolshed/src/effect-gateway.ts:644-703 | The step-by-step discard |
| `EffectStore.FindIsCommittedFirst` | extensions/mcp-toolshed/src/effect-store.ts:175-196 | The lookup by key finds a row exactly when one exists, a committed one whenever one exists, and the oldest among equals |
| `EffectStore.MemoryEffectStore.Decide` | extensions/mcp-toolshed/src/effect-store.ts:198-209 | Compare-and-set on the status: it writes exactly one undecided row or nothing |
| `EffectStore.MemoryEffectStore.SaveDraft` | extensions/mcp-toolshed/src/effect-store.ts:185-187 | A new id is appended, a known one replaced in place |
| `EffectStore.MemoryEffectStore.Find` | extensions/mcp-toolshed/src/effect-store.ts:192-197 | None exactly when no row has the key; otherwise the row committed before uncommitted, then the oldest, then the first saved |
| `EffectStore.GetDraft` | extensions/mcp-toolshed/src/effect-store.ts:188-191 | Finds the row of an id, and none exactly when there is none |
| `CommitRecords.TableCommitRecordStore.Put` | extensions/mcp-toolshed/src/commit-record-store.ts:76-92 | Insert-if-absent: the first record of a key stays |
| `CommitRecords.TableCommitRecordStore.Get` | extensions/mcp-toolshed/src/commit-record-store.ts:54-74 | Reads the record of a key or nothing |
| `Approvals.EachApprovalSpentOnce` | extensions/mcp-toolshed/src/toolshed.ts:577-592 | In every run of tool calls, commits (by hash or naming their approval) and re-deciding operators: no approval permits two calls matched to it by their request hash, and a hash has been given exactly as many such permissions as it has consumed approvals, so at most as many executions |
| `Approvals.NamedIsPermittedExactly` | extensions/mcp-toolshed/src/effect-gateway.ts:757-764 | A commit that names its approval by id is permitted if and only if that approval as stored authorises a human for the draft, consumed or not and however late, and it consumes nothing |
| `Approvals.OneApprovalPermitsAll` | extensions/mcp-toolshed/src/effect-gateway.ts:757-764 | From any reachable state, one approval permits one commit after another that names it, of every draft it authorises |
| `Approvals.OneApprovalManyCommits` | extensions/mcp-toolshed/src/effect-gateway.ts:757-836 | A run in which one approval, whose params name no draft, is asked for and approved once, permits commits of any list of drafts, and is never consumed |
| `Approvals.AllButNewestConsumed` | extensions/mcp-toolshed/src/toolshed.ts:580-635 | With strictly increasing request times all but the newest approval of a hash are consumed |
| `Approvals.LastIsMatchExactly` | extensions/mcp-toolshed/src/store.ts:90-106 | The approval inserted last is the match of its hash if and only if it was requested later than every earlier one of that hash |
| `Approvals.ResumesExactlyWhenLater` | extensions/mcp-toolshed/src/store.ts:90-106 | After a consumed approval a call asks anew and an operator approves: the resubmission executes on it if and only if it was requested later than every earlier one of the hash, and otherwise asks yet again |
| `Approvals.TimedOutForGood` | extensions/mcp-toolshed/src/toolshed.ts:580-617 | From any state in good order whose newest approval of a hash is unconsumed, whatever operators decide and other calls and commits do, while calls of the hash come after the timeout: none is permitted, no approval of the hash is created, and each is refused by either gate, as denied exactly when the last decision on the approval is a denial and as timed out otherwise |
| `Approvals.BlockedForGoodExactlyWhen` | extensions/mcp-toolshed/src/toolshed.ts:577-654 | With every call of a hash after its newest approval timed out, no continuation permits one or asks anew if and only if that approval exists and is unconsumed |
| `Approvals.RunGoesOn` | extensions/mcp-toolshed/src/toolshed.ts:577-654 | Every point of every run is a state in good order, so both are about all runs |
| `Approvals.HumanIsAuthorised` | extensions/mcp-toolshed/src/effect-gateway.ts:810-836 | A human is named exactly when the record is approved for that exact tool, names that draft if it names one, and has a non-empty approver |
| `Approvals.Newest` | extensions/mcp-toolshed/src/store.ts:90-106 | The newest request of a hash; of equal times the first inserted |
| `Approvals.ApprovalStore.GetApprovalByRequestHash` | extensions/mcp-toolshed/src/store.ts:90-106 | The search loop finds the newest approval of a hash |
| `Approvals.ApprovalStore.ResolveApproval` | extensions/mcp-toolshed/src/store.ts:107-119 | Deciding keeps the approver when none is given |
| `Approvals.ApprovalStore.MarkApprovalConsumed` | extensions/mcp-toolshed/src/store.ts:120-125 | Consuming stamps one approval |
| `Approvals.Toolshed.Gate` | extensions/mcp-toolshed/src/toolshed.ts:569-654 | The destructive-call gate, step by step on the approval store |
| `SharedTable.Linearizable` | extensions/mcp-toolshed/src/shared-governance-state.ts:225-245 | For any number of replicas and retries the stored value is the sequential fold of the committed operations, every result is the sequential one at a point between the call's start and its answer, a failed call changes nothing, and every conflict is owed to another call's commit |
| `SharedTable.StepKeepsInv` | extensions/mcp-toolshed/src/shared-governance-state.ts:204-245 | Each read, write, conflict and give-up keeps that explanation of the log |
| `SharedTable.RetriedMeaning` | extensions/mcp-toolshed/src/shared-governance-state.ts:225-245 | The retry loop answers from a value that was current when written, except for the unconditional first creation; it surfaces a conflict only after a rival in every attempt |
| `RowCreation.NeverOverwritesExactlyWhen` | extensions/mcp-toolshed/src/shared-governance-state.ts:204-218 | From any state, no continuation ever replaces a stored row by a write without an ETag if and only if the row is stored and no call in progress has read it absent and is about to create it |
| `RowCreation.StaysSettled` | extensions/mcp-toolshed/src/shared-governance-state.ts:204-245 | Such a row stays so under every continuation and is never created again |
| `RowCreation.CreatedOnce` | extensions/mcp-toolshed/src/shared-governance-state.ts:204-245 | A row that one call creates before any other begins is created once for ever |
| `SharedTable.GovernanceTable.ReadModifyWrite` | extensions/mcp-toolshed/src/shared-governance-state.ts:225-245 | The loop over the versioned table, against rivals writing in between |
| `SharedTable.GovernanceTable.WriteEntity` | extensions/mcp-toolshed/src/shared-governance-state.ts:204-218 | Upsert without an ETag, conditional update with one |
| `SharedRateLimit.CrossReplicaBound` | extensions/mcp-toolshed/src/shared-governance-state.ts:252-266 | With K creations from an absent row, grants over all replicas are at most K times (burst plus rate times the span of the times), stale and out-of-order times included |
| `SharedRateLimit.CreationRace` | extensions/mcp-toolshed/src/shared-governance-state.ts:212-213 | The factor K is needed for every K and every burst: K replicas that all find the row absent are granted K bursts, at one moment, of a bucket that never refills |
| `SharedRateLimit.OneBucketOnceCreated` | extensions/mcp-toolshed/src/shared-governance-state.ts:252-266 | Where one call has created the row before any other began, grants over all replicas are at most one burst plus the rate times the span |
| `SharedRateLimit.SmallBurstGrantsNothing` | extensions/mcp-toolshed/src/shared-governance-state.ts:152-170 | A burst below one token grants nothing, ever |
| `TokenBucket.GrantBound` | extensions/mcp-toolshed/src/rate-limiter.ts:39-63 | Any contiguous stretch of requests is granted at most the burst plus the rate times its time span, with the clock free to run backwards |
| `TokenBucket.RetryAfterExact` | extensions/mcp-toolshed/src/rate-limiter.ts:54-62 | Waiting the returned seconds is granted exactly when the burst is at least one, and one second less is denied whenever the answer exceeds one |
| `TokenBucket.KeysAreIndependent` | extensions/mcp-toolshed/src/rate-limiter.ts:40-52 | A key is granted exactly what it would be alone |
| `TokenBucket.KeyGrantBound` | extensions/mcp-toolshed/src/rate-limiter.ts:39-63 | The bound per key under arbitrary traffic on the others |
| `TokenBucket.TokenBucketRateLimiter.CanExecuteWithLimit` | extensions/mcp-toolshed/src/rate-limiter.ts:39-63 | The limiter on its map of buckets, updated in place |
| `CircuitBreaker.RefinesExactlyWhenProbing` | extensions/mcp-toolshed/src/shared-governance-state.ts:268-305 | The pure shared breaker answers every call of every sequence as the class does, if and only if halfOpenMaxRequests is at least 1 |
| `CircuitBreaker.Distinguished` | extensions/mcp-toolshed/src/circuit-breaker.ts:19-44 | A sequence that tells the two apart when no probe is allowed |
| `CircuitBreaker.ReplicasAreOneBreaker` | extensions/mcp-toolshed/src/shared-governance-state.ts:268-305 | In every run, races included, replicas sharing the row answer as one in-process breaker does after the calls committed since the row was last created: before the commit, or for a call that wrote nothing before a read made after it began |
| `CircuitBreaker.OneBreakerOnceCreated` | extensions/mcp-toolshed/src/shared-governance-state.ts:268-305 | Where one call has created the row before any other began, every answer is the one after all calls committed before it |
| `CircuitBreaker.StartsOverExactlyWhen` | extensions/mcp-toolshed/src/shared-governance-state.ts:204-218 | From any state some continuation makes the shared breaker start over, if and only if the row is not stored or some call in progress is about to create it |
| `CircuitBreaker.OpenGrantsNothing` | extensions/mcp-toolshed/src/circuit-breaker.ts:34-44 | An open breaker grants nothing before its timeout |
| `CircuitBreaker.EpisodeBudget` | extensions/mcp-toolshed/src/circuit-breaker.ts:34-44 | A half-open episode grants at most halfOpenMaxRequests calls |
| `CircuitBreaker.RecoversExactlyWhen` | extensions/mcp-toolshed/src/circuit-breaker.ts:46-57 | With each success reporting a grant of its own, a tripped breaker can close if and only if 1 <= halfOpenMaxRequests and successThreshold <= halfOpenMaxRequests |
| `CircuitBreaker.DefaultNeverRecovers` | extensions/mcp-toolshed/src/toolshed.ts:721-726 | Under the default 3/1 configuration an all-success episode never closes |
| `CircuitBreaker.CircuitBreaker.CanExecute` | extensions/mcp-toolshed/src/circuit-breaker.ts:34-44 | The class method on its fields, getter side effect included |
| `CircuitBreaker.CircuitBreaker.RecordSuccess` | extensions/mcp-toolshed/src/circuit-breaker.ts:46-57 | The class method on its fields |
| `CircuitBreaker.CircuitBreaker.RecordFailure` | extensions/mcp-toolshed/src/circuit-breaker.ts:59-69 | The class method on its fields |
| `CanonicalJson.EqualTextExactly` | packages/framework-core/src/canonical-json.ts:17-48 | Canonical text is equal exactly for JSON values equal up to object key order |
| `CanonicalJson.DecodesCanon` | packages/framework-core/src/canonical-json.ts:21-48 | The canonical text decodes, by RFC 8259, to the value with sorted keys |
| `CanonicalJson.TripExactly` | packages/framework-core/src/canonical-json.ts:21-48 | A stringify/parse trip keeps the canonical text if and only if the value holds no function and no symbol; undefined fields and elements are fine |
| `CanonicalJson.SerializePrintable` | packages/framework-core/src/canonical-json.ts:21-48 | Canonical text holds no raw control character, so no NUL |
| `JsonText.RoundTrip` | packages/framework-core/src/canonical-json.ts:21-48 | Decoding printed JSON text gives the value back and consumes exactly its text |
| `SignedText.PreimageExactly` | extensions/mcp-toolshed/src/toolshed.ts:138-153 | The NUL-delimited hash preimage is injective up to parameter key order |
| `SignedText.ResumeContract` | extensions/mcp-toolshed/src/toolshed.ts:138-153 | Resubmissions hash the same however keys are ordered; different calls hash the same only by a collision of the hash |
| `SignedText.AssembledVerifiesAfterTheWire` | extensions/queue-ingress/src/escalation.ts:64-122 | An assembled envelope sent as JSON and parsed again verifies under the same secret |
| `SignedText.SignedTextSurvivesExactly` | extensions/queue-ingress/src/escalation.ts:64-89 | The signed text survives the wire exactly when JSON can carry the envelope |
| `SignedText.AcceptedMeansUnaltered` | extensions/queue-ingress/src/escalation.ts:69-89 | Two envelopes accepted with one signature have equal content, or the MAC collides |
| `Quarantine.ExactlyOneOfEachFence` | packages/framework-core/src/quarantine.ts:59-76 | For every label and content the output holds the opening prefix only at its start and the closing fence only at its end |
| `Quarantine.ContentRecoverable` | packages/framework-core/src/quarantine.ts:59-76 | The original content is recovered from the output, given the label |
| `Quarantine.BothRecoverableExactly` | packages/framework-core/src/quarantine.ts:72-76 | Label and content are both recovered exactly when the label does not hold the fixed sentence itself |
| `Quarantine.LabelIsAmbiguous` | packages/framework-core/src/quarantine.ts:72-76 | A label that holds the fixed sentence gives the same output as a shorter label with a longer content, so no reader whatever reads both back |
| `WorkQueue.Conservation` | extensions/queue-ingress/src/queue.ts:38-97 | Whatever is called in whatever order, every enqueued id is in one place with its body and the true count of its deliveries |
| `WorkQueue.EveryIdInExactlyOnePlace` | extensions/queue-ingress/src/queue.ts:46-97 | An id is available, in flight, completed, dead or dropped by close, exactly one of them, and the counts add up to the ids enqueued |
| `WorkQueue.InMemoryWorkItemQueue.ReceiveNext` | extensions/queue-ingress/src/queue.ts:53-68 | Locks the first message and counts the delivery |
| `WorkQueue.InMemoryWorkItemQueue.AbandonMessage` | extensions/queue-ingress/src/queue.ts:74-81 | Returns a locked message to the tail with its count |
| `WorkQueue.InMemoryWorkItemQueue.DeadLetterMessage` | extensions/queue-ingress/src/queue.ts:83-90 | Moves a locked message to the dead ones with its reason |
| `WorkQueue.InMemoryWorkItemQueue.CompleteMessage` | extensions/queue-ingress/src/queue.ts:70-72 | Removes a locked message |
| `WorkQueue.InMemoryWorkItemQueue.EnqueueBody` | extensions/queue-ingress/src/queue.ts:46-51 | Appends a body under the next id |
| `WorkQueue.InMemoryWorkItemQueue.CloseQueue` | extensions/queue-ingress/src/queue.ts:92-96 | Drops what is waiting or in flight |
| `Processor.QueueDrains` | extensions/queue-ingress/src/processor.ts:100-139 | A queue of N messages is settled within N times maxDeliveryCount deliveries whatever the runs answer, each message run at most maxDeliveryCount - 1 times; completed ones have an outcome, poison ones failed every run they were allowed, malformed ones are exactly the malformed |
| `Processor.ReasonsAreExact` | extensions/queue-ingress/src/pipeline-processor.ts:279-349 | Each dead-letter reason, completion and abandonment happens exactly when it should, and a key with an outcome is completed with it at any delivery count |
| `Processor.WorkItemProcessor.Process` | extensions/queue-ingress/src/processor.ts:100-139 | The plain processor, step by step on queue and outcome store |
| `Processor.PipelineWorkItemProcessor.Process` | extensions/queue-ingress/src/pipeline-processor.ts:279-349 | The pipeline processor with its fallback, step by step |
| `Processor.IdempotencyStore.Set` | extensions/queue-ingress/src/idempotency-store.ts:46-48 | Overwriting in memory, first writer wins in the table |
| `Processor.DeliverKeeps` | extensions/queue-ingress/src/processor.ts:100-139 | Each delivery keeps the drain invariant and uses up work |
| `CostControl.DaySpendIsBounded` | extensions/queue-ingress/src/cost-control.ts:126-171 | On a monotone clock the spend recorded on any day, rollovers included, is zero or below the day cap plus one item, and the ledger holds today's spend exactly |
| `CostControl.AuditAlternates` | extensions/queue-ingress/src/consumer.ts:44-92 | Pause and resume entries alternate and no audit id is written twice on a monotone clock |
| `CostControl.IdsApartExactlyWhen` | extensions/queue-ingress/src/cost-control.ts:164-170 | Whatever the loop processes on a sequence of clock readings no audit id is written twice, if and only if the clock never returns to a day it has left |
| `CostControl.DayCapHoldsExactlyWhen` | extensions/queue-ingress/src/cost-control.ts:119-171 | Whatever the loop processes, no day's spend reaches the cap plus the dearest item, if and only if the clock never returns to a day it has left |
| `CostControl.ConsumeQueue` | extensions/queue-ingress/src/consumer.ts:40-67 | The consume loop with its daily-budget gate |
| `CostControl.ItemCostLedger.Record` | extensions/queue-ingress/src/cost-control.ts:94-103 | Charging and its status |
| `CostControl.DailyBudget.IsExhausted` | extensions/queue-ingress/src/cost-control.ts:153-156 | Rolls the day over, then compares |
| `CostControl.DailyBudget.Record` | extensions/queue-ingress/src/cost-control.ts:159-162 | Rolls the day over, then charges |
| `ItemPipeline.ItemSpendIsBounded` | extensions/queue-ingress/src/item-pipeline.ts:179-190 | A capped item spends less than its cap plus one call |
| `ItemPipeline.DaySpendComposes` | extensions/queue-ingress/src/item-pipeline.ts:461-475 | A day's recorded spend stays below the day cap plus the item cap plus one call |
| `ItemPipeline.RunItemPipeline` | extensions/queue-ingress/src/item-pipeline.ts:461-475 | On every exit, rethrows included, the hook is handed the sum of the priced calls exactly once; calls are an initial piece of the plan and none starts once the cap is reached; attempt i + 1 is fed exactly attempt i's de-duplicated errors; the history holds one record per verified attempt in order and is what an escalation sends; it answers committed only after a passed chain and one commit, and BUDGET_EXCEEDED exactly when the cap was reached |
| `ItemPipeline.RunWithAccount` | extensions/queue-ingress/src/item-pipeline.ts:478-568 | The bounded loop, attempt by attempt, against the plan |
| `ItemPipeline.PlanIsShort` | extensions/queue-ingress/src/item-pipeline.ts:478-568 | A run makes at most 1 + 2 * max_attempts model calls |
| `ItemPipeline.CommittedMeansVerified` | extensions/queue-ingress/src/item-pipeline.ts:524-530 | A committed run passed every verifier of its last attempt |
| `ItemPipeline.RunAttempt` | extensions/queue-ingress/src/item-pipeline.ts:503-522 | One attempt: act, then the chain, stopped where a call throws or reaches the cap |
| `ItemPipeline.RunModelCall` | extensions/queue-ingress/src/item-pipeline.ts:179-190 | A call is priced after it returns and halts the item at the cap |
| `ItemPipeline.CommitOrEscalate` | extensions/queue-ingress/src/item-pipeline.ts:524-542 | What passed is committed once; what is refused escalates with the whole history |
| `ItemPipeline.EscalateItem` | extensions/queue-ingress/src/item-pipeline.ts:392-410 | Bridged with an emitter, escalated without |
| `Verification.ChainPassesExactly` | extensions/queue-ingress/src/verification.ts:258-274 | The chain passes exactly when there is no schema error, every read matches and the sampled judge approves |
| `Verification.FeedbackIsExact` | extensions/queue-ingress/src/verification.ts:277-289 | Feedback holds error findings only, no id twice, and every error under its id |
| `Verification.CompositeAddsNothing` | extensions/queue-ingress/src/verification.ts:241-289 | The composite repeats every finding and the feedback is the same as without it |
| `Verification.CollectErrorFindings` | extensions/queue-ingress/src/verification.ts:277-289 | The nested loop with its seen set collects exactly the first error per id |
| `Verification.RunReconcileVerifier` | extensions/queue-ingress/src/verification.ts:155-205 | The read loop: one finding per check, passed when all match, abandoned when a read throws |
| `SamplingQa.TrippedExactly` | extensions/mcp-toolshed/src/sampling-qa.ts:350-378 | A type is tripped exactly when, since its last reset, some recorded verdict left the rate over its last windowSize verdicts at or above the threshold |
| `SamplingQa.StoreHoldsSinceReset` | extensions/mcp-toolshed/src/sampling-qa.ts:95-102 | The store holds exactly a type's verdicts since its last reset, other types untouched |
| `SamplingQa.MemorySamplingQaStore.ResetType` | extensions/mcp-toolshed/src/sampling-qa.ts:95-102 | The backwards splice loop removes exactly the type's verdicts and its trip |
| `SamplingQa.SamplingQaController.RecordVerdict` | extensions/mcp-toolshed/src/sampling-qa.ts:350-358 | Records, then trips on the rate |
| `SamplingQa.SamplingQaController.StatFor` | extensions/mcp-toolshed/src/sampling-qa.ts:366-378 | The windowed rate of a type |

## Left out

- `CommitHistory.ExecutionsBounded`: counts connector calls that return. A process that dies after the connector acted and before its answer is handled may act again after a restart, with durable stores too; the connector is handed nothing to tell the two apart.
- `CommitProtocol.Reachable`: a gateway's drafts, approvals and verdicts are all durable or all in memory; a mixture is not modelled. In `EndToEnd` the queue is a broker's and outlives the replicas.
- `CommitProtocol.StepKeepsInv`: awaiting an approval notification is folded into the stretch before it, since nothing is read or written after it but the answer.
- `CanonicalJson.TripExactly`: leaves out BigInt, `toJSON` and Date values, and identifies -0 with 0; numbers are their ECMAScript text.
- `SignedText.AssembledVerifiesAfterTheWire`: the MAC and its byte encoding are arbitrary functions; expiry is checked by the caller of the signature check.
- `Verification.RunReconcileVerifier`: whether a read equals an output field is an answer from outside; `outputField`, parameter templates and `deepEquals` are not modelled, and messages keep only their varying parts.
- `ItemPipeline.RunModelCall`: a call comes back with its price; tokens, the four-characters estimate and the price per 1,000 tokens are not modelled.
- `ItemPipeline.RunItemPipeline`: audit entries, prompts and the minting of the agent token are left out.
- `CostControl.ConsumeQueue`: the loop ends with the turns it is given, as it does on abort; days are numbers, not `YYYY-MM-DD` strings.
- `SamplingQa.TrippedExactly`: the in-memory store; the SQLite store orders verdicts by review time first.
- `WorkQueue.Conservation`: the in-memory queue; Service Bus itself appears as lock loss in `EndToEnd`.
- `Processor.QueueDrains`: one consumer and settles that succeed; lost locks and failing settles are in `EndToEnd`, which is about safety and not progress.
- The SQL stores, Azure row encodings, corrupt rows and ambiguous write failures.
- Floating point: tokens, dollars, rates and seconds are reals.
- HTTP, chat and MCP adapters, webhooks, the dashboard, telemetry and mocks.
- Raw type checks of draft parameters, YAML loading, glob and schema libraries, redaction.
- HMAC, SHA-256, UUIDs, base64 and token verification: uninterpreted functions and fresh ids.
- Retry and pagination, session expiry, the tool-call cache, hot reload and the orchestrator graph, which would only add easier members.
