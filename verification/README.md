# Verification of coordd

`coordd` coordinates the launch of a Cosmos chain under M-of-N committee governance. This project models its
interlocking state machines in Dafny and proves what they keep over whole runs.

- **One launch as a step system** (`Coordinator.dfy`). The state holds the launch row, join requests, proposals,
  readiness confirmations, rehearsal attempts and results, the final-genesis store, the governance entries of the
  audit log, and whether the process is up. Each service call, background job or restart is one step, including the
  calls that fail part-way. A run is a sequence of states from the one `CreateLaunch` stores.
- **The services as objects** (`Service.dfy`, over `LaunchAggregate.dfy`, `ProposalAggregate.dfy`,
  `RequestAggregates.dfy`). Aggregates are loaded, mutated in place and saved; transactions roll back partial writes.
  `Service.Coordd.Handle` is proved to take exactly the step of the step system, so the theorems about runs hold of it.
  The methods behind it are each proved against the row or step function of the same name; the table lists those with
  loops or rollback.
- **Theorems about runs** (`Invariants.dfy`, `Steps.dfy` and the `*Theorems.dfy` files), by induction over the run
  from one joint invariant.
- **Runs that show a limit** (`WitnessRuns.dfy`, `GenesisWitnesses.dfy`): where a claim needs a hypothesis, a run from the
  creation of the launch on which it fails without.
- **The audit log** (`AuditLog.dfy`): the JSONL writer with its chain tip, and the scanner that verifies it; and both logs
  put together (`AuditedRuns.dfy`).
- **The canonical fingerprint and the genesis check** (`InputSets.dfy`, `FinalGenesis.dfy`, `Sorting.dfy`), **voting
  power** (`VotingPower.dfy`, `JoinRequests.dfy`, `Amounts.dfy`), and the **time-window protocols**
  (`NonceStore.dfy`, `LeaseTheorems.dfy`), with the launches row as a compare-and-set (`LaunchTable.dfy`).

## Hypotheses

Each is a `requires` of the theorems that need it, or a choice of the model.

- Hashing is collision-free (`InputSets.CollisionFree`, `AuditLog.CollisionFree`); encoding and signing round trip
  (`AuditLog.Faithful`). Both are function values, not axioms, and the digests map to strings, so they can be met.
- One service call is one step. Where a call makes two writes outside a transaction, the step takes a flag for the
  second: the launch row after the genesis file (`saved`) and the lease after a rehearsal result (`released`). Nothing is
  assumed of these flags; where a result depends on them it says so (`GenesisStoreTheorems.Intact`, `Harmless`).
- Identifiers are positions or fresh numbers, and the request or attempt an input names belongs to this launch.
- At most 1000 requests are PENDING at a close (`ClosureTheorems.BacklogsFit`), for what is claimed after it;
  `ClosureTheorems.CloseLeavesNonePendingIff` shows the bound is exact.
- The conversion of a percentage to float64 keeps order (`VotingPower.Monotone`). Amounts are non-negative and fit in
  int64; `Amounts.AmountReadsBackIff` says when the code reads them so. A request's stake is what the leading digits of
  its gentx's amount field write (`Coordinator.StakeOf`).
- Clocks: `NonceStore.Ordered`, `LeaseTheorems.ClaimClock` and `ReadinessTheorems.ClockHolds` state what each
  time-window theorem needs of the clock readings.

## Where the code and its documentation disagree

The model follows the code.

- `README.md:32-34` says every lifecycle transition is a committee proposal. `OpenWindow` takes a launch from DRAFT or
  PUBLISHED to WINDOW_OPEN on one member's call (`services/launch.go:994-1023`); `Steps.StatusChangeIff` lists the exceptions.
- `sqlite/nonce.go:12-16` asks for a nonce memory of at least the 5-minute window. Since timestamps may also lie in the
  future, the least memory is twice the window plus the time between a request's readings (`NonceStore.MemoryIsLeast`),
  so ten minutes is exact, with no margin.
- `docs/mkdocs/concepts/proposals.md:60-62` says approvals apply only in WINDOW_OPEN. Approval has no status guard, so a
  request left PENDING by an oversized backlog, or in a CANCELED launch, can still be approved
  (`WitnessRuns.LeftoverIsApproved`).
- Approve and remove payloads name an operator that is never compared with the request's own
  (`services/proposal.go:477-495`, `537-549`). The stored state is unaffected; `JoinRequests.RecordAgreesIff` says when
  the in-memory powers agree.
- A tip that was never stored leaves the log's beginning unprotected after a restart:
  `AuditLogTheorems.DetectsEveryLossIff` gives the exact condition, `LostTipRun` such a log.
- The publication path (`services/proposal.go:611-616`) takes the recorded hash for that of what is served. The file store
  keeps a reference and a file side by side, removes neither, and serves the reference first (`fs/store.go:65-87`,
  `api/genesis.go:234-253`), so a reference uploaded before a checked file is still served after it
  (`GenesisWitnesses.StaleReferenceIsServed`). And it is written before the launch row and outside a transaction
  (`services/launch.go:211-225`), so an upload that loses the version race is served under the old hash
  (`GenesisWitnesses.TornUploadIsServed`). `GenesisTheorems.PublicationServesIff` gives the exact condition, which a
  committee can check before publishing.
- The lookup of a duplicate confirmation goes by the newest stamp (`sqlite/readiness.go:57-65`), so after the clock steps
  back an operator can hold two valid ones (`ReadinessTheorems.SecondValidIff`, `GenesisWitnesses.ClockStepBackDuplicates`).

## Model

| member | source | states |
|---|---|---|
| GenesisTheorems.PublicationIsExact | internal/application/services/proposal.go:606-632 | On every run, the step that publishes executes a proposal signed by M distinct accounts for exactly the hash it publishes, of a saved upload made since the window closed or was last reopened; the fingerprint is the one on record; under the required gate a service key is set and the latest result is a PASS that a verified fact gave that input set, on an attempt minted when a claim was served it; and if every backlog fitted its page, or the last upload saved its row, a served file carries exactly the keys of the requests approved then, each once |
| GenesisTheorems.PublicationServesIff | internal/infrastructure/storage/fs/store.go:65-87 | On every run, what a download gets after a publication has the published digest iff the stored reference has the digest on record before it, or there is no reference and the last upload saved its row or repeated the digest on record; with that row saved, iff no reference is stored or it has that digest |
| GenesisStoreTheorems.ServesRecordedIff | internal/infrastructure/api/genesis.go:234-253 | The same in every state with a final hash on record, published or not |
| GenesisStoreTheorems.BindingHolds | internal/application/services/launch.go:207-225 | While the last upload saved its row, the digest on record is that of the stored reference, or of the stored file, which carries the approved keys of the input set on record |
| GenesisStoreTheorems.KeysReachable | internal/application/services/launch.go:173-228 | On every run with fitting backlogs, without a reference, the stored file's keys lie between those approved now and those of the input set on record, saved row or not |
| GenesisStoreTheorems.RecordedUpload | internal/domain/launch/launch.go:295-303 | Behind every final hash on record in WINDOW_CLOSED is a member's saved upload, dated ahead, made since the window closed or was last reopened: after a revision nothing is published without a new upload |
| GenesisStoreTheorems.UploadAcceptedIff | internal/application/services/launch.go:173-228 | With validators approved, a final genesis is stored iff a member uploads it in WINDOW_CLOSED, for this chain, dated ahead, its keys a rearrangement of the approved ones |
| GenesisWitnesses.StaleReferenceIsServed | internal/infrastructure/storage/fs/store.go:50-87 | A run, every row saved, on which a reference uploaded first is still served after a checked file's digest was published |
| GenesisWitnesses.TornUploadIsServed | internal/application/services/launch.go:211-225 | A run on which a file whose row was not saved is served under the digest of the one before it |
| GenesisWitnesses.StrangerIsServed | internal/application/services/proposal.go:585-601 | A run with an oversized backlog and an unsaved row on which the served file carries a key that is not approved: without either hypothesis the key clause fails |
| GenesisTheorems.ReadyGenesisCarriesApproved | internal/application/services/launch.go:173-228 | In every reachable GENESIS_READY or LAUNCHED state, torn uploads or not, a served file still carries exactly the approved keys, given that the backlogs fitted |
| GenesisTheorems.FreshCarriesApproved | internal/application/services/proposal.go:696-709 | A file on record that is still fresh carries the keys approved now, although it was checked against those approved at upload |
| GenesisTheorems.FingerprintDriftIff | internal/application/services/proposal.go:785-803 | On every run, a step from GENESIS_READY changes the fingerprint iff it is a committed genesis-time update to another second or a veto of an approved allocation file |
| FinalGenesis.ValidateFinalGenesis | internal/application/services/launch.go:492-574 | Accepts exactly the files that meet the acceptance predicate, returns their genesis time, and says which time error or missing key |
| FinalGenesis.CollectKeys | internal/application/services/launch.go:523-533 | The key set is built iff every key is present and none repeats; otherwise the first offending index is reported |
| FinalGenesis.AllPresent | internal/application/services/launch.go:538-543 | Names an approved key that is not in the file, or none iff all are |
| FinalGenesis.AcceptsIff | internal/application/services/launch.go:492-574 | Against a non-empty list of distinct approved keys, a future-dated file is accepted iff its key sequence is a duplicate-free rearrangement of the approved keys |
| FinalGenesis.AcceptedMatchIff | internal/application/services/launch.go:547-571 | Among accepted files the match is exact iff the approved keys are distinct |
| FinalGenesis.RepeatedKeyAdmitsStranger | internal/application/services/launch.go:547-571 | A repeated approved key would let an unapproved key pass |
| FinalGenesis.NobodyApprovedAdmitsAnyone | internal/application/services/launch.go:522-550 | With nobody approved and no gen_txs, the staking validators are not looked at |
| RehearsalTheorems.ResultOrigin | internal/application/services/rehearsal_results.go:78-132 | Every stored result was recorded by a served call whose signature verified against a trusted key and whose fact carried exactly its outcome, input set, attempt and signature; stale iff the input set was not current then |
| RehearsalTheorems.RecordedIff | internal/application/services/rehearsal_results.go:161-185 | A fact is recorded iff it verified against a trusted key, its signature is new, its outcome known, and it names an attempt minted here for its input set |
| RehearsalTheorems.ResultsOnlyAdd | internal/application/services/rehearsal_results.go:187-200 | No result is ever dropped or changed, and no two share a signature |
| RehearsalTheorems.AttemptOrigin | internal/application/services/rehearsal_bridge.go:48-62 | Every attempt was minted by a served claim for the input set current then, which had none yet |
| InputSets.FingerprintIff | internal/application/services/input_set_hash.go:99-269 | Two fingerprints are equal iff the hashed chain fields, the set of (operator, key, gentx) and the approved hash of each allocation type are equal, whatever the storage order |
| InputSets.FingerprintFixesKeys | internal/application/services/input_set_hash.go:213-221 | Equal fingerprints mean the same approved consensus keys |
| InputSets.Assemble | internal/application/services/input_set_hash.go:99-169 | The approved requests and files, each sorted and a permutation of what is stored, with the fingerprint of the launch |
| InputSets.ComputeInputSetHash | internal/application/services/input_set_hash.go:175-269 | The digest of the chain fields, one entry per gentx in order, and one slot per allocation type |
| ClosureTheorems.CloseLeavesNonePendingIff | internal/application/services/proposal.go:585-601 | On every run, a close leaves no request PENDING iff at most 1000 were |
| ClosureTheorems.ClosedWindowIsBalanced | internal/domain/launch/launch.go:245-262 | On every run, after a close there are at least the declared number of validators and, if any power is committed, every approved operator is strictly under one third and at least four have power |
| ClosureTheorems.NonePendingAfterClose | internal/application/services/proposal.go:575-604 | On every run with fitting backlogs no request is PENDING in WINDOW_CLOSED, GENESIS_READY or LAUNCHED |
| ClosureTheorems.ApprovedNeverGrows | internal/application/services/proposal.go:528-531 | From the close on the approved set only loses members, through any later steps |
| ClosureTheorems.RequestsFrozenWhileReady | internal/application/services/proposal.go:528-531 | Through any stretch of GENESIS_READY and LAUNCHED no request changes |
| WitnessRuns.LeftoverIsApproved | internal/application/services/proposal.go:471-504 | A run with 1001 pending requests at the close, one of which is approved in WINDOW_CLOSED, so that the approved set grows |
| JoinRequests.ExpirePendingLeaves | internal/application/services/proposal.go:585-601 | How many requests stay PENDING after expiring a page of them; none iff they fit |
| VotingPower.DominantVotingPowerPct | internal/domain/launch/launch.go:602-635 | The rounded largest share, and an operator that holds the maximum when any power is committed |
| VotingPower.UndominatedBound | internal/domain/launch/launch.go:254-259 | Under any rounding that keeps order, passing the test leaves everyone strictly under one third and at least four operators with power |
| VotingPower.DominatedExactly | internal/domain/launch/launch.go:254-259 | Without rounding the test fails iff some operator holds a third or more |
| JoinRequests.LoadVotingPower | internal/infrastructure/storage/sqlite/launch.go:475-506 | The loop builds the powers of the APPROVED rows |
| JoinRequests.PowersEntries | internal/infrastructure/storage/sqlite/launch.go:475-506 | Each approved operator maps to its own self-delegation and nobody else is in the map |
| JoinRequests.PowersTotal | internal/infrastructure/storage/sqlite/launch.go:475-506 | The map sums to the approved self-delegations |
| JoinRequests.RecordAgreesIff | internal/domain/launch/launch.go:567-579 | Recording or removing an approval in memory agrees with reloading the map iff the payload names the request's own operator |
| Amounts.ParseAmountString | internal/domain/joinrequest/joinrequest.go:203-213 | The int64 wrap-around of the number written by the leading digits |
| Amounts.AmountReadsBackIff | internal/domain/joinrequest/joinrequest.go:203-213 | A decimal amount followed by its denomination reads back exactly iff it is below 2^63 |
| QuorumTheorems.ExecutedHadQuorum | internal/application/services/proposal.go:281-355 | On every run an executed proposal carries no veto and SIGN decisions of at least M distinct accounts, M being the threshold at the step that executed it |
| QuorumTheorems.EntriesAreMembers | internal/application/services/proposal.go:302-309 | Every entry on a proposal was added by an account that was on the committee at that step |
| QuorumTheorems.TerminalForever | internal/domain/proposal/proposal.go:130-206 | EXECUTED, VETOED and EXPIRED rows are the same ever after |
| QuorumTheorems.DecidedInTime | internal/domain/proposal/proposal.go:130-142 | On every run every decision on a proposal, and its execution, fell within 48 hours of its raising |
| QuorumTheorems.GovernanceInvariant | internal/application/services/proposal.go:211-244 | In every reachable state the committee has N members, 1 <= M <= N and its lead first; of two pending proposals neither repeats the other's action, both are not decisions (approve, reject or remove) on one join request, and a publication is not beside an approval or removal |
| QuorumTheorems.RaiseIff | internal/application/services/proposal.go:119-206 | A raise takes effect iff it is by a member, its payload complete, nothing pending conflicts, and for a publication the genesis is fresh, the gate met and no approval or removal pending |
| QuorumTheorems.ProposalOrigin | internal/domain/proposal/payload.go:98-231 | Every stored proposal was raised as it stands under those guards, with the required fields of its action |
| QuorumTheorems.ExpiryEndsExactly | internal/application/services/proposal.go:359-378 | The expiry job ends exactly the pending proposals raised more than 48 hours ago and changes nothing else |
| QuorumTheorems.ResizeSettles | internal/application/services/proposal.go:918-978 | A committed resize leaves M < N, at least two members, nothing pending, the resizing proposal EXECUTED, and M at the override or else lowered only as far as M < N forces |
| Proposals.SignOutcome | internal/domain/proposal/proposal.go:130-176 | A taken decision adds one entry; it ends EXECUTED iff it is no veto and m distinct accounts have signed, VETOED iff it is a veto |
| Proposals.SignAcceptedIff | internal/domain/proposal/proposal.go:130-146 | A decision is taken iff the proposal is pending, at most 48 hours old, and without an entry of this account |
| Proposals.RaiseOutcome | internal/domain/proposal/proposal.go:181-197 | The proposer alone reaches quorum iff the threshold is at most one |
| Proposals.SignCountIsSigners | internal/domain/proposal/proposal.go:209-217 | Counting SIGN entries counts distinct accounts |
| Launches.CheckCommittee | internal/domain/launch/launch.go:187-204 | Accepted iff N members, 1 <= M <= N, lead first |
| Launches.ResolveThreshold | internal/application/services/proposal.go:991-1003 | An override as given; else, for N >= 2, within [1, N-1], not above the current value, and equal to it or to N-1 |
| Launches.ExpandResult | internal/domain/launch/launch.go:409-428 | Success leaves M < N, lead first, membership grown by exactly the newcomer; without an override it always succeeds for a newcomer and keeps M |
| Launches.ShrinkResult | internal/domain/launch/launch.go:435-465 | Success leaves M < N, lead first, membership without exactly the one removed; without an override it succeeds whenever two remain and lowers M only to N-1, only if needed |
| Launches.ReplaceDistinctIff | internal/domain/launch/launch.go:391-403 | Addresses stay distinct iff the newcomer was not already elsewhere on the committee |
| Launches.AllocationsStayUnique | internal/domain/launch/launch.go:488-563 | Upload, approve and reject keep at most one file per type |
| AllocationTheorems.FilesAreBacked | internal/domain/launch/launch.go:488-563 | In every reachable state a file is APPROVED iff it names an approver, which is an EXECUTED approval of this type and exactly this file's hash; a REJECTED file has a VETOED one of the same |
| AllocationTheorems.VetoIsLogged | internal/application/services/proposal.go:827-854 | A veto that takes a file down logs the rejection of exactly this file once, unless the write is lost, and a write that fails stops the process; otherwise nothing is logged |
| Steps.StatusChangeIff | internal/application/services/launch.go:994-1023 | The status changes iff a proposal of one of the five lifecycle actions commits, or one of the three direct calls meets its own guard; each leads to its own next status |
| LifecycleTheorems.ChangesAreEntitled | internal/application/services/launch.go:873-1117 | On every run the launch row and the genesis store change only by a member's proposal, decision or call, by the lead where only the lead may, or by block one |
| LifecycleTheorems.RecordChanges | internal/application/services/launch.go:624-702 | A step leaves the chain record as it is, but for a patch of the patchable fields in DRAFT and for the genesis time of a committed update or saved final upload; the initial hash is set only by an upload in DRAFT |
| LifecycleTheorems.RecordFixedAfterDraft | internal/application/services/launch.go:674-685 | From leaving DRAFT on, the record is fixed but for the genesis time, and so is the initial genesis hash |
| LifecycleTheorems.PublishedHasInitial | internal/application/services/proposal.go:557-573 | A launch past DRAFT, unless canceled, has a well-formed initial genesis hash |
| LifecycleTheorems.CommitteeChanges | internal/application/services/proposal.go:856-978 | The committee changes only by a committed replacement, expansion or shrinking, each by exactly the accounts it names and with its threshold, or by the lead in DRAFT |
| Steps.CommittedEffect | internal/application/services/proposal.go:1018-1046 | A committed execution has exactly its action's effect on the tables |
| ExecutionTheorems.CommitsIff | internal/application/services/proposal.go:400-444 | On every run a proposal that reaches quorum commits iff its intent is written, the transaction does not fail, and the launch is as its action needs it, stated for each of the thirteen actions |
| Invariants.ExecuteShape | internal/application/services/proposal.go:1018-1046 | An execution changes no table, or exactly as its action does |
| Invariants.Reachable | internal/application/services/proposal.go:400-444 | Every state of every run satisfies the joint invariant over committee, proposals, requests, readiness, genesis binding and rehearsal results |
| ReadinessTheorems.ValidConfirmationVouches | internal/application/services/readiness.go:113-171 | In every reachable state a valid confirmation implies GENESIS_READY or LAUNCHED, the launch's final hash, its binary hash where one is declared, and an APPROVED request of that operator |
| ReadinessTheorems.ConfirmationEndsIff | internal/application/services/proposal.go:785-916 | On every run a valid confirmation is unchanged by every step except a committed genesis-time update, revision or cancellation, each of which ends it |
| ReadinessTheorems.ConfirmedIff | internal/application/services/readiness.go:113-156 | A confirmation is added iff the genesis is out, the operator's newest request is APPROVED, the hash is the launch's, so is the binary hash where one is declared, and the operator's newest confirmation is not valid |
| ReadinessTheorems.NoTwoValid | internal/application/services/readiness.go:148-156 | When no confirmation is stamped before an earlier one of the same operator, no operator ever has two valid ones |
| ReadinessTheorems.SecondValidIff | internal/application/services/readiness.go:148-156 | On every run a step gives an operator a second valid confirmation iff it is that operator's call, meets the guards on status, request and hashes, and the valid one is stamped before one invalidated earlier |
| GenesisWitnesses.ClockStepBackDuplicates | internal/infrastructure/storage/sqlite/readiness.go:57-65 | A run: confirmed at 9, voided by a genesis-time update, confirmed at 5 and at 6 after the clock stepped back, two valid |
| IntakeTheorems.OneActiveRequest | internal/application/services/joinrequest.go:184-209 | In every reachable state active requests have distinct validators and keys, and a request names an approver iff it is APPROVED, by an executed approval of itself |
| IntakeTheorems.SubmitOutcome | internal/application/services/joinrequest.go:250-314 | A submission adds its request iff the guards hold and no other validator holds the key; a refused one still expires the validator's pending request, in exactly the stated cases, and changes nothing else |
| IntakeTheorems.RequestsNeverReopen | internal/domain/joinrequest/joinrequest.go:89-127 | On every run what was submitted never changes, REJECTED and EXPIRED are final, APPROVED ends only in REJECTED |
| IntakeTheorems.RejectionHasProposal | internal/domain/joinrequest/joinrequest.go:99-127 | Every REJECTED request carries the reason of an executed rejection or removal of it |
| IntakeTheorems.ExpiredStep | internal/domain/joinrequest/joinrequest.go:109-115 | A request becomes EXPIRED only from PENDING, by the close of the window or by a submission for the same validator |
| IntakeTheorems.SubmissionsAreCapped | internal/application/services/joinrequest.go:264-272 | No submitter ever has more than fifty requests in a launch |
| IntakeTheorems.LoadedPowersAreStakes | internal/infrastructure/storage/sqlite/launch.go:475-506 | In every reachable state the loaded powers give each APPROVED operator the stake its gentx commits, hold nobody else, and add up to the approved stakes |
| AuditTrailTheorems.TrailIsComplete | internal/application/services/proposal.go:1018-1079 | In every state of every run, for any pattern of write and transaction failures: each executed proposal has its intent logged, exactly one completion after it unless the process stopped while writing it, and none otherwise; each completion reports the proposal's own action |
| AuditTrailTheorems.OneEventPerAction | internal/domain/proposal/proposal.go:234-312 | Each of the thirteen actions has exactly one completion event, and it reports that action |
| AuditTrailTheorems.ExecuteTrail | internal/application/services/proposal.go:1018-1046 | What one execution attempt appends to the log in each failure pattern |
| AuditedRuns.TrailSurvives | internal/infrastructure/auditlog/jsonl.go:225-266 | A file that scans clean and passes the tip check, against a log that carried the trail, holds each executed proposal's intent and, unless the process stopped over it, a completion reporting it after that |
| AuditedRuns.WriteIsAppend | internal/application/services/proposal.go:1022-1028 | A governance write of either outcome is an append of the same outcome, so the file goes on carrying the trail |
| AuditLogTheorems.ScanIsComplete | internal/infrastructure/auditlog/scan.go:73-121 | The line-by-line fold over any log the writer can produce has no tamper anomaly, counts every entry, and has a clock anomaly at exactly the entries that precede the one before; Scan returns it unless a line exceeds its buffer. A writer with a key signs every line, and remembers the last time across restarts |
| AuditScanTheorems.ScanReportsExactly | internal/infrastructure/auditlog/scan.go:73-180 | For any file and key: a tamper anomaly at a line iff it is non-empty and does not parse, lacks a required field, has a signature that does not verify over the entry without it, or names a digest that is not that of the last usable line before it; a clock anomaly iff it is dated before that line; the count, first and last times are those of the usable lines |
| AuditScanTheorems.ChainCheckedIff | internal/infrastructure/auditlog/scan.go:106-110 | The chain counts as checked iff some line's link to the last usable line was verified |
| AuditLogTheorems.TamperEvidence | internal/infrastructure/auditlog/scan.go:169-180 | A file that scans clean and whose last line hashes to a chain's tip ends with exactly that chain |
| AuditLogTheorems.AppendedSurvives | internal/infrastructure/auditlog/jsonl.go:73-117 | For every run that stored its tips: any file that scans clean and passes the tip check ends with everything appended, in order |
| AuditLogTheorems.DetectsEveryLossIff | internal/infrastructure/auditlog/jsonl.go:225-266 | On any run, whatever failed: all passing files end with everything appended iff the stored tip is the last line's and every later line carries the digest of the one before |
| AuditLogTheorems.LostTipRun | internal/infrastructure/auditlog/jsonl.go:73-91 | A run of four steps, the first tip write failing, after which the first line can be dropped and the file still passes |
| AuditLogTheorems.RestartIff | internal/infrastructure/auditlog/jsonl.go:152-194 | A full-check restart of an untouched log is refused only over a stale tip or a line too long to read |
| AuditLogTheorems.CleanScanIsLinked | internal/infrastructure/auditlog/scan.go:73-121 | No tamper anomaly means the non-empty lines are linked one to the next |
| AuditLog.Scan | internal/infrastructure/auditlog/scan.go:73-121 | The loop computes the line-by-line fold, or fails iff some line exceeds the buffer |
| AuditLog.JSONLWriter.Append | internal/infrastructure/auditlog/jsonl.go:225-266 | One sealed line appended, memory and tip updated, per write outcome; a clock warning exactly on a backward time |
| AuditLog.JSONLWriter.Restart | internal/infrastructure/auditlog/jsonl.go:73-194 | Starts iff tip, last entry and, when asked, the full scan agree; takes over the stored tip |
| LaunchTable.NoLostUpdate | internal/infrastructure/storage/sqlite/launch.go:28-86 | Over any interleaving of loads and saves, commit i has version i and was computed from commit i-1 |
| LaunchTable.Table.Save | internal/infrastructure/storage/sqlite/launch.go:28-86 | Succeeds iff the version matches or there is no row; otherwise nothing changes |
| NonceStore.NoReplay | internal/infrastructure/storage/sqlite/nonce.go:16-45 | No payload is accepted twice on any run when the memory lasts twice the window plus the lag between readings |
| NonceStore.MemoryIsLeast | internal/infrastructure/storage/sqlite/nonce.go:12-45 | Replay is impossible on every run iff the memory lasts at least that long |
| NonceStore.ConfiguredMemory | internal/application/services/helpers.go:11-38 | The configured ten minutes suffice iff a request reads the clock once |
| NonceStore.Store.Consume | internal/infrastructure/storage/sqlite/nonce.go:28-45 | Refused iff remembered; otherwise remembered, and expired rows are dropped |
| NonceStore.ValidateTimestamp | internal/application/services/helpers.go:22-38 | Accepted iff present and within five minutes either way |
| LeaseTheorems.LeaseIsExclusive | internal/application/services/rehearsal_bridge.go:48-83 | While an uninterrupted grant is in force, a claim is granted iff it is the same runner's, and then with the same expiry |
| LeaseTheorems.RefusedIffHeldByAnother | internal/domain/launch/rehearsal.go:42-64 | A claim is refused iff another runner's uninterrupted grant is still in force |
| LeaseTheorems.HoldEndsOneTtlAfterFirstClaim | internal/domain/launch/rehearsal.go:46-64 | The expiry answered to any claim is one TTL after the claim that began the uninterrupted hold |
| LaunchAggregate.Launch.CloseWindow | internal/domain/launch/launch.go:245-262 | WINDOW_OPEN to WINDOW_CLOSED iff enough validators and no dominant operator; the first failing check otherwise |
| LaunchAggregate.Launch.ReplaceCommitteeMember | internal/domain/launch/launch.go:391-403 | First match replaced, lead moved with it; an error and no change when absent |
| LaunchAggregate.Launch.ExpandCommittee | internal/domain/launch/launch.go:409-428 | Member appended with the new N and M, or the first failing check |
| LaunchAggregate.Launch.ShrinkCommittee | internal/domain/launch/launch.go:435-465 | Member removed with the new N, M and lead, or the first failing check |
| LaunchAggregate.Launch.UploadAllocationFile | internal/domain/launch/launch.go:488-518 | File replaced or appended as PENDING with no approver, or an error |
| LaunchAggregate.Launch.ApproveAllocationFile | internal/domain/launch/launch.go:524-542 | File approved only under its current hash |
| LaunchAggregate.Launch.RejectAllocationFile | internal/domain/launch/launch.go:549-563 | Rejects iff a file with that hash is there |
| ProposalAggregate.Proposal.SignCount | internal/domain/proposal/proposal.go:209-217 | The loop counts SIGN entries |
| ProposalAggregate.Proposal.Sign | internal/domain/proposal/proposal.go:130-176 | The row after the decision or the first failing guard; events queued exactly on execution |
| ProposalAggregate.Proposal.CheckQuorum | internal/domain/proposal/proposal.go:181-197 | Executes a pending proposal iff enough have signed, queueing its events then |
| Rehearsals.LatestResult | internal/infrastructure/storage/sqlite/rehearsal.go:151-170 | A stored result none was recorded after; none iff there are none |
| Service.Coordd.Handle | internal/application/services/proposal.go:119-355 | Whatever comes in, the object takes exactly the step of the step system, so every theorem about runs holds of it |
| Service.Coordd.AnyPending | internal/application/services/proposal.go:211-226 | Finds a pending proposal meeting a test iff there is one |
| Service.Coordd.ExpireStale | internal/application/services/proposal.go:359-378 | Exactly the pending proposals past their TTL expire |
| Service.Coordd.ExpirePendingRequests | internal/application/services/proposal.go:585-601 | The loop expires the newest 1000 pending requests and nothing else |
| Service.Coordd.ApplyAndSave | internal/application/services/proposal.go:1018-1046 | Intent, transaction with rollback of partial writes, completion or abort, for every failure pattern |
| Service.Coordd.DispatchEvents | internal/application/services/proposal.go:1065-1079 | Each queued event written once in order; the first failed write stops the process |
| Service.Coordd.FindResultBySignature | internal/application/services/rehearsal_results.go:187-200 | A stored result with that signature iff there is one |

## Left out

- HTTP, routing, authentication sessions, SSE, CLI, configuration, logging: plumbing over the services.
- SQL text, row scanning, stored-time text, migrations: tables are maps and sequences, times are integers. "Newest" is
  store order with ties to the later row; `submitted_at` is not stored. SQL leaves ties in `confirmed_at` open; with
  strictly increasing stamps there are none.
- The stores of initial genesis and allocation files, which also keep a file and a reference side by side.
- Cryptography and bech32: signature checks inside steps are taken as passed or are a boolean input; an account is
  compared by its decoded bytes, and the rendering of the fingerprint's operator addresses is taken as injective.
- Nonce and timestamp checks inside service steps: `NonceStore` treats them as a protocol of their own.
- Service.Coordd.Submit: the member list, the gentx validation and the connection-field checks; the last is the boolean `fieldsOk`,
  the others are taken as passed.
- Members list, monitor URL, rehearsal endpoint, chain-record field validation beyond the validator count: each is
  settled by reading one branch.
- Conflict keys are compared as typed payloads; two spellings of one identifier in JSON are not modelled.
- Payloads naming a request of another launch are not modelled. An ill-formed address in a payload rolls the execution
  back, which the step's transaction-failure flag covers.
- A claim whose save fails after minting its attempt is not a case of its own; a refused claim leaves the same state.
- Advisory gate events and the best-effort audit events of other services: only governance entries are in the trail.
- LaunchTable.Table.Save: the launches row alone. The committee, allowlist and allocation rows, rewritten after it, and
  the proposal rows carry no version and are not covered.
- ExpireStale: one step for all proposals; a storage error part-way is not modelled.
- Failed single-row saves: they leave the state as it was, which is a run without that input.
- Partial file writes: the log is a sequence of whole lines.
- AuditLogTheorems.RestartIff: reads the last line whole, where the code looks at the last 64 KB only and would see the
  end of a longer line.
- Floating point: one abstract rounding. Dashboard percentages and labels are not modelled.
- Service.Coordd.PatchDraft: the patch is given as the resulting record, and of its validation only the minimum
  validator count is checked.
- Slices shared between Go structs: fields hold values, so aliasing of a committee or file slice is not captured.
