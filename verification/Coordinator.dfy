/**
 * One launch as a step system: every service call that reaches the database is one step, including the
 * calls that fail part-way (internal/application/services, internal/infrastructure/jobs/jobs.go).
 */
module Coordinator {
  import opened Prelude
  import opened Launches
  import opened Proposals
  import opened JoinRequests
  import opened VotingPower
  import opened InputSets
  import opened FinalGenesis
  import opened Rehearsals
  import Amounts

  const PENDING_PAGE: nat := 1000
  const SUBMISSION_CAP: nat := 50

  datatype Config = Config(
    gate: GateMode, hashing: Hashing, fileDigest: GenesisFile -> Hash, round: Rounding, leaseTtl: nat,
    amountText: string -> string)

  /** The stake a gentx commits: what the leading digits of its amount field write. */
  function StakeOf(cfg: Config, gentx: string): nat {
    var amount := cfg.amountText(gentx);
    Amounts.ValueOf(amount[..Amounts.DigitRun(amount)])
  }

  // ----- Events and the audit trail

  datatype Event =
    | ValidatorApproved(joinRequest: nat, operator: Account)
    | ValidatorRejected(joinRequest: nat, reason: string)
    | ValidatorRemoved(joinRequest: nat, reason: string)
    | ChainRecordPublished(hash: Hash)
    | ApplicationWindowClosed
    | GenesisPublished(hash: Hash)
    | GenesisTimeUpdated(newTime: Time, prevTime: Time)
    | GenesisRevisionApproved
    | AllocationFileApproved(kind: AllocationType, hash: Hash)
    | AllocationFileRejected(kind: AllocationType, hash: Hash)
    | LaunchCancelled
    | CommitteeChanged(before: Committee, after: Committee)

  /** Governance entries of the audit log, tagged with the proposal they belong to. */
  datatype AuditRecord =
    | Intent(proposal: nat)
    | Aborted(proposal: nat)
    | Completion(proposal: nat, event: Event)
    | VetoEffect(proposal: nat, event: Event)

  /** How one append to the log went; the third writes the line and then fails to store the chain tip. */
  datatype WriteOutcome = Written | Lost | WrittenThenFailed

  /** What the environment does to one call: three audit writes, and whether the transaction can commit. */
  datatype Weather = Weather(intent: WriteOutcome, abort: WriteOutcome, completion: WriteOutcome, txFails: bool)

  // ----- State

  datatype Confirmation = Confirmation(
    joinRequest: nat, operator: Account, genesisHash: Hash, binaryHash: Hash,
    confirmedAt: Time, invalidatedAt: Option<Time>)

  /** The final-genesis store: bytes hosted here, and beside them a URL with an attested digest. */
  datatype FinalStore = FinalStore(file: Option<GenesisFile>, ref: Option<Hash>)

  datatype Download = NothingStored | Bytes(file: GenesisFile) | Redirect(hash: Hash)

  /** What a download gets: a reference goes before the file, and neither upload removes the other's. */
  function Served(store: FinalStore): Download {
    if store.ref.Some? then Redirect(store.ref.value)
    else if store.file.Some? then Bytes(store.file.value)
    else NothingStored
  }

  datatype State = State(
    launch: LaunchRow, requests: seq<JoinRow>,
    proposals: map<nat, ProposalRow>, nextProposal: nat,
    readiness: seq<Confirmation>, attempts: seq<AttemptRow>, results: seq<ResultRow>,
    store: FinalStore, audit: seq<AuditRecord>, exits: set<nat>, running: bool)

  datatype Failure =
    | RequestNotFound
    | RequestStatus
    | WrongStatus
    | LaunchFailure(error: LaunchError)
    | GenesisNotUploaded
    | GenesisHashMismatch
    | GenesisStale
    | GateNoService
    | GateUnsatisfied
    | StorageFailure

  predicate ValidConfirmation(c: Confirmation) {
    c.invalidatedAt.None?
  }

  function Invalidate(cs: seq<Confirmation>, now: Time): (out: seq<Confirmation>)
    ensures |out| == |cs|
    ensures forall i :: 0 <= i < |cs| ==>
              out[i] == if ValidConfirmation(cs[i]) then cs[i].(invalidatedAt := Some(now)) else cs[i]
  {
    seq(|cs|, i requires 0 <= i < |cs| =>
      if ValidConfirmation(cs[i]) then cs[i].(invalidatedAt := Some(now)) else cs[i])
  }

  /** The newest confirmation of an operator by time, the later row on a tie, or the number of rows. */
  function NewestConfirmation(cs: seq<Confirmation>, operator: Account): (i: nat)
    ensures i <= |cs|
    ensures i < |cs| ==> cs[i].operator == operator
    ensures i < |cs| ==> forall j :: 0 <= j < |cs| && cs[j].operator == operator ==> cs[j].confirmedAt <= cs[i].confirmedAt
    ensures i < |cs| ==> forall j :: i < j < |cs| && cs[j].operator == operator ==> cs[j].confirmedAt < cs[i].confirmedAt
    ensures i == |cs| ==> forall j :: 0 <= j < |cs| ==> cs[j].operator != operator
  {
    if cs == [] then 0
    else
      var n := |cs| - 1;
      var i := NewestConfirmation(cs[..n], operator);
      if cs[n].operator == operator then
        if i < n && cs[n].confirmedAt < cs[i].confirmedAt then i else n
      else if i < n then i else |cs|
  }

  // ----- Pending proposals

  predicate IsPending(ps: map<nat, ProposalRow>, id: nat) {
    id in ps && ps[id].status == PendingSignatures
  }

  /** Validator decisions on one request share a key; anything else collides only with its equal. */
  datatype ConflictKey = ValidatorKey(joinRequest: nat) | ExactKey(action: Action)

  function ConflictKeyOf(a: Action): ConflictKey {
    match a
    case ApproveValidator(jr, _) => ValidatorKey(jr)
    case RejectValidator(jr, _, _) => ValidatorKey(jr)
    case RemoveApprovedValidator(jr, _, _) => ValidatorKey(jr)
    case _ => ExactKey(a)
  }

  /** An action that changes the approved set. */
  predicate ChangesSet(a: Action) {
    a.ApproveValidator? || a.RemoveApprovedValidator?
  }

  predicate HasConflict(ps: map<nat, ProposalRow>, a: Action) {
    exists id | id in ps :: IsPending(ps, id) && ConflictKeyOf(ps[id].action) == ConflictKeyOf(a)
  }

  predicate HasPendingSetChange(ps: map<nat, ProposalRow>) {
    exists id | id in ps :: IsPending(ps, id) && ChangesSet(ps[id].action)
  }

  predicate HasPendingPublication(ps: map<nat, ProposalRow>) {
    exists id | id in ps :: IsPending(ps, id) && ps[id].action.PublishFinalGenesis?
  }

  function ExpireAllPending(ps: map<nat, ProposalRow>): map<nat, ProposalRow> {
    map id | id in ps :: if ps[id].status == PendingSignatures then ps[id].(status := Expired) else ps[id]
  }

  function ExpireAllStale(ps: map<nat, ProposalRow>, now: Time): map<nat, ProposalRow> {
    map id | id in ps :: ExpireIfStale(ps[id], now)
  }

  // ----- Freshness and the gate

  ghost function Current(cfg: Config, s: State): Hash {
    Fingerprint(cfg.hashing, s.launch.record, s.requests, s.launch.allocationFiles)
  }

  ghost predicate GenesisFresh(cfg: Config, s: State) {
    s.launch.finalGenesisInputSetHash != "" && Current(cfg, s) == s.launch.finalGenesisInputSetHash
  }

  /** The required gate's condition; the other modes never block. */
  ghost predicate GatePasses(cfg: Config, s: State) {
    cfg.gate == GateRequired ==>
      && s.launch.rehearsalServiceKey != ""
      && RehearsalReady(LatestResult(s.results), Current(cfg, s))
  }

  // ----- Executing a proposal

  function SaveProposal(s: State, id: nat, p: ProposalRow): State {
    s.(proposals := s.proposals[id := p])
  }

  function SaveLaunchAndProposal(s: State, l: LaunchRow, id: nat, p: ProposalRow): State {
    s.(launch := l, proposals := s.proposals[id := p])
  }

  ghost function ApplyApprove(s: State, id: nat, p: ProposalRow): Result<State, Failure>
    requires p.action.ApproveValidator?
  {
    var jr := p.action.joinRequest;
    if jr >= |s.requests| then Err(RequestNotFound)
    else match Approve(s.requests[jr], id)
      case Err(_) => Err(RequestStatus)
      case Ok(row) => Ok(SaveProposal(s.(requests := s.requests[jr := row]), id, p))
  }

  ghost function ApplyReject(s: State, id: nat, p: ProposalRow): Result<State, Failure>
    requires p.action.RejectValidator?
  {
    var jr := p.action.joinRequest;
    if jr >= |s.requests| then Err(RequestNotFound)
    else match Reject(s.requests[jr], p.action.reason)
      case Err(_) => Err(RequestStatus)
      case Ok(row) => Ok(SaveProposal(s.(requests := s.requests[jr := row]), id, p))
  }

  ghost function ApplyRemove(s: State, id: nat, p: ProposalRow): Result<State, Failure>
    requires p.action.RemoveApprovedValidator?
  {
    var jr := p.action.joinRequest;
    if s.launch.status != WindowOpen && s.launch.status != WindowClosed then Err(WrongStatus)
    else if jr >= |s.requests| then Err(RequestNotFound)
    else match Revoke(s.requests[jr], p.action.reason)
      case Err(_) => Err(RequestStatus)
      case Ok(row) => Ok(SaveProposal(s.(requests := s.requests[jr := row]), id, p))
  }

  ghost function WithLaunch(s: State, id: nat, p: ProposalRow, r: Result<LaunchRow, LaunchError>): Result<State, Failure> {
    match r
    case Err(e) => Err(LaunchFailure(e))
    case Ok(l) => Ok(SaveLaunchAndProposal(s, l, id, p))
  }

  ghost function WithCommittee(s: State, id: nat, p: ProposalRow, r: Result<Committee, LaunchError>): Result<State, Failure> {
    match r
    case Err(e) => Err(LaunchFailure(e))
    case Ok(c) => Ok(SaveLaunchAndProposal(s, s.launch.(committee := c), id, p))
  }

  ghost function ApplyPublishChainRecord(s: State, id: nat, p: ProposalRow): Result<State, Failure>
    requires p.action.PublishChainRecord?
  {
    if s.launch.initialGenesisSha256 == "" then Err(GenesisNotUploaded)
    else if p.action.initialGenesisHash != s.launch.initialGenesisSha256 then Err(GenesisHashMismatch)
    else WithLaunch(s, id, p, Publish(s.launch, p.action.initialGenesisHash))
  }

  ghost function ApplyClose(cfg: Config, s: State, id: nat, p: ProposalRow): Result<State, Failure> {
    var approved := ApprovedRows(s.requests);
    match CloseWindow(s.launch, |approved|, Dominated(cfg.round, PowersOf(approved)))
    case Err(e) => Err(LaunchFailure(e))
    case Ok(l) =>
      Ok(SaveLaunchAndProposal(s.(requests := ExpirePending(s.requests, PENDING_PAGE)), l, id, p))
  }

  ghost function ApplyPublishGenesis(cfg: Config, s: State, id: nat, p: ProposalRow): Result<State, Failure>
    requires p.action.PublishFinalGenesis?
  {
    if p.action.genesisHash != s.launch.finalGenesisSha256 then Err(GenesisHashMismatch)
    else if !GenesisFresh(cfg, s) then Err(GenesisStale)
    else if cfg.gate == GateRequired && s.launch.rehearsalServiceKey == "" then Err(GateNoService)
    else if !GatePasses(cfg, s) then Err(GateUnsatisfied)
    else WithLaunch(s, id, p, PublishGenesis(s.launch, p.action.genesisHash))
  }

  ghost function ApplyUpdateTime(s: State, id: nat, p: ProposalRow, now: Time): Result<State, Failure>
    requires p.action.UpdateGenesisTime?
  {
    if s.launch.status == Launched || s.launch.status == Canceled then Err(WrongStatus)
    else
      var l := s.launch.(record := s.launch.record.(genesisTime := Some(p.action.newGenesisTime)));
      Ok(SaveLaunchAndProposal(s.(readiness := Invalidate(s.readiness, now)), l, id, p))
  }

  ghost function ApplyRevise(s: State, id: nat, p: ProposalRow, now: Time): Result<State, Failure> {
    match ReopenForRevision(s.launch)
    case Err(e) => Err(LaunchFailure(e))
    case Ok(l) => Ok(SaveLaunchAndProposal(s.(readiness := Invalidate(s.readiness, now)), l, id, p))
  }

  ghost function ApplyCancel(s: State, id: nat, p: ProposalRow, now: Time): Result<State, Failure> {
    match Cancel(s.launch)
    case Err(e) => Err(LaunchFailure(e))
    case Ok(l) =>
      var cs := if s.launch.status == GenesisReady then Invalidate(s.readiness, now) else s.readiness;
      Ok(SaveLaunchAndProposal(s.(readiness := cs), l, id, p))
  }

  /** The dispatcher: the side effects of an executed proposal, with the proposal saved last. */
  ghost function Apply(cfg: Config, s: State, id: nat, p: ProposalRow, now: Time): Result<State, Failure> {
    match p.action
    case ApproveValidator(_, _) => ApplyApprove(s, id, p)
    case RejectValidator(_, _, _) => ApplyReject(s, id, p)
    case RemoveApprovedValidator(_, _, _) => ApplyRemove(s, id, p)
    case PublishChainRecord(_) => ApplyPublishChainRecord(s, id, p)
    case CloseApplicationWindow => ApplyClose(cfg, s, id, p)
    case PublishFinalGenesis(_) => ApplyPublishGenesis(cfg, s, id, p)
    case UpdateGenesisTime(_, _) => ApplyUpdateTime(s, id, p, now)
    case ApproveAllocationFile(kind, hash) => WithLaunch(s, id, p, ApproveAllocation(s.launch, kind, hash, id))
    case ReplaceCommitteeMember(o, m) => WithCommittee(s, id, p, Replace(s.launch.committee, o, m))
    case ReviseGenesis => ApplyRevise(s, id, p, now)
    case ExpandCommittee(m, override) =>
      var c := s.launch.committee;
      WithCommittee(s.(proposals := ExpireAllPending(s.proposals)), id, p,
                    Expand(c, m, ResolveThreshold(c.thresholdM, c.totalN + 1, override)))
    case ShrinkCommittee(a, override) =>
      var c := s.launch.committee;
      WithCommittee(s.(proposals := ExpireAllPending(s.proposals)), id, p,
                    Shrink(c, a, ResolveThreshold(c.thresholdM, c.totalN - 1, override)))
    case CancelLaunch => ApplyCancel(s, id, p, now)
  }

  /** Events the aggregate emits on execution; the committee actions emit none here. */
  function ExecutionEvents(a: Action): seq<Event> {
    match a
    case ApproveValidator(jr, op) => [ValidatorApproved(jr, op)]
    case RejectValidator(jr, _, reason) => [ValidatorRejected(jr, reason)]
    case RemoveApprovedValidator(jr, _, reason) => [ValidatorRemoved(jr, reason)]
    case PublishChainRecord(h) => [ChainRecordPublished(h)]
    case CloseApplicationWindow => [ApplicationWindowClosed]
    case PublishFinalGenesis(h) => [GenesisPublished(h)]
    case UpdateGenesisTime(t, prev) => [GenesisTimeUpdated(t, prev)]
    case ReviseGenesis => [GenesisRevisionApproved]
    case ApproveAllocationFile(k, h) => [AllocationFileApproved(k, h)]
    case CancelLaunch => [LaunchCancelled]
    case ReplaceCommitteeMember(_, _) => []
    case ExpandCommittee(_, _) => []
    case ShrinkCommittee(_, _) => []
  }

  /** Events the service records while applying, from the committee before and after. */
  function RecordedEvents(a: Action, before: Committee, after: Committee): seq<Event> {
    if a.ReplaceCommitteeMember? || a.ExpandCommittee? || a.ShrinkCommittee?
    then [CommitteeChanged(before, after)] else []
  }

  function Records(id: nat, events: seq<Event>): (out: seq<AuditRecord>)
    ensures |out| == |events|
  {
    seq(|events|, i requires 0 <= i < |events| => Completion(id, events[i]))
  }

  /** Appends one record; a failed write of a committed action stops the process. */
  function Dispatch(s: State, id: nat, records: seq<AuditRecord>, outcome: WriteOutcome): State
    decreases |records|
  {
    if records == [] then s
    else match outcome
      case Written => Dispatch(s.(audit := s.audit + [records[0]]), id, records[1..], outcome)
      case Lost => s.(exits := s.exits + {id}, running := false)
      case WrittenThenFailed => s.(audit := s.audit + [records[0]], exits := s.exits + {id}, running := false)
  }

  function LogIf(s: State, r: AuditRecord, outcome: WriteOutcome): State {
    if outcome == Lost then s else s.(audit := s.audit + [r])
  }

  /** Intent first, then the transaction, then the completion events. */
  ghost function Execute(cfg: Config, s: State, id: nat, p: ProposalRow, w: Weather, now: Time): State {
    var logged := LogIf(s, Intent(id), w.intent);
    if w.intent != Written then logged
    else match if w.txFails then Err(StorageFailure) else Apply(cfg, logged, id, p, now)
      case Err(_) => LogIf(logged, Aborted(id), w.abort)
      case Ok(done) =>
        var events := ExecutionEvents(p.action)
                      + RecordedEvents(p.action, s.launch.committee, done.launch.committee);
        Dispatch(done, id, Records(id, events), w.completion)
  }

  // ----- Proposal service

  ghost predicate RaiseAllowed(cfg: Config, s: State, member: Account, a: Action) {
    && HasMember(s.launch.committee, member)
    && (a.PublishFinalGenesis? ==>
          GenesisFresh(cfg, s) && !HasPendingSetChange(s.proposals) && GatePasses(cfg, s))
    && (ChangesSet(a) ==> !HasPendingPublication(s.proposals))
    && (a.CancelLaunch? ==> s.launch.status != Launched && s.launch.status != Canceled)
    && !HasConflict(s.proposals, a)
    && ValidPayload(a)
  }

  /** Stores the new proposal, or executes it at once when the proposer's signature is quorum enough. */
  ghost function EnterProposal(cfg: Config, s: State, member: Account, a: Action, w: Weather, now: Time): State {
    var id := s.nextProposal;
    var p := CheckQuorum(NewProposal(a, member, now), s.launch.committee.thresholdM, now);
    var s1 := s.(nextProposal := id + 1);
    if p.status == Executed then Execute(cfg, s1, id, p, w, now)
    else SaveProposal(s1, id, p)
  }

  ghost function RaiseProposal(cfg: Config, s: State, member: Account, a: Action, w: Weather, now: Time): State {
    if RaiseAllowed(cfg, s, member, a) then EnterProposal(cfg, s, member, a, w, now) else s
  }

  /** A vetoed allocation approval rejects the bound file, unless it was re-uploaded meanwhile. */
  ghost function VetoAllocation(s: State, id: nat, p: ProposalRow, w: Weather): State
    requires p.action.ApproveAllocationFile?
  {
    var kind, hash := p.action.kind, p.action.hash;
    if !CanRejectAllocation(s.launch, kind, hash) then SaveProposal(s, id, p)
    else if w.txFails then s
    else
      Dispatch(SaveLaunchAndProposal(s, RejectAllocation(s.launch, kind, hash), id, p), id,
               [VetoEffect(id, AllocationFileRejected(kind, hash))], w.completion)
  }

  ghost function SignStep(cfg: Config, s: State, id: nat, member: Account, d: Decision, w: Weather, now: Time): State {
    if !HasMember(s.launch.committee, member) || !IsPending(s.proposals, id) then s
    else match SignProposal(s.proposals[id], member, d, s.launch.committee.thresholdM, now)
      case Err(_) => s
      case Ok(p) =>
        if p.status == Executed then Execute(cfg, s, id, p, w, now)
        else if p.status == Vetoed && p.action.ApproveAllocationFile? then VetoAllocation(s, id, p, w)
        else SaveProposal(s, id, p)
  }

  // ----- Join-request, readiness and launch services

  /** Dedup on the validator, then on the consensus key; a late failure leaves the superseded request expired. */
  ghost function SubmitStep(cfg: Config, s: State, operator: Account, submitter: Account, key: string, gentx: string,
                            fieldsOk: bool, now: Time): State
  {
    if s.launch.status != WindowOpen || now > s.launch.record.gentxDeadline then s
    else if SubmitterCount(s.requests, submitter) >= SUBMISSION_CAP then s
    else
      var i := ActiveIndex(s.requests, operator);
      if i < |s.requests| && s.requests[i].status == Approved then s
      else
        var rows := if i < |s.requests| then s.requests[i := s.requests[i].(status := ExpiredRequest)] else s.requests;
        if !fieldsOk || KeyInUse(rows, key) then s.(requests := rows)
        else s.(requests := rows + [NewRequest(operator, submitter, key, gentx, StakeOf(cfg, gentx))])
  }

  ghost predicate ConfirmMatches(s: State, operator: Account, genesisHash: Hash, binaryHash: Hash) {
    var i := NewestIndex(s.requests, operator);
    && s.launch.status == GenesisReady
    && i < |s.requests| && s.requests[i].status == Approved
    && genesisHash == s.launch.finalGenesisSha256
    && (s.launch.record.binarySha256 != "" ==> binaryHash == s.launch.record.binarySha256)
  }

  /** The duplicate check looks at the operator's newest confirmation only. */
  ghost predicate ConfirmAllowed(s: State, operator: Account, genesisHash: Hash, binaryHash: Hash) {
    var c := NewestConfirmation(s.readiness, operator);
    && ConfirmMatches(s, operator, genesisHash, binaryHash)
    && (c < |s.readiness| ==> !ValidConfirmation(s.readiness[c]))
  }

  ghost function ConfirmStep(s: State, operator: Account, genesisHash: Hash, binaryHash: Hash, now: Time): State {
    if !ConfirmAllowed(s, operator, genesisHash, binaryHash) then s
    else s.(readiness := s.readiness +
      [Confirmation(NewestIndex(s.requests, operator), operator, genesisHash, binaryHash, now, None)])
  }

  ghost function ApprovedKeys(s: State): seq<string> {
    Keys(ApprovedRows(s.requests))
  }

  /**
   * Writes the file store, then binds the digest to the input set current after the genesis time is taken over;
   * when the launch row cannot be saved (`saved` is false) the store has changed all the same.
   */
  ghost function BindFinal(cfg: Config, s: State, hash: Hash, genesisTime: Time, store: FinalStore, saved: bool): State {
    var l := s.launch.(record := s.launch.record.(genesisTime := Some(genesisTime)), finalGenesisSha256 := hash);
    var s1 := s.(launch := l, store := store);
    if saved then s1.(launch := l.(finalGenesisInputSetHash := Current(cfg, s1))) else s.(store := store)
  }

  ghost predicate UploadFinalAllowed(s: State, caller: Account, file: GenesisFile, now: Time) {
    && HasMember(s.launch.committee, caller) && s.launch.status == WindowClosed
    && file.chainId != "" && file.chainId == s.launch.record.chainId
    && Accepts(file, ApprovedKeys(s), now)
  }

  ghost function UploadFinalStep(cfg: Config, s: State, caller: Account, file: GenesisFile, now: Time, saved: bool): State {
    if !UploadFinalAllowed(s, caller, file, now) then s
    else BindFinal(cfg, s, cfg.fileDigest(file), file.genesisTime, s.store.(file := Some(file)), saved)
  }

  ghost predicate UploadFinalRefAllowed(s: State, caller: Account, hash: Hash, genesisTime: Time, now: Time) {
    && genesisTime != 0 && genesisTime > now
    && HasMember(s.launch.committee, caller) && s.launch.status == WindowClosed && IsSha256Hex(hash)
  }

  ghost function UploadFinalRefStep(cfg: Config, s: State, caller: Account, hash: Hash, genesisTime: Time, now: Time,
                                    saved: bool): State
  {
    if !UploadFinalRefAllowed(s, caller, hash, genesisTime, now) then s
    else BindFinal(cfg, s, hash, genesisTime, s.store.(ref := Some(hash)), saved)
  }

  ghost function UploadInitialStep(s: State, caller: Account, hash: Hash): State {
    if !HasMember(s.launch.committee, caller) || s.launch.status != Draft then s
    else s.(launch := s.launch.(initialGenesisSha256 := hash))
  }

  ghost function UploadAllocationStep(s: State, caller: Account, kind: AllocationType, hash: Hash): State {
    if !HasMember(s.launch.committee, caller) then s
    else match UploadAllocation(s.launch, kind, hash)
      case Err(_) => s
      case Ok(l) => s.(launch := l)
  }

  /** Only these chain fields are patchable, and only in DRAFT. */
  predicate PatchAllowed(before: ChainRecord, after: ChainRecord) {
    && after.minValidatorCount >= 1
    && after == before.(binaryVersion := after.binaryVersion, binarySha256 := after.binarySha256,
                        repoUrl := after.repoUrl, repoCommit := after.repoCommit, genesisTime := after.genesisTime,
                        minValidatorCount := after.minValidatorCount, totalSupply := after.totalSupply)
  }

  ghost function PatchDraftStep(s: State, caller: Account, record: ChainRecord): State {
    if !HasMember(s.launch.committee, caller) || s.launch.status != Draft then s
    else if !PatchAllowed(s.launch.record, record) then s
    else s.(launch := s.launch.(record := record))
  }

  ghost function PatchServiceKeyStep(s: State, caller: Account, key: string): State {
    if !HasMember(s.launch.committee, caller) then s
    else s.(launch := s.launch.(rehearsalServiceKey := key))
  }

  ghost function SetCommitteeStep(s: State, caller: Account, c: Committee): State {
    if caller != s.launch.committee.lead || s.launch.status != Draft || CheckCommittee(c).Err? then s
    else s.(launch := s.launch.(committee := c))
  }

  /** Opens from PUBLISHED, or from DRAFT by publishing first when the initial genesis is there. */
  ghost function OpenWindowStep(s: State, caller: Account): State {
    if !HasMember(s.launch.committee, caller) then s
    else if s.launch.status == Draft && s.launch.initialGenesisSha256 == "" then s
    else
      var published := if s.launch.status == Draft then Publish(s.launch, s.launch.initialGenesisSha256) else Ok(s.launch);
      match published
      case Err(_) => s
      case Ok(l) =>
        match OpenWindow(l)
        case Err(_) => s
        case Ok(open) => s.(launch := open)
  }

  ghost function CancelDirectStep(s: State, caller: Account): State {
    if caller != s.launch.committee.lead then s
    else if s.launch.status != Draft && s.launch.status != Published then s
    else s.(launch := s.launch.(status := Canceled))
  }

  ghost function MarkLaunchedStep(s: State): State {
    match MarkLaunched(s.launch)
    case Err(_) => s
    case Ok(l) => s.(launch := l)
  }

  // ----- Rehearsal bridge

  ghost function ClaimStep(cfg: Config, s: State, runner: string, now: Time): State {
    var hash := Current(cfg, s);
    var i := AttemptIndex(s.attempts, hash);
    var attempts := if i < |s.attempts| then s.attempts else s.attempts + [NewAttempt(hash, now)];
    match Claim(attempts[i], runner, now, now + cfg.leaseTtl)
    case Err(_) => s.(attempts := attempts)
    case Ok(a) => s.(attempts := attempts[i := a])
  }

  /** A signed fact; `verified` is the outcome of the signature check against the launch's trusted key. */
  datatype Fact = Fact(attempt: Option<nat>, inputSetHash: Hash, outcome: Option<Outcome>, signature: string)

  ghost predicate FactAccepted(s: State, f: Fact, verified: bool) {
    && s.launch.rehearsalServiceKey != ""
    && verified
    && (forall r :: r in s.results ==> r.signature != f.signature)
    && f.outcome.Some?
    && f.attempt.Some? && f.attempt.value < |s.attempts|
    && s.attempts[f.attempt.value].inputSetHash == f.inputSetHash
  }

  /** Stores the result, then releases the lease; `released` is false when the second write fails. */
  ghost function RecordResultStep(cfg: Config, s: State, f: Fact, verified: bool, released: bool, now: Time): State {
    if !FactAccepted(s, f, verified) then s
    else
      var i := f.attempt.value;
      var row := ResultRow(i, f.inputSetHash, f.outcome.value, f.signature, f.inputSetHash != Current(cfg, s), now);
      s.(results := s.results + [row],
         attempts := if released then s.attempts[i := Release(s.attempts[i])] else s.attempts)
  }

  ghost function ResetStep(s: State, caller: Account, i: nat): State {
    if !HasMember(s.launch.committee, caller) || i >= |s.attempts| then s
    else s.(attempts := s.attempts[i := Reset(s.attempts[i])])
  }

  // ----- The step function

  /** Authenticated requests, background jobs and restarts. */
  datatype Input =
    | Raise(member: Account, action: Action, weather: Weather, now: Time)
    | Decide(proposal: nat, member: Account, decision: Decision, weather: Weather, now: Time)
    | ExpireStale(now: Time)
    | Submit(operator: Account, submitter: Account, key: string, gentx: string, fieldsOk: bool, now: Time)
    | Confirm(operator: Account, genesisHash: Hash, binaryHash: Hash, now: Time)
    | UploadInitial(caller: Account, hash: Hash)
    | UploadFinal(caller: Account, file: GenesisFile, now: Time, saved: bool)
    | UploadFinalRef(caller: Account, hash: Hash, genesisTime: Time, now: Time, saved: bool)
    | UploadAllocationFile(caller: Account, kind: AllocationType, hash: Hash)
    | PatchDraft(caller: Account, record: ChainRecord)
    | PatchServiceKey(caller: Account, key: string)
    | SetCommittee(caller: Account, committee: Committee)
    | OpenApplications(caller: Account)
    | CancelDirect(caller: Account)
    | BlockOneSeen
    | ClaimRun(runner: string, now: Time)
    | RecordResult(fact: Fact, verified: bool, released: bool, now: Time)
    | ResetAttempt(caller: Account, attempt: nat)
    | Restart

  ghost function Next(cfg: Config, s: State, x: Input): State {
    if !s.running then s.(running := x.Restart?)
    else match x
      case Raise(member, action, w, now) => RaiseProposal(cfg, s, member, action, w, now)
      case Decide(id, member, d, w, now) => SignStep(cfg, s, id, member, d, w, now)
      case ExpireStale(now) => s.(proposals := ExpireAllStale(s.proposals, now))
      case Submit(op, sub, key, gentx, ok, now) => SubmitStep(cfg, s, op, sub, key, gentx, ok, now)
      case Confirm(op, gh, bh, now) => ConfirmStep(s, op, gh, bh, now)
      case UploadInitial(caller, hash) => UploadInitialStep(s, caller, hash)
      case UploadFinal(caller, file, now, saved) => UploadFinalStep(cfg, s, caller, file, now, saved)
      case UploadFinalRef(caller, hash, t, now, saved) => UploadFinalRefStep(cfg, s, caller, hash, t, now, saved)
      case UploadAllocationFile(caller, kind, hash) => UploadAllocationStep(s, caller, kind, hash)
      case PatchDraft(caller, record) => PatchDraftStep(s, caller, record)
      case PatchServiceKey(caller, key) => PatchServiceKeyStep(s, caller, key)
      case SetCommittee(caller, c) => SetCommitteeStep(s, caller, c)
      case OpenApplications(caller) => OpenWindowStep(s, caller)
      case CancelDirect(caller) => CancelDirectStep(s, caller)
      case BlockOneSeen => MarkLaunchedStep(s)
      case ClaimRun(runner, now) => ClaimStep(cfg, s, runner, now)
      case RecordResult(f, verified, released, now) => RecordResultStep(cfg, s, f, verified, released, now)
      case ResetAttempt(caller, i) => ResetStep(s, caller, i)
      case Restart => s
  }

  /** What CreateLaunch stores. */
  ghost predicate Initial(s: State) {
    && s.launch.status == Draft && s.launch.record.minValidatorCount >= 1
    && WellFormed(s.launch.committee)
    && s.launch.initialGenesisSha256 == s.launch.finalGenesisSha256 == s.launch.finalGenesisInputSetHash == ""
    && s.launch.allocationFiles == []
    && s.requests == [] && s.proposals == map[] && s.readiness == [] && s.attempts == [] && s.results == []
    && s.store == FinalStore(None, None) && s.audit == [] && s.exits == {} && s.running
  }

  ghost predicate StepAt(cfg: Config, states: seq<State>, xs: seq<Input>, k: int) {
    0 <= k < |xs| && |states| == |xs| + 1 && states[k + 1] == Next(cfg, states[k], xs[k])
  }

  /** A run: the states a launch goes through from its creation, one step per input. */
  ghost predicate Run(cfg: Config, states: seq<State>, xs: seq<Input>) {
    && |states| == |xs| + 1
    && Initial(states[0])
    && forall k :: 0 <= k < |xs| ==> StepAt(cfg, states, xs, k)
  }
}
