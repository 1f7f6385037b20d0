/**
 The checks an apply proof goes through, in the order in which they are made. Digests of
 files, answers of git and verified host claims are inputs.
 */
module ApplyChecks {
  import opened Text
  import opened Lifecycle
  import opened CheckNames
  import ReadyQueue

  // ------------------------------------------------------------------- evidence

  /** One value for each actor. */
  datatype Trio<+T> = Trio(worker: T, reviewer: T, gate: T) {
    function Of(a: Actor): T {
      match a case Worker => worker case ReviewActor => reviewer case Gate => gate
    }
  }

  datatype Session = Session(token: string, principal: string, agent: string, role: SessionRole)

  datatype Attestation = Attestation(token: string, principal: string, agent: string, role: SessionRole,
                                     startedAt: int, endedAt: int, container: Option<string>, process: Option<string>,
                                     transcript: string)

  /** A host-signed runtime claim after its signature and payload were checked. */
  datatype HostClaim = HostClaim(accepted: bool, runId: Option<string>, issuer: Option<string>, signer: Option<string>)

  datatype ApplyRow = ApplyRow(queue: string, artifact: string, review: string, findings: string, fence: int,
                               verifier: string, recordedBy: string, verdict: string, sealDigest: string)

  /** `claimed` is whether the landing proof has a commit hash field at all. */
  datatype Landing = Landing(claimed: bool, hash: Option<string>, resolved: Option<string>)

  /** The host claims are absent when one of their files cannot be read. */
  datatype Evidence = Evidence(
    artifactDigest: string, artifactSubtask: string,
    reviewArtifact: string, reviewSubtask: string, reviewApproved: bool, reviewFindings: Option<string>,
    queue: ReadyQueue.Item, applyRows: seq<ApplyRow>,
    sessions: Trio<Session>, attestations: Trio<Attestation>,
    verdictFile: Option<string>, findingsFile: string, artifactFile: Option<string>, successFound: bool,
    defaultPacket: Mission, packets: map<string, Mission>, hostClaims: Option<Trio<HostClaim>>,
    head: string, mainline: string, mergeBase: string, landing: Option<Landing>, subjectReachable: bool, clean: bool)

  datatype Request = Request(
    artifactDigest: string, reviewId: string, queueId: string, findings: string, subtask: Option<string>,
    verifier: string, verdict: Option<string>, sealDigest: Option<string>, subject: bool, missionFile: Option<string>,
    observed: bool, hostSigned: bool, provider: bool, enforce: bool, trusted: set<string>, forbidden: set<string>)

  // ----------------------------------------------------------------- mission packet

  /** What the packet's authority boundary and identity contract say. */
  datatype MissionFacts = MissionFacts(
    boundaryEmpty: bool, mayScheduleOrSettle: Option<bool>, ownsLifecycle: Option<bool>,
    singleAttempt: Option<bool>, hooksEnforce: Option<bool>, contractEmpty: bool, schema: Option<string>,
    requiredFor: set<string>, actorRoles: set<string>, runtimeFields: set<string>, providerFields: set<string>,
    trustedRequired: Option<bool>, forbidden: set<string>, separation: set<string>, bindings: set<string>)

  /** The verdicts on the two parts of a packet. */
  datatype Boundary = Boundary(present: bool, cannotSchedule: bool, ownsLifecycle: bool, singleAttempt: bool,
                               hooksEnforce: bool)

  datatype Contract = Contract(present: bool, schemaCurrent: bool, forLanding: bool, forPromotedProof: bool,
                               actorRoles: bool, runtimeFields: bool, providerFields: bool, trustedRequired: bool,
                               forbidsLocal: bool, principalsSeparate: bool, runsSeparate: bool, bindings: bool)

  datatype Mission =
    | MissionMissing
    | MissionUnreadable
    | MissionRead(boundary: Boundary, contract: Contract, forbidden: set<string>)

  const LOCAL_ISSUERS := {"mutai-local-proof-runner", "codex-env"}

  const PRINCIPAL_SEPARATION := {
    "executor.agent_principal_id != reviewer.agent_principal_id",
    "executor.agent_principal_id != apply_gate.agent_principal_id",
    "reviewer.agent_principal_id != apply_gate.agent_principal_id"}

  const RUN_SEPARATION := {
    "executor.provider_run_id != reviewer.provider_run_id",
    "executor.provider_run_id != apply_gate.provider_run_id",
    "reviewer.provider_run_id != apply_gate.provider_run_id"}

  function ReadMission(f: MissionFacts): Mission {
    MissionRead(JudgeBoundary(f), JudgeContract(f), f.forbidden)
  }

  function JudgeBoundary(f: MissionFacts): Boundary {
    Boundary(!f.boundaryEmpty, f.mayScheduleOrSettle == Some(false), f.ownsLifecycle == Some(true),
             f.singleAttempt == Some(true), f.hooksEnforce == Some(true))
  }

  function JudgeContract(f: MissionFacts): Contract {
    Contract(
      !f.contractEmpty, f.schema == Some("mutai.runtime-identity-contract.v1"), "landing" in f.requiredFor,
      "promoted_fleet_proof" in f.requiredFor, {"executor", "reviewer", "apply_gate", "closer"} <= f.actorRoles,
      {"session_token", "agent_principal_id", "agent_instance_id", "role", "provider", "model",
       "process_id_or_container_id", "command_transcript_digest", "started_at", "ended_at"} <= f.runtimeFields,
      {"provider_run_id", "provider_run_id_issuer"} <= f.providerFields, f.trustedRequired == Some(true),
      LOCAL_ISSUERS <= f.forbidden, PRINCIPAL_SEPARATION <= f.separation,
      RUN_SEPARATION <= f.separation,
      {"queue_id", "artifact_digest", "review_id", "claim_fence_seq", "apply_verification_seal_digest"} <= f.bindings)
  }

  // --------------------------------------------------------------------- checks

  datatype Check = Check(name: CheckName, passed: bool)

  predicate NoneOr(wanted: Option<string>, actual: string) { wanted.None? || wanted.value == actual }

  /** A row of the attempt, with the verdict and seal digests the request names. */
  predicate RowMatches(req: Request, fence: int, a: ApplyRow) {
    && a.queue == req.queueId && a.artifact == req.artifactDigest && a.review == req.reviewId
    && a.findings == req.findings && a.fence == fence && a.verifier == req.verifier
    && NoneOr(req.verdict, a.verdict) && NoneOr(req.sealDigest, a.sealDigest)
  }

  function Matching(req: Request, fence: int, rows: seq<ApplyRow>): seq<ApplyRow> {
    if rows == [] then []
    else (if RowMatches(req, fence, rows[0]) then [rows[0]] else []) + Matching(req, fence, rows[1..])
  }

  /** `load_apply_verification`: the one matching row, and none when there are several. */
  function LoadApplyVerification(req: Request, fence: int, rows: seq<ApplyRow>): Option<ApplyRow> {
    var found := Matching(req, fence, rows);
    if |found| == 1 then Some(found[0]) else None
  }

  function BindingChecks(req: Request, ev: Evidence, row: Option<ApplyRow>): seq<Check> {
    [Check(Binding(ArtifactDigestMatchesExpected), ev.artifactDigest == req.artifactDigest),
     Check(Binding(ReviewTargetsArtifact), ev.reviewArtifact == req.artifactDigest),
     Check(Binding(ReviewTargetsSubtask), ev.reviewSubtask == ev.artifactSubtask),
     Check(Binding(ArtifactTargetsSubtask), NoneOr(req.subtask, ev.artifactSubtask)),
     Check(Binding(ReviewTargetsRequestedSubtask), NoneOr(req.subtask, ev.reviewSubtask)),
     Check(Binding(QueueTargetsRequestedSubtask), NoneOr(req.subtask, ev.queue.subtask.text)),
     Check(Binding(ReviewApproved), ev.reviewApproved),
     Check(Binding(ReviewFindingsDigestMatches), ev.reviewFindings == Some(req.findings)),
     Check(Binding(QueueTargetsArtifact), ev.queue.artifact == req.artifactDigest),
     Check(Binding(QueueTargetsReviewedSubtask), ev.queue.subtask.text == ev.reviewSubtask),
     Check(Binding(QueueIsApplied), ev.queue.state == QueueApplied),
     Check(Binding(ApplyVerificationRecorded), row.Some?)]
  }

  function ApplyRowChecks(req: Request, ev: Evidence, applied: Option<int>, a: ApplyRow): seq<Check> {
    [Check(ApplyVerification(TargetsQueue), a.queue == req.queueId),
     Check(ApplyVerification(TargetsArtifact), a.artifact == req.artifactDigest),
     Check(ApplyVerification(TargetsReview), a.review == req.reviewId),
     Check(ApplyVerification(TargetsFindings), a.findings == req.findings),
     Check(ApplyVerification(TargetsFence), Some(a.fence) == applied),
     Check(ApplyVerification(UsesExpectedVerifier), a.verifier == req.verifier),
     Check(ApplyVerification(RecordedByApplyGate), a.recordedBy == ev.sessions.gate.token),
     Check(ApplyVerification(VerdictMatchesFile), Some(a.verdict) == ev.verdictFile),
     Check(ApplyVerification(VerdictMatchesRequested), NoneOr(req.verdict, a.verdict)),
     Check(ApplyVerification(SealMatchesRequested), NoneOr(req.sealDigest, a.sealDigest))]
  }

  /** Without a row every one of its checks fails. */
  function NoRowChecks(): seq<Check> {
    [Check(ApplyVerification(TargetsQueue), false), Check(ApplyVerification(TargetsArtifact), false),
     Check(ApplyVerification(TargetsReview), false), Check(ApplyVerification(TargetsFindings), false),
     Check(ApplyVerification(TargetsFence), false), Check(ApplyVerification(UsesExpectedVerifier), false),
     Check(ApplyVerification(RecordedByApplyGate), false), Check(ApplyVerification(VerdictMatchesFile), false),
     Check(ApplyVerification(VerdictMatchesRequested), false), Check(ApplyVerification(SealMatchesRequested), false)]
  }

  function ApplyVerificationChecks(req: Request, ev: Evidence, applied: Option<int>, row: Option<ApplyRow>): seq<Check> {
    if row.Some? then ApplyRowChecks(req, ev, applied, row.value) else NoRowChecks()
  }

  predicate Matches(s: Session, a: Attestation) {
    && a.token == s.token && a.principal == s.principal && a.agent == s.agent && a.role == s.role
    && a.endedAt >= a.startedAt
  }

  /** The container if there is one, else the process, else nothing; the prefix tells which. */
  datatype RuntimeRef = Container(id: string) | Process(id: string) | NoRef

  function RefOf(a: Attestation): RuntimeRef {
    if a.container.Some? then Container(a.container.value)
    else if a.process.Some? then Process(a.process.value)
    else NoRef
  }

  function ActorChecks(kind: ActorKind, passed: Trio<bool>): seq<Check> {
    [Check(ActorCheck(kind, Worker), passed.worker), Check(ActorCheck(kind, ReviewActor), passed.reviewer),
     Check(ActorCheck(kind, Gate), passed.gate)]
  }

  function PairChecks<T(==)>(kind: PairKind, values: Trio<T>): seq<Check> {
    [Check(PairCheck(kind, WorkerReviewer), values.worker != values.reviewer),
     Check(PairCheck(kind, WorkerGate), values.worker != values.gate),
     Check(PairCheck(kind, ReviewerGate), values.reviewer != values.gate)]
  }

  function RolesOk(s: Trio<Session>): Trio<bool> {
    Trio(s.worker.role == Executor, s.reviewer.role == Reviewer, s.gate.role == ApplyGate)
  }

  function AttestationsOk(s: Trio<Session>, a: Trio<Attestation>): Trio<bool> {
    Trio(Matches(s.worker, a.worker), Matches(s.reviewer, a.reviewer), Matches(s.gate, a.gate))
  }

  function IdentityChecks(s: Trio<Session>, a: Trio<Attestation>): seq<Check> {
    ActorChecks(RoleVerified, RolesOk(s)) + ActorChecks(AttestationMatches, AttestationsOk(s, a))
    + PairChecks(PrincipalsDiffer, Trio(s.worker.principal, s.reviewer.principal, s.gate.principal))
    + PairChecks(RuntimeRefsDiffer, Trio(RefOf(a.worker), RefOf(a.reviewer), RefOf(a.gate)))
    + PairChecks(TranscriptsDiffer, Trio(a.worker.transcript, a.reviewer.transcript, a.gate.transcript))
  }

  function FileChecks(req: Request, ev: Evidence): seq<Check> {
    [Check(FileCheck(FindingsFileMatches), ev.findingsFile == req.findings),
     Check(FileCheck(ArtifactFileMatches), ev.artifactFile == Some(req.artifactDigest)),
     Check(FileCheck(SuccessTextFound), ev.successFound)]
  }

  function BoundaryChecks(b: Boundary): seq<Check> {
    [Check(MissionCheck(BoundaryPresent), b.present), Check(MissionCheck(CannotScheduleOrSettle), b.cannotSchedule),
     Check(MissionCheck(CoveyOwnsLifecycle), b.ownsLifecycle), Check(MissionCheck(SingleAttempt), b.singleAttempt),
     Check(MissionCheck(HooksEnforce), b.hooksEnforce)]
  }

  function ContractChecks(c: Contract): seq<Check> {
    [Check(MissionCheck(ContractPresent), c.present), Check(MissionCheck(SchemaCurrent), c.schemaCurrent),
     Check(MissionCheck(ForLanding), c.forLanding), Check(MissionCheck(ForPromotedProof), c.forPromotedProof),
     Check(MissionCheck(ActorRoles), c.actorRoles), Check(MissionCheck(RuntimeFields), c.runtimeFields),
     Check(MissionCheck(ProviderFields), c.providerFields), Check(MissionCheck(TrustedRequired), c.trustedRequired),
     Check(MissionCheck(ForbidsLocal), c.forbidsLocal), Check(MissionCheck(PrincipalSeparation), c.principalsSeparate),
     Check(MissionCheck(ProviderSeparation), c.runsSeparate), Check(MissionCheck(Bindings), c.bindings)]
  }

  function PacketChecks(m: Mission): seq<Check> {
    match m
    case MissionMissing => [Check(MissionCheck(FilePresent), false)]
    case MissionUnreadable => [Check(MissionCheck(FilePresent), true), Check(MissionCheck(JsonReadable), false)]
    case MissionRead(boundary, contract, _) =>
      [Check(MissionCheck(FilePresent), true), Check(MissionCheck(JsonReadable), true)] + BoundaryChecks(boundary)
      + ContractChecks(contract)
  }

  /** The packet in the named file, or in the default file of the evidence directory. */
  function PacketOf(req: Request, ev: Evidence): Mission {
    if req.missionFile.None? then ev.defaultPacket
    else if req.missionFile.value in ev.packets then ev.packets[req.missionFile.value]
    else MissionMissing
  }

  predicate UsesMission(req: Request) { req.missionFile.Some? || req.enforce }

  function MissionChecks(req: Request, ev: Evidence): seq<Check> {
    (if UsesMission(req) then PacketChecks(PacketOf(req, ev)) else [])
    + (if req.enforce then [Check(MissionCheck(TrustedConfigured), req.trusted != {})] else [])
  }

  /** The forbidden issuers of the request and, when the packet is used, of the packet. */
  function Forbidden(req: Request, ev: Evidence): set<string> {
    req.forbidden + if UsesMission(req) && PacketOf(req, ev).MissionRead? then PacketOf(req, ev).forbidden else {}
  }

  predicate NeedsProvider(req: Request, ev: Evidence) {
    req.provider || req.trusted != {} || Forbidden(req, ev) != {} || req.enforce
  }

  predicate NeedsHost(req: Request, ev: Evidence) { req.hostSigned || NeedsProvider(req, ev) }

  /** A process id that parses as a positive `u64`, with an optional plus sign. */
  predicate ObservedId(a: Attestation) {
    a.process.Some? &&
    var s := a.process.value;
    var digits := if s != "" && s[0] == '+' then s[1..] else s;
    && digits != "" && AllDigits(digits) && 0 < Digits(digits) < 0x1_0000_0000_0000_0000
  }

  predicate AllDigits(s: string) { forall i :: 0 <= i < |s| ==> '0' <= s[i] <= '9' }

  function Digits(s: string): int {
    if s == "" then 0 else Digits(s[..|s| - 1]) * 10 + (s[|s| - 1] as int - '0' as int)
  }

  function ObservedChecks(req: Request, a: Trio<Attestation>): seq<Check> {
    if req.observed
    then ActorChecks(ObservedProcessId, Trio(ObservedId(a.worker), ObservedId(a.reviewer), ObservedId(a.gate)))
    else []
  }

  predicate NonBlank(s: Option<string>) { s.Some? && Trim(s.value) != "" }

  predicate HasRunId(c: HostClaim) { c.accepted && NonBlank(c.runId) && NonBlank(c.issuer) }

  predicate IssuerTrusted(trusted: set<string>, c: HostClaim) { HasRunId(c) && c.issuer.value in trusted }

  predicate IssuerNotForbidden(forbidden: set<string>, c: HostClaim) { HasRunId(c) && c.issuer.value !in forbidden }

  function SignerOf(c: HostClaim): set<string> { if c.signer.Some? then {c.signer.value} else {} }

  function Signers(claims: Trio<HostClaim>): set<string> {
    SignerOf(claims.worker) + SignerOf(claims.reviewer) + SignerOf(claims.gate)
  }

  function SignedChecks(claims: Trio<HostClaim>): seq<Check> {
    ActorChecks(HostSigned, Trio(claims.worker.accepted, claims.reviewer.accepted, claims.gate.accepted))
    + [Check(ShareSigner, |Signers(claims)| == 1)]
  }

  function RunIdChecks(claims: Trio<HostClaim>): seq<Check> {
    ActorChecks(ProviderRunId, Trio(HasRunId(claims.worker), HasRunId(claims.reviewer), HasRunId(claims.gate)))
  }

  function TrustedChecks(trusted: set<string>, c: Trio<HostClaim>): seq<Check> {
    ActorChecks(TrustedIssuer,
                Trio(IssuerTrusted(trusted, c.worker), IssuerTrusted(trusted, c.reviewer), IssuerTrusted(trusted, c.gate)))
  }

  function ForbiddenChecks(forbidden: set<string>, c: Trio<HostClaim>): seq<Check> {
    ActorChecks(ForbiddenIssuerAbsent,
                Trio(IssuerNotForbidden(forbidden, c.worker), IssuerNotForbidden(forbidden, c.reviewer),
                     IssuerNotForbidden(forbidden, c.gate)))
  }

  function HostChecks(req: Request, ev: Evidence, claims: Trio<HostClaim>): seq<Check> {
    (if NeedsHost(req, ev) then SignedChecks(claims) else [])
    + (if NeedsProvider(req, ev) then RunIdChecks(claims) else [])
    + (if req.trusted != {} then TrustedChecks(req.trusted, claims) else [])
    + (if Forbidden(req, ev) != {} then ForbiddenChecks(Forbidden(req, ev), claims) else [])
  }

  function LandingChecks(ev: Evidence): seq<Check> {
    match ev.landing
    case None => []
    case Some(l) =>
      [Check(GitCheck(LandingHashNonEmpty), !l.claimed || (l.hash.Some? && l.hash.value != "")),
       Check(GitCheck(LandingHashResolves), !l.claimed || l.resolved.Some?),
       Check(GitCheck(LandingHashMatchesHead), !l.claimed || l.resolved == Some(ev.head)),
       Check(GitCheck(LandingHashMatchesMainline), !l.claimed || l.resolved == Some(ev.mainline))]
  }

  function GitChecks(req: Request, ev: Evidence): seq<Check> {
    [Check(GitCheck(HeadReachable), ev.mergeBase == ev.head), Check(GitCheck(MainlineMatchesHead), ev.mainline == ev.head)]
    + LandingChecks(ev)
    + (if req.subject then [Check(GitCheck(SubjectReachable), ev.subjectReachable)] else [])
    + [Check(GitCheck(WorktreeClean), ev.clean)]
  }

  /** All checks, in the order in which they are made. */
  function Log(req: Request, ev: Evidence, applied: Option<int>, row: Option<ApplyRow>, claims: Trio<HostClaim>)
    : seq<Check>
  {
    BindingChecks(req, ev, row) + ApplyVerificationChecks(req, ev, applied, row)
    + IdentityChecks(ev.sessions, ev.attestations) + FileChecks(req, ev) + MissionChecks(req, ev)
    + ObservedChecks(req, ev.attestations) + HostChecks(req, ev, claims) + GitChecks(req, ev)
  }

  // ------------------------------------------------------- no name is used twice

  /** Ranks rise strictly from at least `lo` to below `hi`. */
  ghost predicate InBand(s: seq<Check>, lo: int, hi: int) {
    && lo <= hi
    && (forall i :: 0 <= i < |s| ==> lo <= Rank(s[i].name) < hi)
    && (forall i, j :: 0 <= i < j < |s| ==> Rank(s[i].name) < Rank(s[j].name))
  }

  lemma JoinBands(s: seq<Check>, t: seq<Check>, lo: int, mid: int, hi: int)
    requires InBand(s, lo, mid) && InBand(t, mid, hi)
    ensures InBand(s + t, lo, hi)
  {
  }

  /** A run of checks without gaps. */
  lemma RunBand(s: seq<Check>, lo: int)
    requires forall i :: 0 <= i < |s| ==> Rank(s[i].name) == lo + i
    ensures InBand(s, lo, lo + |s|)
  {
  }

  lemma BindingBand(req: Request, ev: Evidence, row: Option<ApplyRow>)
    ensures InBand(BindingChecks(req, ev, row), 0, 12)
  {
    RunBand(BindingChecks(req, ev, row), 0);
  }

  lemma ApplyVerificationBand(req: Request, ev: Evidence, applied: Option<int>, row: Option<ApplyRow>)
    ensures InBand(ApplyVerificationChecks(req, ev, applied, row), 12, 22)
  {
    RunBand(ApplyVerificationChecks(req, ev, applied, row), 12);
  }

  lemma IdentityBand(s: Trio<Session>, a: Trio<Attestation>)
    ensures InBand(IdentityChecks(s, a), 22, 37)
  {
    RunBand(IdentityChecks(s, a), 22);
  }

  lemma PacketBand(m: Mission)
    ensures InBand(PacketChecks(m), 40, 59)
  {
    match m
    case MissionRead(boundary, contract, _) =>
      var start := [Check(MissionCheck(FilePresent), true), Check(MissionCheck(JsonReadable), true)];
      BoundaryBand(boundary);
      ContractBand(contract);
      JoinBands(start, BoundaryChecks(boundary), 40, 42, 47);
      JoinBands(start + BoundaryChecks(boundary), ContractChecks(contract), 40, 47, 59);
    case _ =>
  }

  lemma BoundaryBand(b: Boundary)
    ensures InBand(BoundaryChecks(b), 42, 47)
  {
    RunBand(BoundaryChecks(b), 42);
  }

  lemma ContractBand(c: Contract)
    ensures InBand(ContractChecks(c), 47, 59)
  {
    RunBand(ContractChecks(c), 47);
  }

  lemma MissionBand(req: Request, ev: Evidence)
    ensures InBand(MissionChecks(req, ev), 40, 60)
  {
    PacketBand(PacketOf(req, ev));
    JoinBands(if UsesMission(req) then PacketChecks(PacketOf(req, ev)) else [],
              if req.enforce then [Check(MissionCheck(TrustedConfigured), req.trusted != {})] else [], 40, 59, 60);
  }

  lemma ActorBand(kind: ActorKind, passed: Trio<bool>)
    ensures InBand(ActorChecks(kind, passed), ActorKindRank(kind), ActorKindRank(kind) + 3)
  {
  }

  /** The short lists of checks on files, processes and the landing proof. */
  lemma ShortBands(req: Request, ev: Evidence)
    ensures InBand(FileChecks(req, ev), 37, 40) && InBand(LandingChecks(ev), 78, 82)
    ensures InBand(ObservedChecks(req, ev.attestations), 60, 63)
  {
    var a := ev.attestations;
    ActorBand(ObservedProcessId, Trio(ObservedId(a.worker), ObservedId(a.reviewer), ObservedId(a.gate)));
  }

  lemma ClaimBands(trusted: set<string>, forbidden: set<string>, c: Trio<HostClaim>)
    ensures InBand(SignedChecks(c), 63, 67) && InBand(RunIdChecks(c), 67, 70)
    ensures InBand(TrustedChecks(trusted, c), 70, 73) && InBand(ForbiddenChecks(forbidden, c), 73, 76)
  {
    var signed := Trio(c.worker.accepted, c.reviewer.accepted, c.gate.accepted);
    ActorBand(HostSigned, signed);
    JoinBands(ActorChecks(HostSigned, signed), [Check(ShareSigner, |Signers(c)| == 1)], 63, 66, 67);
    ActorBand(ProviderRunId, Trio(HasRunId(c.worker), HasRunId(c.reviewer), HasRunId(c.gate)));
    ActorBand(TrustedIssuer, Trio(IssuerTrusted(trusted, c.worker), IssuerTrusted(trusted, c.reviewer),
                                  IssuerTrusted(trusted, c.gate)));
    ActorBand(ForbiddenIssuerAbsent, Trio(IssuerNotForbidden(forbidden, c.worker), IssuerNotForbidden(forbidden, c.reviewer),
                                          IssuerNotForbidden(forbidden, c.gate)));
  }

  lemma HostBand(req: Request, ev: Evidence, c: Trio<HostClaim>)
    ensures InBand(HostChecks(req, ev, c), 63, 76)
  {
    var signed := if NeedsHost(req, ev) then SignedChecks(c) else [];
    var ids := if NeedsProvider(req, ev) then RunIdChecks(c) else [];
    var trusted := if req.trusted != {} then TrustedChecks(req.trusted, c) else [];
    var forbidden := if Forbidden(req, ev) != {} then ForbiddenChecks(Forbidden(req, ev), c) else [];
    ClaimBands(req.trusted, Forbidden(req, ev), c);
    JoinBands(signed, ids, 63, 67, 70);
    JoinBands(signed + ids, trusted, 63, 70, 73);
    JoinBands(signed + ids + trusted, forbidden, 63, 73, 76);
  }

  lemma GitBand(req: Request, ev: Evidence)
    ensures InBand(GitChecks(req, ev), 76, 84)
  {
    var start := [Check(GitCheck(HeadReachable), ev.mergeBase == ev.head),
                  Check(GitCheck(MainlineMatchesHead), ev.mainline == ev.head)];
    var subject := if req.subject then [Check(GitCheck(SubjectReachable), ev.subjectReachable)] else [];
    ShortBands(req, ev);
    JoinBands(start, LandingChecks(ev), 76, 78, 82);
    JoinBands(start + LandingChecks(ev), subject, 76, 82, 83);
    JoinBands(start + LandingChecks(ev) + subject, [Check(GitCheck(WorktreeClean), ev.clean)], 76, 83, 84);
  }

  /** What is inserted: the text of a check's name with its verdict. */
  datatype Entry = Entry(text: string, passed: bool)

  function Entries(log: seq<Check>): (r: seq<Entry>)
    ensures |r| == |log| && forall i :: 0 <= i < |log| ==> r[i] == Entry(NameText(log[i].name), log[i].passed)
  {
    seq(|log|, i requires 0 <= i < |log| => Entry(NameText(log[i].name), log[i].passed))
  }

  ghost predicate DistinctTexts(es: seq<Entry>) { forall i, j :: 0 <= i < j < |es| ==> es[i].text != es[j].text }

  /** No request and no evidence insert one text twice. */
  lemma NoNameTwice(req: Request, ev: Evidence, applied: Option<int>, row: Option<ApplyRow>, claims: Trio<HostClaim>)
    ensures DistinctTexts(Entries(Log(req, ev, applied, row, claims)))
  {
    LogBand(req, ev, applied, row, claims);
    BandTexts(Log(req, ev, applied, row, claims), 0, 84);
  }

  lemma BandTexts(log: seq<Check>, lo: int, hi: int)
    requires InBand(log, lo, hi)
    ensures DistinctTexts(Entries(log))
  {
    forall i, j | 0 <= i < j < |log| ensures Entries(log)[i].text != Entries(log)[j].text {
      TextPlace(log[i].name);
      TextPlace(log[j].name);
    }
  }

  lemma LogBand(req: Request, ev: Evidence, applied: Option<int>, row: Option<ApplyRow>, claims: Trio<HostClaim>)
    ensures InBand(Log(req, ev, applied, row, claims), 0, 84)
  {
    var b, v, i, f := BindingChecks(req, ev, row), ApplyVerificationChecks(req, ev, applied, row),
                      IdentityChecks(ev.sessions, ev.attestations), FileChecks(req, ev);
    var m, o, h := MissionChecks(req, ev), ObservedChecks(req, ev.attestations), HostChecks(req, ev, claims);
    BindingBand(req, ev, row);
    ApplyVerificationBand(req, ev, applied, row);
    IdentityBand(ev.sessions, ev.attestations);
    MissionBand(req, ev);
    ShortBands(req, ev);
    HostBand(req, ev, claims);
    GitBand(req, ev);
    JoinBands(b, v, 0, 12, 22);
    JoinBands(b + v, i, 0, 22, 37);
    JoinBands(b + v + i, f, 0, 37, 40);
    JoinBands(b + v + i + f, m, 0, 40, 60);
    JoinBands(b + v + i + f + m, o, 0, 60, 63);
    JoinBands(b + v + i + f + m + o, h, 0, 63, 76);
    JoinBands(b + v + i + f + m + o + h, GitChecks(req, ev), 0, 76, 84);
  }
}
