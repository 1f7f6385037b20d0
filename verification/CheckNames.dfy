/** The names of the checks of an apply proof: what they are about, their texts and their order. */
module CheckNames {
  import opened Text

  datatype Actor = Worker | ReviewActor | Gate
  datatype Pair = WorkerReviewer | WorkerGate | ReviewerGate

  datatype CheckName =
    | Binding(binding: BindingName) | ApplyVerification(verification: ApplyName)
    | ActorCheck(ofActor: ActorKind, actor: Actor) | PairCheck(ofPair: PairKind, pair: Pair)
    | FileCheck(file: FileName) | MissionCheck(mission: MissionName) | ShareSigner | GitCheck(git: GitName)

  datatype BindingName =
    | ArtifactDigestMatchesExpected | ReviewTargetsArtifact | ReviewTargetsSubtask | ArtifactTargetsSubtask
    | ReviewTargetsRequestedSubtask | QueueTargetsRequestedSubtask | ReviewApproved | ReviewFindingsDigestMatches
    | QueueTargetsArtifact | QueueTargetsReviewedSubtask | QueueIsApplied | ApplyVerificationRecorded

  datatype ApplyName =
    | TargetsQueue | TargetsArtifact | TargetsReview | TargetsFindings | TargetsFence | UsesExpectedVerifier
    | RecordedByApplyGate | VerdictMatchesFile | VerdictMatchesRequested | SealMatchesRequested

  datatype ActorKind =
    | RoleVerified | AttestationMatches | ObservedProcessId | HostSigned | ProviderRunId | TrustedIssuer
    | ForbiddenIssuerAbsent

  datatype PairKind = PrincipalsDiffer | RuntimeRefsDiffer | TranscriptsDiffer

  datatype FileName = FindingsFileMatches | ArtifactFileMatches | SuccessTextFound

  datatype MissionName =
    | FilePresent | JsonReadable | BoundaryPresent | CannotScheduleOrSettle | CoveyOwnsLifecycle | SingleAttempt
    | HooksEnforce | ContractPresent | SchemaCurrent | ForLanding | ForPromotedProof | ActorRoles | RuntimeFields
    | ProviderFields | TrustedRequired | ForbidsLocal | PrincipalSeparation | ProviderSeparation | Bindings
    | TrustedConfigured

  datatype GitName =
    | HeadReachable | MainlineMatchesHead | LandingHashNonEmpty | LandingHashResolves | LandingHashMatchesHead
    | LandingHashMatchesMainline | SubjectReachable | WorktreeClean

  // ------------------------------------------------------------- the texts of the names

  function BindingText(n: BindingName): string {
    match n
    case ArtifactDigestMatchesExpected => "artifact_digest_matches_expected"
    case ReviewTargetsArtifact => "review_targets_artifact"
    case ReviewTargetsSubtask => "review_targets_subtask"
    case ArtifactTargetsSubtask => "artifact_targets_subtask"
    case ReviewTargetsRequestedSubtask => "review_targets_requested_subtask"
    case QueueTargetsRequestedSubtask => "queue_targets_requested_subtask"
    case ReviewApproved => "review_approved"
    case ReviewFindingsDigestMatches => "review_findings_digest_matches"
    case QueueTargetsArtifact => "queue_targets_artifact"
    case QueueTargetsReviewedSubtask => "queue_targets_reviewed_subtask"
    case QueueIsApplied => "queue_applied"
    case ApplyVerificationRecorded => "apply_verification_recorded"
  }

  function ApplyText(n: ApplyName): string {
    match n
    case TargetsQueue => "apply_verification_targets_queue"
    case TargetsArtifact => "apply_verification_targets_artifact"
    case TargetsReview => "apply_verification_targets_review"
    case TargetsFindings => "apply_verification_targets_findings"
    case TargetsFence => "apply_verification_targets_fence"
    case UsesExpectedVerifier => "apply_verification_uses_expected_verifier"
    case RecordedByApplyGate => "apply_verification_recorded_by_apply_gate"
    case VerdictMatchesFile => "apply_verification_verdict_digest_matches_file"
    case VerdictMatchesRequested => "apply_verification_verdict_digest_matches_requested"
    case SealMatchesRequested => "apply_verification_seal_digest_matches_requested"
  }

  function ActorPrefix(a: Actor): string {
    match a case Worker => "worker_" case ReviewActor => "reviewer_" case Gate => "apply_gate_"
  }

  function ActorSuffix(k: ActorKind): string {
    match k
    case RoleVerified => "role_verified"
    case AttestationMatches => "runtime_attestation_matches"
    case ObservedProcessId => "observed_process_id"
    case HostSigned => "host_signed_runtime_claim"
    case ProviderRunId => "provider_run_id"
    case TrustedIssuer => "provider_run_id_trusted_issuer"
    case ForbiddenIssuerAbsent => "provider_run_id_forbidden_issuer_absent"
  }

  function PairPrefix(p: Pair): string {
    match p
    case WorkerReviewer => "worker_reviewer_"
    case WorkerGate => "worker_apply_gate_"
    case ReviewerGate => "reviewer_apply_gate_"
  }

  function PairSuffix(k: PairKind): string {
    match k
    case PrincipalsDiffer => "principals_differ"
    case RuntimeRefsDiffer => "runtime_refs_differ"
    case TranscriptsDiffer => "transcript_digests_differ"
  }

  function FileText(n: FileName): string {
    match n
    case FindingsFileMatches => "reviewer_findings_file_digest_matches"
    case ArtifactFileMatches => "artifact_file_digest_matches_artifact"
    case SuccessTextFound => "success_text_found"
  }

  function MissionText(n: MissionName): string {
    match n
    case FilePresent => "mission_packet_file_present"
    case JsonReadable => "mission_packet_json_readable"
    case BoundaryPresent => "mission_packet_authority_boundary_present"
    case CannotScheduleOrSettle => "mission_packet_better_droid_cannot_schedule_or_settle"
    case CoveyOwnsLifecycle => "mission_packet_covey_owns_lifecycle"
    case SingleAttempt => "mission_packet_mutai_rs_single_attempt"
    case HooksEnforce => "mission_packet_hooks_enforce_boundaries"
    case ContractPresent => "mission_packet_promoted_identity_contract_present"
    case SchemaCurrent => "mission_contract_schema_current"
    case ForLanding => "mission_contract_required_for_landing"
    case ForPromotedProof => "mission_contract_required_for_promoted_fleet_proof"
    case ActorRoles => "mission_contract_actor_roles_cover_required_split"
    case RuntimeFields => "mission_contract_runtime_fields_cover_required_attestation"
    case ProviderFields => "mission_contract_provider_identity_fields_required"
    case TrustedRequired => "mission_contract_trusted_provider_run_id_issuer_required"
    case ForbidsLocal => "mission_contract_forbids_local_provider_run_issuers"
    case PrincipalSeparation => "mission_contract_principal_separation_required"
    case ProviderSeparation => "mission_contract_provider_run_separation_required"
    case Bindings => "mission_contract_covey_bindings_cover_apply_attempt"
    case TrustedConfigured => "mission_contract_trusted_provider_run_id_issuer_configured"
  }

  function GitText(n: GitName): string {
    match n
    case HeadReachable => "head_reachable_from_mainline"
    case MainlineMatchesHead => "mainline_matches_head"
    case LandingHashNonEmpty => "landing_proof_commit_hash_absent_or_non_empty"
    case LandingHashResolves => "landing_proof_commit_hash_absent_or_resolves"
    case LandingHashMatchesHead => "landing_proof_commit_hash_absent_or_matches_head"
    case LandingHashMatchesMainline => "landing_proof_commit_hash_absent_or_matches_mainline"
    case SubjectReachable => "subject_reachable_from_mainline"
    case WorktreeClean => "worktree_clean"
  }

  /** The text a check is inserted under. */
  function NameText(n: CheckName): string {
    match n
    case Binding(b) => BindingText(b)
    case ApplyVerification(v) => ApplyText(v)
    case ActorCheck(k, a) => ActorPrefix(a) + ActorSuffix(k)
    case PairCheck(k, p) => PairPrefix(p) + PairSuffix(k)
    case FileCheck(f) => FileText(f)
    case MissionCheck(m) => MissionText(m)
    case ShareSigner => "host_signed_runtime_claims_share_signer"
    case GitCheck(g) => GitText(g)
  }

  // --------------------------------------------------------------- order and decoding

  function ActorRank(a: Actor): int { match a case Worker => 0 case ReviewActor => 1 case Gate => 2 }
  function PairRank(p: Pair): int { match p case WorkerReviewer => 0 case WorkerGate => 1 case ReviewerGate => 2 }

  function BindingRank(n: BindingName): int {
    match n
    case ArtifactDigestMatchesExpected => 0 case ReviewTargetsArtifact => 1 case ReviewTargetsSubtask => 2
    case ArtifactTargetsSubtask => 3 case ReviewTargetsRequestedSubtask => 4 case QueueTargetsRequestedSubtask => 5
    case ReviewApproved => 6 case ReviewFindingsDigestMatches => 7 case QueueTargetsArtifact => 8
    case QueueTargetsReviewedSubtask => 9 case QueueIsApplied => 10 case ApplyVerificationRecorded => 11
  }

  function ApplyRank(n: ApplyName): int {
    match n
    case TargetsQueue => 12 case TargetsArtifact => 13 case TargetsReview => 14 case TargetsFindings => 15
    case TargetsFence => 16 case UsesExpectedVerifier => 17 case RecordedByApplyGate => 18
    case VerdictMatchesFile => 19 case VerdictMatchesRequested => 20 case SealMatchesRequested => 21
  }

  function ActorKindRank(k: ActorKind): int {
    match k
    case RoleVerified => 22 case AttestationMatches => 25 case ObservedProcessId => 60 case HostSigned => 63
    case ProviderRunId => 67 case TrustedIssuer => 70 case ForbiddenIssuerAbsent => 73
  }

  function PairKindRank(k: PairKind): int {
    match k case PrincipalsDiffer => 28 case RuntimeRefsDiffer => 31 case TranscriptsDiffer => 34
  }

  function FileRank(n: FileName): int {
    match n case FindingsFileMatches => 37 case ArtifactFileMatches => 38 case SuccessTextFound => 39
  }

  function MissionRank(n: MissionName): int {
    match n
    case FilePresent => 40 case JsonReadable => 41 case BoundaryPresent => 42 case CannotScheduleOrSettle => 43
    case CoveyOwnsLifecycle => 44 case SingleAttempt => 45 case HooksEnforce => 46 case ContractPresent => 47
    case SchemaCurrent => 48 case ForLanding => 49 case ForPromotedProof => 50 case ActorRoles => 51
    case RuntimeFields => 52 case ProviderFields => 53 case TrustedRequired => 54 case ForbidsLocal => 55
    case PrincipalSeparation => 56 case ProviderSeparation => 57 case Bindings => 58 case TrustedConfigured => 59
  }

  function GitRank(n: GitName): int {
    match n
    case HeadReachable => 76 case MainlineMatchesHead => 77 case LandingHashNonEmpty => 78
    case LandingHashResolves => 79 case LandingHashMatchesHead => 80 case LandingHashMatchesMainline => 81
    case SubjectReachable => 82 case WorktreeClean => 83
  }

  /** The place of each check in a run that makes all of them. */
  function Rank(name: CheckName): int {
    match name
    case Binding(n) => BindingRank(n)
    case ApplyVerification(n) => ApplyRank(n)
    case ActorCheck(k, a) => ActorKindRank(k) + ActorRank(a)
    case PairCheck(k, p) => PairKindRank(k) + PairRank(p)
    case FileCheck(n) => FileRank(n)
    case MissionCheck(n) => MissionRank(n)
    case ShareSigner => 66
    case GitCheck(n) => GitRank(n)
  }

  /** Length, thirteenth and third-last character are enough to tell which text it is. */
  function Place(n: int, c: char, d: char): int {
    if n == 13 then 10
    else if n == 14 then 83
    else if n == 15 then 6
    else if n == 18 then 39
    else if n == 20 then 22
    else if n == 21 then 77
    else if n == 22 then (if c == 't' then 2 else if c == 's' then 8 else if c == 'd' then 67 else 23)
    else if n == 23 then 1
    else if n == 24 then (if d == 'a' then 3 else if d == '_' then 68 else 24)
    else if n == 26 then (if c == 'v' then 60 else 69)
    else if n == 27 then (if d == 'd' then 11 else 40)
    else if n == 28 then (if d == 'b' then 41 else if d == 'i' then 76 else 61)
    else if n == 30 then (if d == 'h' then 7 else if d == 'a' then 9 else 62)
    else if n == 31 then (if d == 'a' then 5 else if d == 'e' then 48 else 82)
    else if n == 32 then
      (if c == 'e' then 0 else if c == 't' then 4
       else if c == 'c' then (if d == 'e' then 12 else 16) else 63)
    else if n == 33 then (if d == 'i' then 14 else 28)
    else if n == 34 then (if d == 'h' then 25 else 64)
    else if n == 35 then
      (if c == 'c' then (if d == 'a' then 13 else 15)
       else if c == 'e' then 44 else if c == 'w' then 31 else 29)
    else if n == 36 then (if d == 'h' then 26 else 65)
    else if n == 37 then
      (if c == 'd' then (if d == 'h' then 37 else 70) else if c == 'e' then 38
       else if c == 'r' then 49 else if c == '_' then 32 else 30)
    else if n == 38 then (if d == 'm' then 45 else 27)
    else if n == 39 then (if d == 'i' then 46 else if d == 'u' then 71 else if d == 'f' then 33 else 66)
    else if n == 41 then
      (if d == 'i' then 17 else if d == 'a' then 18
       else if d == 'e' then 42 else if d == 'u' then 72 else 34)
    else if n == 43 then 35
    else if n == 44 then 79
    else if n == 45 then (if d == 'p' then 78 else 36)
    else if n == 46 then (if d == 'i' then 19 else if d == 'r' then 56 else 73)
    else if n == 48 then (if c == 'c' then 21 else if c == 'f' then 80 else 74)
    else if n == 49 then (if d == 'e' then 47 else if d == 'l' then 51 else 57)
    else if n == 50 then (if d == 'o' then 50 else if d == 'r' then 53 else 75)
    else if n == 51 then (if d == 't' then 20 else if d == 'e' then 55 else 58)
    else if n == 52 then 81
    else if n == 53 then 43
    else if n == 56 then 54
    else if n == 58 then (if d == 'i' then 52 else 59)
    else -1
  }

  function PlaceOf(s: string): int { if |s| < 13 then -1 else Place(|s|, s[12], s[|s| - 3]) }

  lemma BindingPlace(n: BindingName)
    ensures PlaceOf(BindingText(n)) == BindingRank(n)
  {
  }

  lemma ApplyPlace(n: ApplyName)
    ensures PlaceOf(ApplyText(n)) == ApplyRank(n)
  {
  }

  lemma WorkerPlace(k: ActorKind)
    ensures PlaceOf(ActorPrefix(Worker) + ActorSuffix(k)) == ActorKindRank(k)
  {
  }

  lemma ReviewerPlace(k: ActorKind)
    ensures PlaceOf(ActorPrefix(ReviewActor) + ActorSuffix(k)) == ActorKindRank(k) + 1
  {
  }

  lemma GatePlace(k: ActorKind)
    ensures PlaceOf(ActorPrefix(Gate) + ActorSuffix(k)) == ActorKindRank(k) + 2
  {
  }

  lemma ActorPlace(k: ActorKind, a: Actor)
    ensures PlaceOf(ActorPrefix(a) + ActorSuffix(k)) == ActorKindRank(k) + ActorRank(a)
  {
    match a
    case Worker => WorkerPlace(k);
    case ReviewActor => ReviewerPlace(k);
    case Gate => GatePlace(k);
  }

  lemma PairPlace(k: PairKind, p: Pair)
    ensures PlaceOf(PairPrefix(p) + PairSuffix(k)) == PairKindRank(k) + PairRank(p)
  {
  }

  lemma PacketPlace(n: MissionName)
    requires MissionRank(n) < 48
    ensures PlaceOf(MissionText(n)) == MissionRank(n)
  {
  }

  lemma CoveragePlace(n: MissionName)
    requires 48 <= MissionRank(n) < 54
    ensures PlaceOf(MissionText(n)) == MissionRank(n)
  {
  }

  lemma SeparationPlace(n: MissionName)
    requires 54 <= MissionRank(n)
    ensures PlaceOf(MissionText(n)) == MissionRank(n)
  {
  }

  lemma MissionPlace(n: MissionName)
    ensures PlaceOf(MissionText(n)) == MissionRank(n)
  {
    if MissionRank(n) < 48 { PacketPlace(n); }
    else if MissionRank(n) < 54 { CoveragePlace(n); }
    else { SeparationPlace(n); }
  }

  lemma GitPlace(n: GitName)
    ensures PlaceOf(GitText(n)) == GitRank(n)
  {
  }

  /** The place of a check can be read off its text, so two texts are equal only for one place. */
  lemma TextPlace(n: CheckName)
    ensures PlaceOf(NameText(n)) == Rank(n)
  {
    match n
    case Binding(b) => BindingPlace(b);
    case ApplyVerification(v) => ApplyPlace(v);
    case ActorCheck(k, a) => ActorPlace(k, a);
    case PairCheck(k, p) => PairPlace(k, p);
    case FileCheck(f) =>
    case MissionCheck(m) => MissionPlace(m);
    case ShareSigner =>
    case GitCheck(g) => GitPlace(g);
  }

  lemma RankInjective(a: CheckName, b: CheckName)
    requires Rank(a) == Rank(b)
    ensures a == b
  {
  }

  /** The check a text belongs to, if any. */
  ghost function ReadName(s: string): Option<CheckName> {
    if exists n :: Rank(n) == PlaceOf(s) then var n :| Rank(n) == PlaceOf(s); Some(n) else None
  }

  /** Every check is read back from its text, so no two checks have one text. */
  lemma NameReadsBack(n: CheckName)
    ensures ReadName(NameText(n)) == Some(n)
  {
    TextPlace(n);
    var s := NameText(n);
    var m :| Rank(m) == PlaceOf(s) && ReadName(s) == Some(m);
    RankInjective(m, n);
  }
}
