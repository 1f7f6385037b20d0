/** The shared enums and the transition tables of the validators. */
module Lifecycle {

  /** A row key. Only its identity matters to the protocols, and its text to sort order. */
  datatype Id = Id(text: string)

  /** The rows of a SELECT, in some order. */
  method Rows(ids: set<Id>) returns (texts: seq<string>)
    ensures forall q :: q in ids <==> q.text in texts
  {
    texts := [];
    var rest := ids;
    while rest != {}
      invariant rest <= ids
      invariant forall q :: q in ids <==> q in rest || q.text in texts
      decreases |rest|
    {
      var q :| q in rest;
      texts := texts + [q.text];
      rest := rest - {q};
    }
  }

  datatype SubtaskKind = Work | Review | Cleanup

  datatype SubtaskState =
    | Available | Blocked | Claimed | InProgress | ArtifactPublished | ReviewPending
    | ChangesRequested | Approved | Decided | ReadyForApply | Applied | Completed | Failed | Abandoned

  datatype CompletionPolicy = Direct | Reviewed | CanonicalApply

  datatype SessionState = Active | Stale | Exited
  datatype SessionRole = Executor | Orchestrator | ApplyGate | Reviewer

  datatype ClaimState = Held | Released | Expired | Revoked

  datatype MetaTaskState = Planning | MetaActive | MetaCompleted | MetaCancelled

  datatype QueueState = Queued | InFlight | QueueApplied | Superseded | QueueCancelled

  /** `ensure_subtask_transition`. */
  predicate SubtaskTransition(kind: SubtaskKind, from: SubtaskState, to: SubtaskState) {
    match kind
    case Work =>
      (from, to) in {
        (Available, Claimed), (Claimed, InProgress), (InProgress, Available), (InProgress, Completed),
        (InProgress, Failed), (InProgress, ArtifactPublished), (ArtifactPublished, ArtifactPublished),
        (ReviewPending, ArtifactPublished), (ArtifactPublished, ReviewPending),
        (ReviewPending, ChangesRequested), (ReviewPending, Blocked), (ReviewPending, Approved),
        (ReviewPending, Completed), (ReviewPending, Applied), (Approved, ReadyForApply),
        (ReadyForApply, Applied)}
    case Review =>
      (from, to) in {(Available, Claimed), (Claimed, InProgress), (InProgress, Decided)}
    case Cleanup =>
      (from, to) in {(Available, Claimed), (Claimed, InProgress), (InProgress, Applied), (Available, Applied)}
  }

  lemma OnlyAvailableIsClaimed(kind: SubtaskKind, from: SubtaskState)
    ensures SubtaskTransition(kind, from, Claimed) <==> from == Available
  {
  }

  /** `ensure_ready_queue_transition`. */
  predicate QueueTransition(from: QueueState, to: QueueState) {
    (from, to) in {
      (Queued, InFlight), (InFlight, QueueApplied), (Queued, Superseded), (InFlight, Superseded),
      (Queued, QueueCancelled), (InFlight, QueueCancelled)}
  }

  /** `require_session_can_claim_kind`. */
  predicate CanClaim(role: SessionRole, kind: SubtaskKind) {
    match kind
    case Work => role == Executor
    case Review => role == Reviewer
    case Cleanup => role == Orchestrator
  }

  /** The states in which a subtask has no current claim. */
  predicate Unclaimed(s: SubtaskState) { s in {Available, Completed, Failed, Abandoned, Decided} }

  /** `state NOT IN (...)` of the meta-task refresh. */
  predicate Terminal(s: SubtaskState) { s in {Applied, Completed, Failed, Abandoned, Decided} }
}
