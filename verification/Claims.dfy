/**
 The fenced, leased claim protocol as a state machine over the tables
 `lease_clock`, `subtask_fence_counter`, `claims`, `sessions` and `subtasks`.
 A step is one write transaction: it commits its whole effect or none.
 */
module Claims {
  import opened Text
  import opened Lifecycle

  datatype Session = Session(role: SessionRole, state: SessionState, activeSubtask: Option<Id>,
                             lastHeartbeatTick: int)
  datatype Claim = Claim(subtask: Id, owner: Id, fence: int, deadline: int, state: ClaimState,
                         createdAt: int)
  datatype Subtask = Subtask(metaTask: Id, kind: SubtaskKind, state: SubtaskState,
                             currentClaim: Option<Id>)

  datatype Db = Db(clock: Option<int>, counters: map<Id, int>, claims: map<Id, Claim>,
                   sessions: map<Id, Session>, subtasks: map<Id, Subtask>)

  // -------------------------------------------------------- clock and fences

  function Max(a: int, b: int): int { if a < b then b else a }

  function Tick(db: Db): int { match db.clock case Some(t) => t case None => 0 }

  /** The upsert of `advance_lease_clock`. */
  function Advance(db: Db, wall: int): Db {
    db.(clock := Some(match db.clock case Some(t) => Max(t, Max(wall, 0)) case None => Max(wall, 0)))
  }

  /** How many fences the subtask's counter says were issued. */
  function Issued(counters: map<Id, int>, t: Id): int {
    if t in counters then counters[t] - 1 else 0
  }

  /** The upsert of `issue_fence_seq`; the fence returned is the new Issued. */
  function BumpCounter(db: Db, t: Id): Db {
    db.(counters := db.counters[t := if t in db.counters then db.counters[t] + 1 else 2])
  }

  // --------------------------------------------------------------- the guard

  predicate HeldClaim(claims: map<Id, Claim>, c: Id) { c in claims && claims[c].state == Held }

  predicate ActiveSession(db: Db, s: Id) { s in db.sessions && db.sessions[s].state == Active }

  datatype Guard =
    | Current(claim: Claim)
    | SessionNotFound | SessionNotActive | ClaimNotFound | NotClaimOwner | StaleFenceToken
    | ClaimNotHeld | LeaseExpired

  /** `require_current_claim`, with the tick the caller passes. */
  function RequireCurrentClaim(db: Db, s: Id, c: Id, fence: int, tick: int): Guard {
    if s !in db.sessions then SessionNotFound
    else if db.sessions[s].state != Active then SessionNotActive
    else if c !in db.claims then ClaimNotFound
    else if db.claims[c].owner != s then NotClaimOwner
    else if db.claims[c].fence != fence then StaleFenceToken
    else if db.claims[c].state != Held then ClaimNotHeld
    else if db.claims[c].deadline <= tick then LeaseExpired
    else Current(db.claims[c])
  }

  /** The triple is accepted for subtask t at a tick. */
  predicate Accepted(db: Db, t: Id, s: Id, c: Id, fence: int, tick: int) {
    var g := RequireCurrentClaim(db, s, c, fence, tick);
    g.Current? && g.claim.subtask == t
  }

  // ------------------------------------------------------- closing and detaching

  /** A claim the expiry of its subtask would close: the session join included. */
  predicate Expirable(db: Db, c: Id, tick: int) {
    && HeldClaim(db.claims, c) && db.claims[c].owner in db.sessions
    && (db.claims[c].deadline <= tick || db.sessions[db.claims[c].owner].state != Active)
  }

  function Detached(st: Subtask): Subtask {
    st.(currentClaim := None, state := if st.state in {Claimed, InProgress} then Available else st.state)
  }

  predicate DetachesSession(claims: map<Id, Claim>, cs: set<Id>, s: Id, session: Session) {
    session.activeSubtask.Some? &&
    exists c :: c in cs && c in claims && claims[c].owner == s && claims[c].subtask == session.activeSubtask.value
  }

  function CloseClaims(claims: map<Id, Claim>, cs: set<Id>, to: ClaimState): (r: map<Id, Claim>)
    ensures r.Keys == claims.Keys
  {
    map c | c in claims :: if c in cs then claims[c].(state := to) else claims[c]
  }

  function DetachSubtasks(subtasks: map<Id, Subtask>, cs: set<Id>): (r: map<Id, Subtask>)
    ensures r.Keys == subtasks.Keys
  {
    map t | t in subtasks ::
      if subtasks[t].currentClaim.Some? && subtasks[t].currentClaim.value in cs
      then Detached(subtasks[t]) else subtasks[t]
  }

  function DetachSessions(sessions: map<Id, Session>, claims: map<Id, Claim>, cs: set<Id>): (r: map<Id, Session>)
    ensures r.Keys == sessions.Keys
  {
    map s | s in sessions ::
      if DetachesSession(claims, cs, s, sessions[s]) then sessions[s].(activeSubtask := None) else sessions[s]
  }

  /** Close a set of claims and detach them from their subtasks and sessions, all at once. */
  function CloseAll(db: Db, cs: set<Id>, to: ClaimState): Db {
    db.(claims := CloseClaims(db.claims, cs, to),
        subtasks := DetachSubtasks(db.subtasks, cs),
        sessions := DetachSessions(db.sessions, db.claims, cs))
  }

  function ExpirableOn(db: Db, t: Id, tick: int): set<Id> {
    set c | c in db.claims && db.claims[c].subtask == t && Expirable(db, c, tick)
  }

  function AllExpirable(db: Db, tick: int): set<Id> {
    set c | c in db.claims && Expirable(db, c, tick)
  }

  /** `expire_claim_if_needed_for_subtask`: there is at most one claim to close. */
  function ExpireOn(db: Db, t: Id, tick: int): Db { CloseAll(db, ExpirableOn(db, t, tick), Expired) }

  /** `expire_old_claims` after its clock advance. */
  function ExpireOld(db: Db, tick: int): Db { CloseAll(db, AllExpirable(db, tick), Expired) }

  // ------------------------------------------------------------------- acquire

  datatype Selected =
    | Granted(db: Db, fence: int, deadline: int)
    | AlreadyClaimed(partial: Db)
    | IllegalTransition(partial: Db)
    | Refused

  /** The rows written when a claim is granted. */
  function GrantRows(db: Db, s: Id, t: Id, c: Id, deadline: int, now: int): Db
    requires s in db.sessions && t in db.subtasks
  {
    var db1 := BumpCounter(db, t);
    db1.(claims := db.claims[c := Claim(t, s, Issued(db1.counters, t), deadline, Held, now)],
         subtasks := db.subtasks[t := db.subtasks[t].(state := Claimed, currentClaim := Some(c))],
         sessions := db.sessions[s := db.sessions[s].(activeSubtask := Some(t))])
  }

  /**
   `claim_selected_subtask_tx` after its expiry. The meta-task and dependency
   tests read other tables, so their verdicts are parameters.
   */
  function Select(db: Db, s: Id, t: Id, c: Id, duration: int, schedulable: bool, depsSatisfied: bool,
                  now: int): Selected
    requires s in db.sessions
  {
    if t !in db.subtasks || !schedulable || !CanClaim(db.sessions[s].role, db.subtasks[t].kind) then Refused
    else if db.subtasks[t].kind == Work && !depsSatisfied then IllegalTransition(db)
    else if exists h :: h in db.claims && db.claims[h].subtask == t && db.claims[h].state == Held then AlreadyClaimed(db)
    else if !SubtaskTransition(db.subtasks[t].kind, db.subtasks[t].state, Claimed) then IllegalTransition(db)
    else if c in db.claims || Tick(db) + duration < 0 then Refused
    else if db.subtasks[t].currentClaim.Some? then IllegalTransition(BumpCounter(db, t))
    else if db.sessions[s].activeSubtask.Some? || db.sessions[s].state != Active then Refused
    else
      Granted(GrantRows(db, s, t, c, Tick(db) + duration, now), Issued(BumpCounter(db, t).counters, t),
              Tick(db) + duration)
  }

  // --------------------------------------------------------------------- steps

  datatype Step =
    | TickOnly(wall: int)
    | Register(s: Id, role: SessionRole, wall: int)
    | Heartbeat(s: Id, wall: int)
    | Create(t: Id, metaTask: Id, kind: SubtaskKind, seeded: bool)
    | ClaimSubtask(s: Id, t: Id, c: Id, duration: int, schedulable: bool, depsSatisfied: bool, wall: int)
    | ClaimNext(s: Id, t: Id, c: Id, duration: int, schedulable: bool, depsSatisfied: bool, wall: int)
    | Start(s: Id, c: Id, fence: int, schedulable: bool, wall: int)
    | Renew(s: Id, c: Id, fence: int, extend: int, wall: int)
    | Release(s: Id, c: Id, fence: int, wall: int)
    | Abandon(s: Id, c: Id, fence: int, wall: int)
    | Conclude(s: Id, c: Id, fence: int, to: SubtaskState, allowed: bool, wall: int)
    | Publish(s: Id, c: Id, fence: int, allowed: bool, wall: int)
    | RequestReview(t: Id, review: Id, allowed: bool, wall: int)
    | Decide(s: Id, c: Id, fence: int, t: Id, to: SubtaskState, allowed: bool, wall: int)
    | Settle(t: Id, to: SubtaskState, wall: int)
    | Revive(t: Id, wall: int)
    | Exit(s: Id, wall: int)
    | Reap(threshold: int, wall: int)
    | ExpireOldClaims(wall: int)
    | CancelMetaTask(metaTask: Id, wall: int)

  /** A fence handed out by a step. */
  datatype Grant = Grant(subtask: Id, claim: Id, session: Id, fence: int)

  datatype Outcome = Outcome(db: Db, grant: Option<Grant>)

  function NoGrant(db: Db): Outcome { Outcome(db, None) }

  function Acquire(db: Db, s: Id, t: Id, c: Id, duration: int, schedulable: bool,
                   depsSatisfied: bool, wall: int, commitsNoClaim: bool): Outcome {
    var db1 := Advance(db, wall);
    if wall < 0 || !ActiveSession(db1, s) || duration <= 0 || db1.sessions[s].activeSubtask.Some? then NoGrant(db)
    else
      match Select(ExpireOn(db1, t, Tick(db1)), s, t, c, duration, schedulable, depsSatisfied, wall)
      case Granted(db2, fence, _) => Outcome(db2, Some(Grant(t, c, s, fence)))
      case AlreadyClaimed(partial) => NoGrant(if commitsNoClaim then partial else db)
      case IllegalTransition(partial) => NoGrant(if commitsNoClaim then partial else db)
      case Refused => NoGrant(db)
  }

  function StartStep(db: Db, s: Id, c: Id, fence: int, schedulable: bool, wall: int): Db {
    var db1 := Advance(db, wall);
    match RequireCurrentClaim(db1, s, c, fence, Tick(db1))
    case Current(claim) =>
      var t := claim.subtask;
      if wall < 0 || !schedulable || t !in db1.subtasks || !CanClaim(db1.sessions[s].role, db1.subtasks[t].kind)
         || !SubtaskTransition(db1.subtasks[t].kind, db1.subtasks[t].state, InProgress)
      then db
      else db1.(subtasks := db1.subtasks[t := db1.subtasks[t].(state := InProgress)])
    case _ => db
  }

  function RenewStep(db: Db, s: Id, c: Id, fence: int, extend: int, wall: int): Db {
    var db1 := Advance(db, wall);
    match RequireCurrentClaim(db1, s, c, fence, Tick(db1))
    case Current(claim) =>
      if wall < 0 || extend <= 0 then db
      else db1.(claims := db1.claims[c := claim.(deadline := Max(claim.deadline, Tick(db1)) + extend)])
    case _ => db
  }

  /** `release_claim`; the session's active subtask is cleared whatever it names. */
  function ReleaseStep(db: Db, s: Id, c: Id, fence: int, wall: int): Db {
    var db1 := Advance(db, wall);
    match RequireCurrentClaim(db1, s, c, fence, Tick(db1))
    case Current(claim) =>
      var t := claim.subtask;
      if wall < 0 || t !in db1.subtasks || !CanClaim(db1.sessions[s].role, db1.subtasks[t].kind)
         || db1.subtasks[t].currentClaim != Some(c)
      then db
      else db1.(claims := db1.claims[c := claim.(state := Released)],
                subtasks := db1.subtasks[t := Detached(db1.subtasks[t])],
                sessions := db1.sessions[s := db1.sessions[s].(activeSubtask := None)])
    case _ => db
  }

  function AbandonStep(db: Db, s: Id, c: Id, fence: int, wall: int): Db {
    var db1 := Advance(db, wall);
    match RequireCurrentClaim(db1, s, c, fence, Tick(db1))
    case Current(claim) =>
      var t := claim.subtask;
      if wall < 0 || t !in db1.subtasks || !CanClaim(db1.sessions[s].role, db1.subtasks[t].kind)
         || db1.subtasks[t].state in {Applied, Completed, Failed, SubtaskState.Abandoned}
         || db1.subtasks[t].currentClaim != Some(c)
      then db
      else FinishRows(db1, s, c, SubtaskState.Abandoned)
    case _ => db
  }

  /** Release a claim, leave its subtask in the given state without a claim, and free the session. */
  function FinishRows(db: Db, s: Id, c: Id, to: SubtaskState): Db
    requires s in db.sessions && c in db.claims && db.claims[c].subtask in db.subtasks
  {
    var t := db.claims[c].subtask;
    db.(claims := db.claims[c := db.claims[c].(state := Released)],
        subtasks := db.subtasks[t := db.subtasks[t].(state := to, currentClaim := None)],
        sessions := db.sessions[s := db.sessions[s].(activeSubtask := None)])
  }

  /** `record_direct_outcome_tx`: finish, retry or fail. The policy and evidence tests are a parameter. */
  function ConcludeStep(db: Db, s: Id, c: Id, fence: int, to: SubtaskState, allowed: bool, wall: int): Db {
    var db1 := Advance(db, wall);
    match RequireCurrentClaim(db1, s, c, fence, Tick(db1))
    case Current(claim) =>
      var t := claim.subtask;
      if wall < 0 || !allowed || to !in {Completed, Available, Failed} || t !in db1.subtasks
         || !CanClaim(db1.sessions[s].role, db1.subtasks[t].kind)
         || !SubtaskTransition(db1.subtasks[t].kind, db1.subtasks[t].state, to)
         || db1.subtasks[t].state != InProgress || db1.subtasks[t].currentClaim != Some(c)
      then db
      else FinishRows(db1, s, c, to)
    case _ => db
  }

  function WithState(db: Db, t: Id, to: SubtaskState): Db
    requires t in db.subtasks
  {
    db.(subtasks := db.subtasks[t := db.subtasks[t].(state := to)])
  }

  /** `publish_artifact` on these tables: the claim stays. */
  function PublishStep(db: Db, s: Id, c: Id, fence: int, allowed: bool, wall: int): Db {
    var db1 := Advance(db, wall);
    match RequireCurrentClaim(db1, s, c, fence, Tick(db1))
    case Current(claim) =>
      var t := claim.subtask;
      if wall < 0 || !allowed || t !in db1.subtasks || db1.subtasks[t].kind != Work
         || !CanClaim(db1.sessions[s].role, Work) || !SubtaskTransition(Work, db1.subtasks[t].state, ArtifactPublished)
      then db
      else WithState(db1, t, ArtifactPublished)
    case _ => db
  }

  /** `request_review`: the work waits, and a review subtask with its own counter appears. */
  function RequestReviewStep(db: Db, t: Id, review: Id, allowed: bool, wall: int): Db {
    if wall < 0 || !allowed || t !in db.subtasks || db.subtasks[t].kind != Work
       || !SubtaskTransition(Work, db.subtasks[t].state, ReviewPending) || review in db.subtasks || review in db.counters
    then db
    else
      var db1 := WithState(db, t, ReviewPending);
      db1.(subtasks := db1.subtasks[review := Subtask(db.subtasks[t].metaTask, Review, Available, None)],
           counters := db1.counters[review := 1])
  }

  /** A claim the completed work still has can be closed; otherwise the whole decision is rolled back. */
  predicate VerdictReady(db: Db, t: Id, to: SubtaskState)
    requires t in db.subtasks
  {
    to == Completed && db.subtasks[t].currentClaim.Some? ==>
      var d := db.subtasks[t].currentClaim.value;
      d in db.claims && db.claims[d].state == Held && db.claims[d].owner in db.sessions && db.claims[d].subtask == t
  }

  /** The claim the work itself still has is released when the verdict completes it. */
  function VerdictRows(db: Db, t: Id, to: SubtaskState): Db
    requires t in db.subtasks && VerdictReady(db, t, to)
  {
    if to == Completed && db.subtasks[t].currentClaim.Some?
    then FinishRows(db, db.claims[db.subtasks[t].currentClaim.value].owner, db.subtasks[t].currentClaim.value, Completed)
    else WithState(db, t, to)
  }

  /** `decide_review` and the permissive receipt: the review ends with its claim, the work gets its verdict. */
  function DecideStep(db: Db, s: Id, c: Id, fence: int, t: Id, to: SubtaskState, allowed: bool, wall: int): Db {
    var db1 := Advance(db, wall);
    match RequireCurrentClaim(db1, s, c, fence, Tick(db1))
    case Current(claim) =>
      var r := claim.subtask;
      if wall < 0 || !allowed || to !in {Completed, Approved, SubtaskState.Applied, ChangesRequested, Blocked}
         || r !in db1.subtasks || t !in db1.subtasks || t == r || db1.sessions[s].role != Reviewer
         || !CanClaim(Reviewer, db1.subtasks[r].kind)
         || !SubtaskTransition(db1.subtasks[r].kind, db1.subtasks[r].state, Decided)
         || db1.subtasks[r].currentClaim != Some(c)
         || !SubtaskTransition(db1.subtasks[t].kind, db1.subtasks[t].state, to)
         || db1.subtasks[t].state != ReviewPending
      then db
      else
        var db2 := FinishRows(db1, s, c, Decided);
        if VerdictReady(db2, t, to) then VerdictRows(db2, t, to) else db
    case _ => db
  }

  /** Enqueueing approved work and marking it applied. */
  function SettleStep(db: Db, t: Id, to: SubtaskState, wall: int): Db {
    if wall < 0 || t !in db.subtasks || db.subtasks[t].state !in {Approved, ReadyForApply}
       || !SubtaskTransition(db.subtasks[t].kind, db.subtasks[t].state, to)
    then db
    else WithState(db, t, to)
  }

  /** An abandoned follow-up becomes available again. */
  function ReviveStep(db: Db, t: Id, wall: int): Db {
    if wall < 0 || t !in db.subtasks || db.subtasks[t].kind != Work || db.subtasks[t].state != SubtaskState.Abandoned
       || db.subtasks[t].currentClaim.Some?
    then db
    else WithState(db, t, Available)
  }

  function HeldBy(db: Db, s: Id): set<Id> {
    set c | c in db.claims && db.claims[c].state == Held && db.claims[c].owner == s
  }

  function ExitStep(db: Db, s: Id, wall: int): Db {
    if wall < 0 || s !in db.sessions || db.sessions[s].state == Exited then db
    else
      var db1 := db.(sessions := db.sessions[s := db.sessions[s].(state := Exited, activeSubtask := None)]);
      CloseAll(db1, HeldBy(db1, s), Expired)
  }

  predicate Silent(session: Session, before: int) {
    session.state == Active && session.lastHeartbeatTick <= before
  }

  function MarkStale(db: Db, before: int): Db {
    db.(sessions := map s | s in db.sessions ::
          if Silent(db.sessions[s], before) then db.sessions[s].(state := Stale) else db.sessions[s])
  }

  function HeldOfMetaTask(db: Db, metaTask: Id): set<Id> {
    set c | c in db.claims && db.claims[c].state == Held && db.claims[c].subtask in db.subtasks
            && db.subtasks[db.claims[c].subtask].metaTask == metaTask
  }

  function CancelSubtasks(subtasks: map<Id, Subtask>, metaTask: Id): (r: map<Id, Subtask>)
    ensures r.Keys == subtasks.Keys
  {
    map t | t in subtasks ::
      if subtasks[t].metaTask == metaTask
      then subtasks[t].(currentClaim := None,
                        state := if Terminal(subtasks[t].state) then subtasks[t].state else SubtaskState.Abandoned)
      else subtasks[t]
  }

  /** `cancel_meta_task` on these tables: claims revoked, subtasks detached and abandoned unless terminal. */
  function CancelStep(db: Db, metaTask: Id): Db {
    var db1 := CloseAll(db, HeldOfMetaTask(db, metaTask), Revoked);
    db1.(subtasks := CancelSubtasks(db1.subtasks, metaTask))
  }

  /** Mark the silent sessions stale and sweep what they and expired leases held. */
  function SweepStale(db: Db, before: int, tick: int): Db { ExpireOld(MarkStale(db, before), tick) }

  /** `reap_stale_sessions`; the event it logs when a session was marked needs a non-negative time. */
  function ReapStep(db: Db, threshold: int, wall: int): Db {
    var db1 := Advance(db, wall);
    var before := Tick(db1) - threshold;
    if wall < 0 && exists s :: s in db1.sessions && Silent(db1.sessions[s], before) then db
    else SweepStale(db1, before, Tick(db1))
  }

  function ExpireOldStep(db: Db, wall: int): Db {
    var db1 := Advance(db, wall);
    if wall < 0 && AllExpirable(db1, Tick(db1)) != {} then db else ExpireOld(db1, Tick(db1))
  }

  function Exec(db: Db, step: Step): Outcome {
    match step
    case TickOnly(wall) => NoGrant(Advance(db, wall))
    case Register(s, role, wall) =>
      var db1 := Advance(db, wall);
      NoGrant(if wall < 0 || s in db.sessions then db
              else db1.(sessions := db1.sessions[s := Session(role, Active, None, Tick(db1))]))
    case Heartbeat(s, wall) =>
      var db1 := Advance(db, wall);
      NoGrant(if wall < 0 || !ActiveSession(db, s) then db
              else db1.(sessions := db1.sessions[s := db1.sessions[s].(lastHeartbeatTick := Tick(db1))]))
    case Create(t, metaTask, kind, seeded) =>
      NoGrant(if t in db.subtasks || t in db.counters then db
              else db.(subtasks := db.subtasks[t := Subtask(metaTask, kind, Available, None)],
                       counters := if seeded then db.counters[t := 1] else db.counters))
    case ClaimSubtask(s, t, c, duration, schedulable, deps, wall) =>
      Acquire(db, s, t, c, duration, schedulable, deps, wall, false)
    case ClaimNext(s, t, c, duration, schedulable, deps, wall) =>
      Acquire(db, s, t, c, duration, schedulable, deps, wall, true)
    case Start(s, c, fence, schedulable, wall) => NoGrant(StartStep(db, s, c, fence, schedulable, wall))
    case Renew(s, c, fence, extend, wall) => NoGrant(RenewStep(db, s, c, fence, extend, wall))
    case Release(s, c, fence, wall) => NoGrant(ReleaseStep(db, s, c, fence, wall))
    case Abandon(s, c, fence, wall) => NoGrant(AbandonStep(db, s, c, fence, wall))
    case Conclude(s, c, fence, to, allowed, wall) => NoGrant(ConcludeStep(db, s, c, fence, to, allowed, wall))
    case Publish(s, c, fence, allowed, wall) => NoGrant(PublishStep(db, s, c, fence, allowed, wall))
    case RequestReview(t, review, allowed, wall) => NoGrant(RequestReviewStep(db, t, review, allowed, wall))
    case Decide(s, c, fence, t, to, allowed, wall) => NoGrant(DecideStep(db, s, c, fence, t, to, allowed, wall))
    case Settle(t, to, wall) => NoGrant(SettleStep(db, t, to, wall))
    case Revive(t, wall) => NoGrant(ReviveStep(db, t, wall))
    case Exit(s, wall) => NoGrant(ExitStep(db, s, wall))
    case Reap(threshold, wall) => NoGrant(ReapStep(db, threshold, wall))
    case ExpireOldClaims(wall) => NoGrant(ExpireOldStep(db, wall))
    case CancelMetaTask(metaTask, wall) => NoGrant(if wall < 0 then db else CancelStep(db, metaTask))
  }
}
