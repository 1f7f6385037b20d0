/** What the steps of the claim protocol do when they are admitted, on the columns of the rows they touch. */
module ClaimEffects {
  import opened Text
  import opened Lifecycle
  import opened Claims
  import opened ClaimInvariants
  import opened ClaimSafety
  import opened ClaimRefusals
  import opened ClaimStore

  // ------------------------------------------------------------------ the guard

  /** What the guard answers, and what has to be right before it gets to each of its complaints. */
  lemma GuardMeans(db: Db, s: Id, c: Id, fence: int, tick: int)
    ensures var g := RequireCurrentClaim(db, s, c, fence, tick);
            var owned := ActiveSession(db, s) && c in db.claims && db.claims[c].owner == s;
            && (g.SessionNotFound? <==> s !in db.sessions)
            && (g.SessionNotActive? <==> s in db.sessions && !ActiveSession(db, s))
            && (g.ClaimNotFound? <==> ActiveSession(db, s) && c !in db.claims)
            && (g.NotClaimOwner? <==> ActiveSession(db, s) && c in db.claims && !owned)
            && (g.StaleFenceToken? <==> owned && db.claims[c].fence != fence)
            && (g.ClaimNotHeld? <==> owned && db.claims[c].fence == fence && db.claims[c].state != Held)
            && (g.LeaseExpired? <==>
                owned && db.claims[c].fence == fence && HeldClaim(db.claims, c) && db.claims[c].deadline <= tick)
            && (g.Current? <==>
                owned && db.claims[c].fence == fence && HeldClaim(db.claims, c) && tick < db.claims[c].deadline)
            && (g.Current? ==> g.claim == db.claims[c])
  {
  }

  // --------------------------------------------------------------------- expiry

  /** The lease has run out at the tick, or its holder is no longer active. */
  predicate Over(db: Db, claim: Claim, tick: int) { claim.deadline <= tick || !ActiveSession(db, claim.owner) }

  /** Expiry of one subtask ends exactly its held claims that are over. */
  lemma ExpireOnMeans(db: Db, t: Id, tick: int)
    requires Consistent(db)
    ensures var db' := ExpireOn(db, t, tick);
            && db'.claims.Keys == db.claims.Keys
            && (forall c :: c in db.claims ==>
                  db'.claims[c] == if db.claims[c].state == Held && db.claims[c].subtask == t && Over(db, db.claims[c], tick)
                                   then db.claims[c].(state := Expired) else db.claims[c])
            && forall c :: HeldClaim(db'.claims, c) && db'.claims[c].subtask == t ==>
                 db'.claims[c].deadline > tick && ActiveSession(db', db'.claims[c].owner)
  {
    forall c | c in db.claims ensures db.claims[c].owner in db.sessions { assert ClaimOk(db, c); }
  }

  /** The sweep advances the clock and ends exactly the held claims of all subtasks that are over. */
  lemma ExpireOldMeans(db: Db, wall: int)
    requires Inv(db) && wall >= 0
    ensures var db', tick := Exec(db, ExpireOldClaims(wall)).db, Handed(db, wall);
            && db'.claims.Keys == db.claims.Keys && db'.clock == Some(tick)
            && (forall c :: c in db.claims ==>
                  db'.claims[c] == if db.claims[c].state == Held && Over(db, db.claims[c], tick)
                                   then db.claims[c].(state := Expired) else db.claims[c])
            && forall c :: HeldClaim(db'.claims, c) ==>
                 db'.claims[c].deadline > tick && ActiveSession(db', db'.claims[c].owner)
  {
    forall c | c in db.claims ensures db.claims[c].owner in db.sessions { assert ClaimOk(db, c); }
  }

  /** With the claim its subtask loses its current claim, goes back to the pool if work had begun, and frees the holder. */
  lemma ExpireOnFrees(db: Db, t: Id, tick: int, c: Id)
    requires Consistent(db) && HeldClaim(db.claims, c) && db.claims[c].subtask == t && Over(db, db.claims[c], tick)
    ensures t in db.subtasks && db.claims[c].owner in db.sessions
    ensures var s, st := db.claims[c].owner, db.subtasks[t].state;
            ExpireOn(db, t, tick) ==
            db.(claims := db.claims[c := db.claims[c].(state := Expired)],
                subtasks := db.subtasks[t := db.subtasks[t].(
                  currentClaim := None, state := if st == Claimed || st == InProgress then Available else st)],
                sessions := db.sessions[s := db.sessions[s].(activeSubtask := None)])
  {
    assert ClaimOk(db, c);
    ExpirableOnUnique(db, t, tick, c);
    ExpireRows(db, c);
  }

  /** A subtask without a claim that is over is left alone. */
  lemma ExpireOnKeeps(db: Db, t: Id, tick: int)
    requires Consistent(db)
    requires forall c :: HeldClaim(db.claims, c) && db.claims[c].subtask == t ==> !Over(db, db.claims[c], tick)
    ensures ExpireOn(db, t, tick) == db
  {
    forall c | c in db.claims ensures db.claims[c].owner in db.sessions { assert ClaimOk(db, c); }
    assert ExpirableOn(db, t, tick) == {};
    CloseNothing(db);
  }

  // ------------------------------------------------------------------- claiming

  /** Executors work, reviewers review, orchestrators clean up. */
  predicate RoleFits(role: SessionRole, kind: SubtaskKind) {
    match role
    case Executor => kind == Work
    case Reviewer => kind == Review
    case Orchestrator => kind == Cleanup
    case ApplyGate => false
  }

  /** In the pool, or begun under a lease that has run out. */
  predicate Takeable(db: Db, t: Id, tick: int) {
    && t in db.subtasks
    && match db.subtasks[t].currentClaim
       case None => db.subtasks[t].state == Available
       case Some(c) =>
         db.subtasks[t].state in {Claimed, InProgress} && c in db.claims && db.claims[c].deadline <= tick
  }

  lemma TakeableIff(db: Db, t: Id, tick: int)
    requires Inv(db) && t in db.subtasks
    ensures Takeable(db, t, tick) <==>
            && ExpireOn(db, t, tick).subtasks[t].state == Available && ExpireOn(db, t, tick).subtasks[t].currentClaim.None?
            && forall h :: HeldClaim(ExpireOn(db, t, tick).claims, h) ==> ExpireOn(db, t, tick).claims[h].subtask != t
  {
    assert SubtaskOk(db, t);
    if db.subtasks[t].currentClaim.Some? {
      var c := db.subtasks[t].currentClaim.value;
      assert ClaimOk(db, c) && HolderActive(db, c);
      forall d | HeldClaim(db.claims, d) && db.claims[d].subtask == t ensures d == c { assert ClaimOk(db, d); }
      if db.claims[c].deadline <= tick {
        ExpireOnFrees(db, t, tick, c);
      } else {
        ExpireOnKeeps(db, t, tick);
      }
    } else {
      forall d | HeldClaim(db.claims, d) ensures db.claims[d].subtask != t { assert ClaimOk(db, d); }
      ExpireOnKeeps(db, t, tick);
    }
  }

  /**
   Exactly when a claim is granted: an idle active session of the right role asks, under a new id
   and for a positive time, for a ready subtask that is in the pool or whose lease has run out.
   */
  lemma GrantedIff(db: Db, s: Id, t: Id, c: Id, duration: int, schedulable: bool, deps: bool, wall: int, commits: bool)
    requires Inv(db)
    ensures Acquire(db, s, t, c, duration, schedulable, deps, wall, commits).grant.Some? <==>
            && wall >= 0 && duration > 0 && c !in db.claims && schedulable
            && ActiveSession(db, s) && db.sessions[s].activeSubtask.None? && Takeable(db, t, Handed(db, wall))
            && RoleFits(db.sessions[s].role, db.subtasks[t].kind) && (db.subtasks[t].kind == Work ==> deps)
  {
    var db1 := Advance(db, wall);
    AdvanceInv(db, wall);
    if ActiveSession(db, s) && db.sessions[s].activeSubtask.None? && t in db.subtasks {
      TakeableIff(db1, t, Tick(db1));
      assert Takeable(db1, t, Tick(db1)) <==> Takeable(db, t, Handed(db, wall));
      var db2 := ExpireOn(db1, t, Tick(db1));
      ExpireOnInv(db1, t, Tick(db1));
      SelectInv(db2, s, t, c, duration, schedulable, deps, wall);
      SelectIff(db2, s, t, c, duration, schedulable, deps, wall);
    }
  }

  lemma SelectIff(db: Db, s: Id, t: Id, c: Id, duration: int, schedulable: bool, deps: bool, now: int)
    requires Inv(db) && ActiveSession(db, s) && db.sessions[s].activeSubtask.None? && t in db.subtasks
    ensures Select(db, s, t, c, duration, schedulable, deps, now).Granted? <==>
            && schedulable && RoleFits(db.sessions[s].role, db.subtasks[t].kind) && (db.subtasks[t].kind == Work ==> deps)
            && (forall h :: HeldClaim(db.claims, h) ==> db.claims[h].subtask != t)
            && db.subtasks[t].state == Available && db.subtasks[t].currentClaim.None?
            && c !in db.claims && Tick(db) + duration >= 0
  {
    OnlyAvailableIsClaimed(db.subtasks[t].kind, db.subtasks[t].state);
    assert SubtaskOk(db, t);
  }

  lemma GrantRow(db: Db, s: Id, t: Id, c: Id, duration: int, schedulable: bool, deps: bool, wall: int, commits: bool)
    requires Inv(db) && Acquire(db, s, t, c, duration, schedulable, deps, wall, commits).grant.Some?
    ensures var o := Acquire(db, s, t, c, duration, schedulable, deps, wall, commits);
            && c in o.db.claims && ActiveSession(o.db, s) && Inv(o.db)
            && o.db.claims[c] == Claim(t, s, Issued(db.counters, t) + 1, Handed(db, wall) + duration, Held, wall)
  {
    var db1 := Advance(db, wall);
    AdvanceInv(db, wall);
    var db2 := ExpireOn(db1, t, Tick(db1));
    ExpireOnInv(db1, t, Tick(db1));
    SelectInv(db2, s, t, c, duration, schedulable, deps, wall);
    AcquireInv(db, s, t, c, duration, schedulable, deps, wall, commits);
  }

  /** The new triple has the next fence and is accepted at exactly the ticks before its deadline; a former one never. */
  lemma GrantMeans(db: Db, s: Id, t: Id, c: Id, duration: int, schedulable: bool, deps: bool, wall: int, commits: bool)
    requires Inv(db) && Acquire(db, s, t, c, duration, schedulable, deps, wall, commits).grant.Some?
    ensures var o := Acquire(db, s, t, c, duration, schedulable, deps, wall, commits);
            && o.grant == Some(Grant(t, c, s, Issued(db.counters, t) + 1))
            && forall s', d, f, tick :: Accepted(o.db, t, s', d, f, tick) <==>
                 && s' == s && d == c && f == Issued(db.counters, t) + 1 && tick < Handed(db, wall) + duration
  {
    var o := Acquire(db, s, t, c, duration, schedulable, deps, wall, commits);
    GrantRow(db, s, t, c, duration, schedulable, deps, wall, commits);
    AcquireCounters(db, s, t, c, duration, schedulable, deps, wall, commits);
    AcceptedAlone(o.db, t, c);
  }

  /** A held claim is the only one its subtask accepts, from its owner and before its deadline. */
  lemma AcceptedAlone(db: Db, t: Id, c: Id)
    requires Inv(db) && HeldClaim(db.claims, c) && db.claims[c].subtask == t
    ensures forall s, d, f, tick :: Accepted(db, t, s, d, f, tick) <==>
              s == db.claims[c].owner && d == c && f == db.claims[c].fence && tick < db.claims[c].deadline
  {
    assert ClaimOk(db, c) && HolderActive(db, c);
    forall d | HeldClaim(db.claims, d) && db.claims[d].subtask == t ensures d == c { assert ClaimOk(db, d); }
  }

  /** A renewed triple is accepted at exactly the ticks before the old deadline plus the extension. */
  lemma RenewMeans(db: Db, t: Id, s: Id, c: Id, fence: int, extend: int, wall: int)
    requires Admits(db, t, s, c, fence, wall) && wall >= 0 && extend > 0
    ensures var db' := Exec(db, Renew(s, c, fence, extend, wall)).db;
            && (forall tick :: Accepted(db', t, s, c, fence, tick) <==> tick < db.claims[c].deadline + extend)
            && db' == Advance(db, wall).(claims := db'.claims) && OthersKeep(db, db', c)
  {
  }

  /**
   `claim_next_subtask` keeps its clock advance and the expiry when its candidate turns out to be
   held or not ready; `claim_subtask` then leaves the store as it was.
   */
  lemma NoGrantCommits(db: Db, s: Id, t: Id, c: Id, duration: int, deps: bool, wall: int)
    requires Inv(db) && wall >= 0 && duration > 0 && c !in db.claims
    requires ActiveSession(db, s) && db.sessions[s].activeSubtask.None? && t in db.subtasks
    requires RoleFits(db.sessions[s].role, db.subtasks[t].kind)
    requires !Takeable(db, t, Handed(db, wall)) || (db.subtasks[t].kind == Work && !deps)
    ensures Exec(db, ClaimSubtask(s, t, c, duration, true, deps, wall)) == NoGrant(db)
    ensures Exec(db, ClaimNext(s, t, c, duration, true, deps, wall))
            == NoGrant(ExpireOn(Advance(db, wall), t, Handed(db, wall)))
  {
    var db1 := Advance(db, wall);
    AdvanceInv(db, wall);
    TakeableIff(db1, t, Tick(db1));
    var db2 := ExpireOn(db1, t, Tick(db1));
    ExpireOnInv(db1, t, Tick(db1));
    SelectInv(db2, s, t, c, duration, true, deps, wall);
    SelectIff(db2, s, t, c, duration, true, deps, wall);
  }

  // ------------------------------------------------------------- ending and keeping a claim

  /** The rows of all other claims are what they were. */
  ghost predicate OthersKeep(db: Db, db': Db, c: Id) {
    db'.claims.Keys == db.claims.Keys && forall d :: d in db.claims && d != c ==> db'.claims[d] == db.claims[d]
  }

  /** The claim is closed in the given way, its holder is idle, and no other claim or session has changed. */
  ghost predicate Ends(db: Db, db': Db, s: Id, c: Id, to: ClaimState) {
    && OthersKeep(db, db', c) && c in db'.claims && db'.claims[c].state == to != Held
    && ActiveSession(db', s) && db'.sessions[s].activeSubtask.None?
    && db'.sessions.Keys == db.sessions.Keys
    && forall x :: x in db.sessions && x != s ==> db'.sessions[x] == db.sessions[x]
  }

  /** The subtask has the state and the current claim given, and no other subtask has changed. */
  ghost predicate Leaves(db: Db, db': Db, t: Id, state: SubtaskState, current: Option<Id>) {
    && t in db.subtasks && db'.subtasks == db.subtasks[t := db.subtasks[t].(state := state, currentClaim := current)]
    && db'.counters == db.counters
  }

  lemma ReleaseMeans(db: Db, t: Id, s: Id, c: Id, fence: int, wall: int)
    requires Inv(db) && Admits(db, t, s, c, fence, wall) && wall >= 0
    requires ClaimOk(db, c) && RoleFits(db.sessions[s].role, db.subtasks[t].kind)
    ensures var db', st := Exec(db, Release(s, c, fence, wall)).db, db.subtasks[t].state;
            && Ends(db, db', s, c, Released)
            && Leaves(db, db', t, if st == Claimed || st == InProgress then Available else st, None)
  {
    assert SubtaskOk(db, t);
  }

  /** Released work can be claimed at once, by anyone who may, under the next fence. */
  lemma ReleasedIsTakeable(db: Db, t: Id, s: Id, c: Id, fence: int, wall: int, tick: int)
    requires Inv(db) && Admits(db, t, s, c, fence, wall) && wall >= 0
    requires ClaimOk(db, c) && RoleFits(db.sessions[s].role, db.subtasks[t].kind)
    requires db.subtasks[t].state in {Claimed, InProgress}
    ensures Takeable(Exec(db, Release(s, c, fence, wall)).db, t, tick)
  {
    ReleaseMeans(db, t, s, c, fence, wall);
  }

  lemma StartMeans(db: Db, t: Id, s: Id, c: Id, fence: int, wall: int)
    requires Inv(db) && Admits(db, t, s, c, fence, wall) && wall >= 0
    requires ClaimOk(db, c) && RoleFits(db.sessions[s].role, db.subtasks[t].kind) && db.subtasks[t].state == Claimed
    ensures var db' := Exec(db, Start(s, c, fence, true, wall)).db;
            && Leaves(db, db', t, InProgress, Some(c)) && db'.claims == db.claims && db'.sessions == db.sessions
  {
  }

  lemma AbandonMeans(db: Db, t: Id, s: Id, c: Id, fence: int, wall: int)
    requires Inv(db) && Admits(db, t, s, c, fence, wall) && wall >= 0
    requires ClaimOk(db, c) && RoleFits(db.sessions[s].role, db.subtasks[t].kind)
    ensures var db' := Exec(db, Abandon(s, c, fence, wall)).db;
            if db.subtasks[t].state == Applied then db' == db
            else Ends(db, db', s, c, Released) && Leaves(db, db', t, SubtaskState.Abandoned, None)
  {
    assert SubtaskOk(db, t);
  }

  /** Work that has begun, and no other, can be finished, retried or failed. */
  lemma ConcludeMeans(db: Db, t: Id, s: Id, c: Id, fence: int, to: SubtaskState, wall: int)
    requires Inv(db) && Admits(db, t, s, c, fence, wall) && wall >= 0
    requires ClaimOk(db, c) && RoleFits(db.sessions[s].role, db.subtasks[t].kind)
    requires db.subtasks[t].kind == Work
    ensures var db' := Exec(db, Conclude(s, c, fence, to, true, wall)).db;
            if db.subtasks[t].state == InProgress && (to == Completed || to == Failed || to == Available)
            then Ends(db, db', s, c, Released) && Leaves(db, db', t, to, None) else db' == db
  {
    assert SubtaskOk(db, t);
  }

  lemma PublishMeans(db: Db, t: Id, s: Id, c: Id, fence: int, wall: int)
    requires Inv(db) && Admits(db, t, s, c, fence, wall) && wall >= 0
    requires ClaimOk(db, c) && RoleFits(db.sessions[s].role, db.subtasks[t].kind)
    requires db.subtasks[t].kind == Work && db.subtasks[t].state in {InProgress, ArtifactPublished, ReviewPending}
    ensures var db' := Exec(db, Publish(s, c, fence, true, wall)).db;
            && Leaves(db, db', t, ArtifactPublished, Some(c)) && db'.claims == db.claims && db'.sessions == db.sessions
  {
  }

  /** Work waits for its review, which is a new subtask in the pool whose first fence will be 1. */
  lemma RequestReviewMeans(db: Db, t: Id, review: Id, wall: int)
    requires wall >= 0 && t in db.subtasks && db.subtasks[t].kind == Work && db.subtasks[t].state == ArtifactPublished
    requires review !in db.subtasks && review !in db.counters
    ensures var db' := Exec(db, RequestReview(t, review, true, wall)).db;
            && db'.claims == db.claims && db'.sessions == db.sessions && Issued(db'.counters, review) == 0
            && db'.subtasks == db.subtasks[t := db.subtasks[t].(state := ReviewPending)][
                 review := Subtask(db.subtasks[t].metaTask, Review, Available, None)]
            && forall x :: x != review ==> Issued(db'.counters, x) == Issued(db.counters, x)
  {
  }

  /** What a decision leaves of the work's own claim: completed work has none, other verdicts keep it. */
  ghost predicate WorkClaim(db: Db, db': Db, t: Id, to: SubtaskState)
    requires t in db.subtasks && t in db'.subtasks
  {
    match db.subtasks[t].currentClaim
    case None => db'.subtasks[t].currentClaim.None?
    case Some(d) =>
      && d in db.claims && d in db'.claims && db.claims[d].owner in db.sessions && db.claims[d].owner in db'.sessions
      && if to == Completed
         then && db'.subtasks[t].currentClaim.None? && db'.claims[d] == db.claims[d].(state := Released)
              && db'.sessions[db.claims[d].owner].activeSubtask.None?
         else db'.subtasks[t].currentClaim == Some(d) && db'.claims[d] == db.claims[d]
  }

  /** A review in progress, decided by its holder, and work that waits for it. */
  ghost predicate Decidable(db: Db, r: Id, s: Id, c: Id, fence: int, t: Id, wall: int) {
    && Inv(db) && Admits(db, r, s, c, fence, wall) && wall >= 0
    && ClaimOk(db, c) && db.sessions[s].role == Reviewer && db.subtasks[r].kind == Review
    && db.subtasks[r].state == InProgress
    && t in db.subtasks && db.subtasks[t].kind == Work && db.subtasks[t].state == ReviewPending
  }

  lemma DecideAdmitted(db: Db, r: Id, s: Id, c: Id, fence: int, t: Id, to: SubtaskState, wall: int)
    requires Decidable(db, r, s, c, fence, t, wall)
    requires to in {Completed, Approved, SubtaskState.Applied, ChangesRequested, Blocked}
    ensures var db1 := Advance(db, wall);
            && s in db1.sessions && c in db1.claims && r in db1.subtasks && db1.claims[c].subtask == r
            && var db2 := FinishRows(db1, s, c, Decided);
               && Inv(db2) && t in db2.subtasks && VerdictReady(db2, t, to)
               && Exec(db, Decide(s, c, fence, t, to, true, wall)).db == VerdictRows(db2, t, to)
  {
    var db1 := Advance(db, wall);
    AdvanceInv(db, wall);
    FinishRowsInv(db1, s, c, Decided);
    VerdictInv(FinishRows(db1, s, c, Decided), t, to);
  }

  /** The review is decided and its claim released, with its holder idle. */
  lemma DecideEndsReview(db: Db, r: Id, s: Id, c: Id, fence: int, t: Id, to: SubtaskState, wall: int)
    requires Decidable(db, r, s, c, fence, t, wall)
    requires to in {Completed, Approved, SubtaskState.Applied, ChangesRequested, Blocked}
    ensures var db' := Exec(db, Decide(s, c, fence, t, to, true, wall)).db;
            && r in db'.subtasks && s in db'.sessions && c in db'.claims
            && db'.subtasks[r] == db.subtasks[r].(state := Decided, currentClaim := None)
            && db'.claims[c] == db.claims[c].(state := Released) && db'.sessions[s].activeSubtask.None?
  {
    DecideAdmitted(db, r, s, c, fence, t, to, wall);
    assert SubtaskOk(db, t);
  }

  /** The work has the verdict, and no other subtask has changed. */
  lemma DecideMeans(db: Db, r: Id, s: Id, c: Id, fence: int, t: Id, to: SubtaskState, wall: int)
    requires Decidable(db, r, s, c, fence, t, wall)
    requires to in {Completed, Approved, SubtaskState.Applied, ChangesRequested, Blocked}
    ensures var db' := Exec(db, Decide(s, c, fence, t, to, true, wall)).db;
            && t in db'.subtasks && db'.subtasks[t].state == to && WorkClaim(db, db', t, to)
            && forall x :: x in db.subtasks && x != t && x != r ==> x in db'.subtasks && db'.subtasks[x] == db.subtasks[x]
  {
    DecideAdmitted(db, r, s, c, fence, t, to, wall);
    assert SubtaskOk(db, t);
    if db.subtasks[t].currentClaim.Some? { assert ClaimOk(db, db.subtasks[t].currentClaim.value); }
  }

  // ----------------------------------------------------------- leaving, reaping and cancelling

  /** The session is gone with all it held; what others hold is untouched. */
  lemma ExitMeans(db: Db, s: Id, wall: int)
    requires Inv(db) && wall >= 0 && s in db.sessions && db.sessions[s].state != Exited
    ensures var db' := Exec(db, Exit(s, wall)).db;
            && s in db'.sessions && db'.sessions[s].state == Exited && db'.sessions[s].activeSubtask.None?
            && db'.claims.Keys == db.claims.Keys
            && (forall c :: c in db.claims ==>
                  db'.claims[c] == if db.claims[c].state == Held && db.claims[c].owner == s
                                   then db.claims[c].(state := Expired) else db.claims[c])
            && forall x :: x in db.sessions && x != s ==> x in db'.sessions && db'.sessions[x] == db.sessions[x]
  {
  }

  /** The active sessions not heard of for the threshold are stale. */
  lemma ReapMeans(db: Db, threshold: int, wall: int)
    requires wall >= 0
    ensures var db' := Exec(db, Reap(threshold, wall)).db;
            && db'.sessions.Keys == db.sessions.Keys
            && forall s :: s in db.sessions ==>
                 db'.sessions[s].state == if db.sessions[s].state == Active
                                             && db.sessions[s].lastHeartbeatTick + threshold <= Handed(db, wall)
                                          then Stale else db.sessions[s].state
  {
  }

  /** And no claim that is over is left, theirs included. */
  lemma ReapSweeps(db: Db, threshold: int, wall: int)
    requires Inv(db) && wall >= 0
    ensures var db' := Exec(db, Reap(threshold, wall)).db;
            forall c :: HeldClaim(db'.claims, c) ==>
              db'.claims[c].deadline > Handed(db, wall) && ActiveSession(db', db'.claims[c].owner)
  {
    forall c | c in db.claims ensures db.claims[c].owner in db.sessions { assert ClaimOk(db, c); }
  }

  /** A session that registers, or is heard of, is active and not stale before the threshold has passed since. */
  lemma HeardMeans(db: Db, s: Id, role: SessionRole, wall: int, threshold: int, later: int)
    requires Inv(db) && wall >= 0 && later >= 0
    ensures s !in db.sessions ==>
              var db' := Exec(db, Register(s, role, wall)).db;
              && ActiveSession(db', s) && db'.sessions[s].role == role && db'.sessions[s].activeSubtask.None?
              && (ActiveSession(Exec(db', Reap(threshold, later)).db, s) <==>
                    Handed(db', later) < Handed(db, wall) + threshold)
    ensures ActiveSession(db, s) ==>
              var db' := Exec(db, Heartbeat(s, wall)).db;
              ActiveSession(Exec(db', Reap(threshold, later)).db, s) <==> Handed(db', later) < Handed(db, wall) + threshold
  {
    StepInv(db, Register(s, role, wall));
    StepInv(db, Heartbeat(s, wall));
    ReapMeans(Exec(db, Register(s, role, wall)).db, threshold, later);
    ReapMeans(Exec(db, Heartbeat(s, wall)).db, threshold, later);
  }

  /** Approved work is made ready and then applied, and abandoned work comes back to the pool. */
  lemma SettleMeans(db: Db, t: Id, wall: int)
    requires Inv(db) && wall >= 0 && t in db.subtasks && db.subtasks[t].kind == Work
    ensures var current := db.subtasks[t].currentClaim;
            && (db.subtasks[t].state == Approved ==>
                  Leaves(db, Exec(db, Settle(t, ReadyForApply, wall)).db, t, ReadyForApply, current))
            && (db.subtasks[t].state == ReadyForApply ==>
                  Leaves(db, Exec(db, Settle(t, SubtaskState.Applied, wall)).db, t, SubtaskState.Applied, current))
            && (db.subtasks[t].state == SubtaskState.Abandoned ==>
                  Takeable(Exec(db, Revive(t, wall)).db, t, Tick(db)))
  {
    assert SubtaskOk(db, t);
  }

  /** Every subtask of the meta-task ends without a claim, abandoned unless it was terminal; other meta-tasks keep theirs. */
  lemma CancelMeans(db: Db, metaTask: Id, wall: int)
    requires Inv(db) && wall >= 0
    ensures var db' := Exec(db, CancelMetaTask(metaTask, wall)).db;
            && db'.subtasks.Keys == db.subtasks.Keys
            && forall t :: t in db.subtasks ==>
                 if db.subtasks[t].metaTask != metaTask then db'.subtasks[t] == db.subtasks[t]
                 else && db'.subtasks[t].currentClaim.None?
                      && db'.subtasks[t].state == if Finished(db.subtasks[t].state) then db.subtasks[t].state
                                                  else SubtaskState.Abandoned
  {
    forall t | t in db.subtasks && db.subtasks[t].metaTask != metaTask && db.subtasks[t].currentClaim.Some?
      ensures db.subtasks[t].currentClaim.value !in HeldOfMetaTask(db, metaTask)
    {
      assert SubtaskOk(db, t);
    }
  }

  predicate Finished(s: SubtaskState) {
    s == Applied || s == Completed || s == Failed || s == SubtaskState.Abandoned || s == Decided
  }

  /** It revokes exactly the claims held on those subtasks. */
  lemma CancelRevokes(db: Db, metaTask: Id, wall: int, c: Id)
    requires Inv(db) && wall >= 0 && c in db.claims && ClaimOk(db, c)
    ensures var db' := Exec(db, CancelMetaTask(metaTask, wall)).db;
            c in db'.claims
            && db'.claims[c] == if db.claims[c].state == Held && db.subtasks[db.claims[c].subtask].metaTask == metaTask
                                then db.claims[c].(state := Revoked) else db.claims[c]
  {
  }
}
