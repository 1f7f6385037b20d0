/** What every run of the claim protocol keeps: claims, subtasks, sessions and counters agree. */
module ClaimInvariants {
  import opened Text
  import opened Lifecycle
  import opened Claims

  // -------------------------------------------------------------- invariants

  /**
   A claim refers to rows that exist and has an issued fence. If it is held, its
   fence is the latest, its subtask names it as current and its owner is working
   on that subtask.
   */
  ghost predicate ClaimOk(db: Db, c: Id) {
    c in db.claims &&
    var claim := db.claims[c];
    && claim.subtask in db.subtasks && claim.owner in db.sessions
    && 1 <= claim.fence <= Issued(db.counters, claim.subtask)
    && (claim.state == Held ==>
          && claim.fence == Issued(db.counters, claim.subtask)
          && db.subtasks[claim.subtask].currentClaim == Some(c)
          && db.sessions[claim.owner].activeSubtask == Some(claim.subtask))
  }

  /** The current claim of a subtask is held and is its own; the state says whether there is one. */
  ghost predicate SubtaskOk(db: Db, t: Id) {
    t in db.subtasks &&
    var st := db.subtasks[t];
    && (Unclaimed(st.state) ==> st.currentClaim.None?)
    && (st.state in {Claimed, InProgress} ==> st.currentClaim.Some?)
    && (st.currentClaim.Some? ==>
          HeldClaim(db.claims, st.currentClaim.value) && db.claims[st.currentClaim.value].subtask == t)
  }

  /** A session works only on a subtask whose current claim it owns. */
  ghost predicate SessionOk(db: Db, s: Id) {
    s in db.sessions &&
    var active := db.sessions[s].activeSubtask;
    active.Some? ==>
      && active.value in db.subtasks && db.subtasks[active.value].currentClaim.Some?
      && HeldClaim(db.claims, db.subtasks[active.value].currentClaim.value)
      && db.claims[db.subtasks[active.value].currentClaim.value].owner == s
  }

  /** Two claims of one subtask have different fences. */
  ghost predicate DistinctFences(db: Db, c: Id, d: Id) {
    c in db.claims && d in db.claims && c != d && db.claims[c].subtask == db.claims[d].subtask
    ==> db.claims[c].fence != db.claims[d].fence
  }

  /** A held claim belongs to an active session. */
  ghost predicate HolderActive(db: Db, c: Id) { HeldClaim(db.claims, c) ==> ActiveSession(db, db.claims[c].owner) }

  ghost predicate Consistent(db: Db) {
    && (forall c {:trigger ClaimOk(db, c)} :: c in db.claims ==> ClaimOk(db, c))
    && (forall t {:trigger SubtaskOk(db, t)} :: t in db.subtasks ==> SubtaskOk(db, t))
    && (forall s {:trigger SessionOk(db, s)} :: s in db.sessions ==> SessionOk(db, s))
    && (forall c, d {:trigger DistinctFences(db, c, d)} :: DistinctFences(db, c, d))
    && (forall t :: t in db.counters ==> db.counters[t] >= 1)
  }

  ghost predicate Inv(db: Db) {
    Consistent(db) && forall c {:trigger HolderActive(db, c)} :: HolderActive(db, c)
  }

  // ------------------------------------------------------- closing keeps them

  ghost predicate AllHeld(claims: map<Id, Claim>, cs: set<Id>) { forall c :: c in cs ==> HeldClaim(claims, c) }

  lemma CloseAllClaimOk(db: Db, cs: set<Id>, to: ClaimState, c: Id)
    requires Consistent(db) && AllHeld(db.claims, cs) && to != Held && c in db.claims
    ensures ClaimOk(CloseAll(db, cs, to), c)
  {
    assert ClaimOk(db, c);
    var t := db.claims[c].subtask;
    forall d | d in cs && db.claims[c].state == Held && db.claims[d].subtask == t ensures d == c {
      assert ClaimOk(db, d);
    }
  }

  lemma CloseAllSubtaskOk(db: Db, cs: set<Id>, to: ClaimState, t: Id)
    requires Consistent(db) && to != Held && t in db.subtasks
    ensures SubtaskOk(CloseAll(db, cs, to), t)
  {
    assert SubtaskOk(db, t);
  }

  lemma CloseAllSessionOk(db: Db, cs: set<Id>, to: ClaimState, s: Id)
    requires Consistent(db) && to != Held && s in db.sessions
    ensures SessionOk(CloseAll(db, cs, to), s)
  {
    assert SessionOk(db, s);
    var active := db.sessions[s].activeSubtask;
    if active.Some? {
      var c := db.subtasks[active.value].currentClaim.value;
      assert SubtaskOk(db, active.value);
      assert c in cs ==> DetachesSession(db.claims, cs, s, db.sessions[s]);
    }
  }

  lemma CloseAllConsistent(db: Db, cs: set<Id>, to: ClaimState)
    requires Consistent(db) && AllHeld(db.claims, cs) && to != Held
    ensures Consistent(CloseAll(db, cs, to))
  {
    var db' := CloseAll(db, cs, to);
    forall c | c in db'.claims ensures ClaimOk(db', c) { CloseAllClaimOk(db, cs, to, c); }
    forall t | t in db'.subtasks ensures SubtaskOk(db', t) { CloseAllSubtaskOk(db, cs, to, t); }
    forall s | s in db'.sessions ensures SessionOk(db', s) { CloseAllSessionOk(db, cs, to, s); }
    CloseAllDistinct(db, cs, to);
  }

  lemma CloseAllDistinct(db: Db, cs: set<Id>, to: ClaimState)
    requires forall c, d {:trigger DistinctFences(db, c, d)} :: DistinctFences(db, c, d)
    ensures var db' := CloseAll(db, cs, to); forall c, d {:trigger DistinctFences(db', c, d)} :: DistinctFences(db', c, d)
  {
    var db' := CloseAll(db, cs, to);
    forall c, d ensures DistinctFences(db', c, d) { assert DistinctFences(db, c, d); }
  }

  lemma CloseAllInv(db: Db, cs: set<Id>, to: ClaimState)
    requires Inv(db) && AllHeld(db.claims, cs) && to != Held
    ensures Inv(CloseAll(db, cs, to))
  {
    CloseAllConsistent(db, cs, to);
    forall c ensures HolderActive(CloseAll(db, cs, to), c) { assert HolderActive(db, c); }
  }

  lemma ExpireOnInv(db: Db, t: Id, tick: int)
    requires Inv(db)
    ensures Inv(ExpireOn(db, t, tick))
  {
    CloseAllInv(db, ExpirableOn(db, t, tick), Expired);
  }

  // ---------------------------------------------------------------- clock

  /** The invariant does not mention the clock. */
  lemma AdvanceInv(db: Db, wall: int)
    requires Inv(db)
    ensures Inv(Advance(db, wall)) && Tick(Advance(db, wall)) >= Tick(db)
  {
    var db' := Advance(db, wall);
    forall c | c in db'.claims ensures ClaimOk(db', c) { assert ClaimOk(db, c); }
    forall t | t in db'.subtasks ensures SubtaskOk(db', t) { assert SubtaskOk(db, t); }
    forall s | s in db'.sessions ensures SessionOk(db', s) { assert SessionOk(db, s); }
    forall c, d ensures DistinctFences(db', c, d) { assert DistinctFences(db, c, d); }
    forall c ensures HolderActive(db', c) { assert HolderActive(db, c); }
  }

  // --------------------------------------------------------------- granting

  /** A subtask nobody holds, a claim id nobody has used and an idle active session. */
  ghost predicate CanGrant(db: Db, s: Id, t: Id, c: Id) {
    && t in db.subtasks && db.subtasks[t].currentClaim.None? && c !in db.claims
    && ActiveSession(db, s) && db.sessions[s].activeSubtask.None?
  }

  lemma GrantClaimOk(db: Db, s: Id, t: Id, c: Id, deadline: int, now: int, d: Id)
    requires Inv(db) && CanGrant(db, s, t, c) && (d in db.claims || d == c)
    ensures ClaimOk(GrantRows(db, s, t, c, deadline, now), d)
  {
    if d != c { assert ClaimOk(db, d); }
  }

  lemma GrantDistinct(db: Db, s: Id, t: Id, c: Id, deadline: int, now: int, d: Id, e: Id)
    requires Inv(db) && CanGrant(db, s, t, c)
    ensures DistinctFences(GrantRows(db, s, t, c, deadline, now), d, e)
  {
    assert DistinctFences(db, d, e);
    if d in db.claims { assert ClaimOk(db, d); }
    if e in db.claims { assert ClaimOk(db, e); }
  }

  lemma GrantInv(db: Db, s: Id, t: Id, c: Id, deadline: int, now: int)
    requires Inv(db) && CanGrant(db, s, t, c)
    ensures Inv(GrantRows(db, s, t, c, deadline, now))
  {
    var db' := GrantRows(db, s, t, c, deadline, now);
    forall d | d in db'.claims ensures ClaimOk(db', d) { GrantClaimOk(db, s, t, c, deadline, now, d); }
    forall x | x in db'.subtasks ensures SubtaskOk(db', x) { assert SubtaskOk(db, x); }
    forall x | x in db'.sessions ensures SessionOk(db', x) { assert SessionOk(db, x); }
    forall d, e ensures DistinctFences(db', d, e) { GrantDistinct(db, s, t, c, deadline, now, d, e); }
    forall d ensures HolderActive(db', d) { assert HolderActive(db, d); }
  }

  /** In a consistent store the late failures of the claim statements cannot happen. */
  lemma SelectInv(db: Db, s: Id, t: Id, c: Id, duration: int, schedulable: bool, deps: bool, now: int)
    requires Inv(db) && ActiveSession(db, s) && db.sessions[s].activeSubtask.None?
    ensures match Select(db, s, t, c, duration, schedulable, deps, now)
            case Granted(db', fence, deadline) =>
              && CanGrant(db, s, t, c) && db' == GrantRows(db, s, t, c, deadline, now)
              && fence == Issued(db.counters, t) + 1 && deadline == Tick(db) + duration
            case AlreadyClaimed(partial) => partial == db
            case IllegalTransition(partial) => partial == db
            case Refused => true
  {
    if t in db.subtasks && SubtaskTransition(db.subtasks[t].kind, db.subtasks[t].state, Claimed) {
      OnlyAvailableIsClaimed(db.subtasks[t].kind, db.subtasks[t].state);
      assert SubtaskOk(db, t);
    }
  }

  lemma AcquireInv(db: Db, s: Id, t: Id, c: Id, duration: int, schedulable: bool, deps: bool, wall: int, commits: bool)
    requires Inv(db)
    ensures Inv(Acquire(db, s, t, c, duration, schedulable, deps, wall, commits).db)
  {
    var db1 := Advance(db, wall);
    AdvanceInv(db, wall);
    var db2 := ExpireOn(db1, t, Tick(db1));
    ExpireOnInv(db1, t, Tick(db1));
    if ActiveSession(db1, s) && db1.sessions[s].activeSubtask.None? {
      SelectInv(db2, s, t, c, duration, schedulable, deps, wall);
      var r := Select(db2, s, t, c, duration, schedulable, deps, wall);
      if r.Granted? { GrantInv(db2, s, t, c, r.deadline, wall); }
    }
  }

  // -------------------------------------------------------- guarded closing

  /** Releasing one claim is closing the set that holds just it. */
  lemma ReleaseIsClose(db: Db, s: Id, c: Id)
    requires Inv(db) && HeldClaim(db.claims, c) && db.claims[c].owner == s
    ensures ClaimOk(db, c)
    ensures var t := db.claims[c].subtask;
            var db' := CloseAll(db, {c}, Released);
            && db'.claims == db.claims[c := db.claims[c].(state := Released)]
            && db'.subtasks == db.subtasks[t := Detached(db.subtasks[t])]
            && db'.sessions == db.sessions[s := db.sessions[s].(activeSubtask := None)]
  {
    var t := db.claims[c].subtask;
    assert ClaimOk(db, c);
    assert DetachesSession(db.claims, {c}, s, db.sessions[s]);
    forall x | x in db.subtasks && x != t ensures db.subtasks[x].currentClaim != Some(c) {
      assert SubtaskOk(db, x);
    }
  }

  lemma ReleaseInv(db: Db, s: Id, c: Id, fence: int, wall: int)
    requires Inv(db)
    ensures Inv(ReleaseStep(db, s, c, fence, wall))
  {
    var db1 := Advance(db, wall);
    AdvanceInv(db, wall);
    if RequireCurrentClaim(db1, s, c, fence, Tick(db1)).Current? {
      ReleaseIsClose(db1, s, c);
      CloseAllInv(db1, {c}, Released);
    }
  }

  /** Subtask states may change as long as the claim columns do not and the two still agree. */
  lemma RestateInv(db: Db, db': Db)
    requires Inv(db) && db' == db.(subtasks := db'.subtasks) && db'.subtasks.Keys == db.subtasks.Keys
    requires forall x :: x in db.subtasks ==>
               && db'.subtasks[x].currentClaim == db.subtasks[x].currentClaim
               && (Unclaimed(db'.subtasks[x].state) ==> db.subtasks[x].currentClaim.None?)
               && (db'.subtasks[x].state in {Claimed, InProgress} ==> db.subtasks[x].currentClaim.Some?)
    ensures Inv(db')
  {
    forall c | c in db'.claims ensures ClaimOk(db', c) { assert ClaimOk(db, c); }
    forall t | t in db'.subtasks ensures SubtaskOk(db', t) { assert SubtaskOk(db, t); }
    forall s | s in db'.sessions ensures SessionOk(db', s) { assert SessionOk(db, s); }
    forall c, d ensures DistinctFences(db', c, d) { assert DistinctFences(db, c, d); }
    forall c ensures HolderActive(db', c) { assert HolderActive(db, c); }
  }

  /** Changing one subtask's state, within what its claim column allows. */
  lemma WithStateInv(db: Db, t: Id, to: SubtaskState)
    requires Inv(db) && t in db.subtasks
    requires Unclaimed(to) ==> db.subtasks[t].currentClaim.None?
    requires to in {Claimed, InProgress} ==> db.subtasks[t].currentClaim.Some?
    ensures Inv(WithState(db, t, to))
  {
    forall x | x in db.subtasks
      ensures && (Unclaimed(db.subtasks[x].state) ==> db.subtasks[x].currentClaim.None?)
              && (db.subtasks[x].state in {Claimed, InProgress} ==> db.subtasks[x].currentClaim.Some?)
    {
      assert SubtaskOk(db, x);
    }
    RestateInv(db, WithState(db, t, to));
  }

  lemma FinishRowsInv(db: Db, s: Id, c: Id, to: SubtaskState)
    requires Inv(db) && HeldClaim(db.claims, c) && db.claims[c].owner == s && db.claims[c].subtask in db.subtasks
             && s in db.sessions && to !in {Claimed, InProgress}
    ensures Inv(FinishRows(db, s, c, to))
  {
    var db1, t := CloseAll(db, {c}, Released), db.claims[c].subtask;
    ReleaseIsClose(db, s, c);
    CloseAllInv(db, {c}, Released);
    assert WithState(db1, t, to) == FinishRows(db, s, c, to);
    WithStateInv(db1, t, to);
  }

  lemma ConcludeInv(db: Db, s: Id, c: Id, fence: int, to: SubtaskState, allowed: bool, wall: int)
    requires Inv(db)
    ensures Inv(ConcludeStep(db, s, c, fence, to, allowed, wall))
  {
    var db1 := Advance(db, wall);
    AdvanceInv(db, wall);
    if RequireCurrentClaim(db1, s, c, fence, Tick(db1)).Current? {
      assert ClaimOk(db1, c);
      if ConcludeStep(db, s, c, fence, to, allowed, wall) != db { FinishRowsInv(db1, s, c, to); }
    }
  }

  lemma PublishInv(db: Db, s: Id, c: Id, fence: int, allowed: bool, wall: int)
    requires Inv(db)
    ensures Inv(PublishStep(db, s, c, fence, allowed, wall))
  {
    var db1 := Advance(db, wall);
    AdvanceInv(db, wall);
    if RequireCurrentClaim(db1, s, c, fence, Tick(db1)).Current? {
      assert ClaimOk(db1, c);
      WithStateInv(db1, db1.claims[c].subtask, ArtifactPublished);
    }
  }

  lemma VerdictInv(db: Db, t: Id, to: SubtaskState)
    requires Inv(db) && t in db.subtasks && !(Unclaimed(to) && to != Completed) && to !in {Claimed, InProgress}
    ensures VerdictReady(db, t, to) && Inv(VerdictRows(db, t, to))
  {
    assert SubtaskOk(db, t);
    if to != Completed || db.subtasks[t].currentClaim.None? {
      WithStateInv(db, t, to);
    } else {
      var d := db.subtasks[t].currentClaim.value;
      assert ClaimOk(db, d);
      FinishRowsInv(db, db.claims[d].owner, d, Completed);
    }
  }

  lemma DecideInv(db: Db, s: Id, c: Id, fence: int, t: Id, to: SubtaskState, allowed: bool, wall: int)
    requires Inv(db)
    ensures Inv(DecideStep(db, s, c, fence, t, to, allowed, wall))
  {
    var db1 := Advance(db, wall);
    AdvanceInv(db, wall);
    if RequireCurrentClaim(db1, s, c, fence, Tick(db1)).Current? {
      assert ClaimOk(db1, c);
      if DecideStep(db, s, c, fence, t, to, allowed, wall) != db {
        FinishRowsInv(db1, s, c, Decided);
        VerdictInv(FinishRows(db1, s, c, Decided), t, to);
      }
    }
  }

  lemma RequestReviewInv(db: Db, t: Id, review: Id, allowed: bool, wall: int)
    requires Inv(db)
    ensures Inv(RequestReviewStep(db, t, review, allowed, wall))
  {
    if RequestReviewStep(db, t, review, allowed, wall) != db {
      var db1 := WithState(db, t, ReviewPending);
      WithStateInv(db, t, ReviewPending);
      assert RequestReviewStep(db, t, review, allowed, wall)
          == Exec(db1, Create(review, db.subtasks[t].metaTask, Review, true)).db;
      CreateInv(db1, review, db.subtasks[t].metaTask, Review, true);
    }
  }

  lemma SettleInv(db: Db, t: Id, to: SubtaskState, wall: int)
    requires Inv(db)
    ensures Inv(SettleStep(db, t, to, wall)) && Inv(ReviveStep(db, t, wall))
  {
    if SettleStep(db, t, to, wall) != db { WithStateInv(db, t, to); }
    if ReviveStep(db, t, wall) != db { WithStateInv(db, t, Available); }
  }

  lemma AbandonInv(db: Db, s: Id, c: Id, fence: int, wall: int)
    requires Inv(db)
    ensures Inv(AbandonStep(db, s, c, fence, wall))
  {
    var db1 := Advance(db, wall);
    AdvanceInv(db, wall);
    if RequireCurrentClaim(db1, s, c, fence, Tick(db1)).Current? {
      assert ClaimOk(db1, c);
      FinishRowsInv(db1, s, c, SubtaskState.Abandoned);
    }
  }

  lemma StartInv(db: Db, s: Id, c: Id, fence: int, schedulable: bool, wall: int)
    requires Inv(db)
    ensures Inv(StartStep(db, s, c, fence, schedulable, wall))
  {
    var db1 := Advance(db, wall);
    AdvanceInv(db, wall);
    var db2 := StartStep(db, s, c, fence, schedulable, wall);
    if RequireCurrentClaim(db1, s, c, fence, Tick(db1)).Current? && db2 != db {
      assert ClaimOk(db1, c);
      WithStateInv(db1, db1.claims[c].subtask, InProgress);
    }
  }

  /** The invariant does not mention deadlines. */
  lemma RenewInv(db: Db, s: Id, c: Id, fence: int, extend: int, wall: int)
    requires Inv(db)
    ensures Inv(RenewStep(db, s, c, fence, extend, wall))
  {
    var db1 := Advance(db, wall);
    AdvanceInv(db, wall);
    var db' := RenewStep(db, s, c, fence, extend, wall);
    if RequireCurrentClaim(db1, s, c, fence, Tick(db1)).Current? && db' != db {
      forall x | x in db'.claims ensures ClaimOk(db', x) { assert ClaimOk(db1, x); }
      forall t | t in db'.subtasks ensures SubtaskOk(db', t) { assert SubtaskOk(db1, t); }
      forall x | x in db'.sessions ensures SessionOk(db', x) { assert SessionOk(db1, x); }
      forall x, y ensures DistinctFences(db', x, y) { assert DistinctFences(db1, x, y); }
      forall x ensures HolderActive(db', x) { assert HolderActive(db1, x); }
    }
  }

  // ------------------------------------------------------------- sessions

  /** Sessions may be added idle, and change state when they hold nothing. */
  lemma SessionsInv(db: Db, db': Db)
    requires Inv(db) && db' == db.(sessions := db'.sessions) && db.sessions.Keys <= db'.sessions.Keys
    requires forall x :: x in db'.sessions ==>
               db'.sessions[x].activeSubtask == if x in db.sessions then db.sessions[x].activeSubtask else None
    requires forall x :: x in db.sessions && HeldBy(db, x) != {} ==> db'.sessions[x].state == db.sessions[x].state
    ensures Inv(db')
  {
    forall c | c in db'.claims ensures ClaimOk(db', c) { assert ClaimOk(db, c); }
    forall t | t in db'.subtasks ensures SubtaskOk(db', t) { assert SubtaskOk(db, t); }
    forall s | s in db'.sessions ensures SessionOk(db', s) { if s in db.sessions { assert SessionOk(db, s); } }
    forall c, d ensures DistinctFences(db', c, d) { assert DistinctFences(db, c, d); }
    forall c ensures HolderActive(db', c) {
      assert HolderActive(db, c);
      if HeldClaim(db.claims, c) { assert c in HeldBy(db, db.claims[c].owner); }
    }
  }

  lemma SessionStepInv(db: Db, step: Step)
    requires Inv(db) && (step.Register? || step.Heartbeat?)
    ensures Inv(Exec(db, step).db)
  {
    AdvanceInv(db, step.wall);
    var db' := Exec(db, step).db;
    if db' != db { SessionsInv(Advance(db, step.wall), db'); }
  }

  /** Exiting closes what the session holds and then retires it. */
  lemma ExitIsClose(db: Db, s: Id, wall: int)
    requires Inv(db) && s in db.sessions && db.sessions[s].state != Exited && wall >= 0
    ensures var db1 := CloseAll(db, HeldBy(db, s), Expired);
            ExitStep(db, s, wall) ==
            db1.(sessions := db1.sessions[s := db1.sessions[s].(state := Exited, activeSubtask := None)])
  {
    var db0 := db.(sessions := db.sessions[s := db.sessions[s].(state := Exited, activeSubtask := None)]);
    var cs := HeldBy(db, s);
    assert HeldBy(db0, s) == cs;
    var a, b := DetachSessions(db0.sessions, db.claims, cs), DetachSessions(db.sessions, db.claims, cs);
    forall x | x in db.sessions && x != s ensures a[x] == b[x] {
      assert !DetachesSession(db.claims, cs, x, db.sessions[x]);
    }
    assert a == b[s := b[s].(state := Exited, activeSubtask := None)];
  }

  lemma IdleWhenNothingHeld(db: Db, s: Id)
    requires Inv(db) && s in db.sessions && HeldBy(db, s) == {}
    ensures db.sessions[s].activeSubtask.None?
  {
    assert SessionOk(db, s);
    forall c | HeldClaim(db.claims, c) ensures db.claims[c].owner != s { assert c !in HeldBy(db, s); }
  }

  lemma ExitInv(db: Db, s: Id, wall: int)
    requires Inv(db)
    ensures Inv(ExitStep(db, s, wall))
  {
    if wall >= 0 && s in db.sessions && db.sessions[s].state != Exited {
      var cs := HeldBy(db, s);
      var db1 := CloseAll(db, cs, Expired);
      ExitIsClose(db, s, wall);
      CloseAllInv(db, cs, Expired);
      assert HeldBy(db1, s) == {};
      IdleWhenNothingHeld(db1, s);
      SessionsInv(db1, ExitStep(db, s, wall));
    }
  }

  // ---------------------------------------------------------------- sweeps

  /** After the sweep nothing held is stale, whatever the sessions' states were. */
  lemma ExpireOldInv(db: Db, tick: int)
    requires Consistent(db)
    ensures Inv(ExpireOld(db, tick))
    ensures AllExpirable(ExpireOld(db, tick), tick) == {}
  {
    var cs := AllExpirable(db, tick);
    var db' := ExpireOld(db, tick);
    CloseAllConsistent(db, cs, Expired);
    forall c | HeldClaim(db'.claims, c) ensures HolderActive(db', c) && !Expirable(db', c, tick) {
      assert ClaimOk(db, c);
      assert c !in cs;
    }
  }

  lemma MarkStaleConsistent(db: Db, before: int)
    requires Consistent(db)
    ensures Consistent(MarkStale(db, before))
  {
    var db' := MarkStale(db, before);
    forall c | c in db'.claims ensures ClaimOk(db', c) { assert ClaimOk(db, c); }
    forall t | t in db'.subtasks ensures SubtaskOk(db', t) { assert SubtaskOk(db, t); }
    forall s | s in db'.sessions ensures SessionOk(db', s) { assert SessionOk(db, s); }
    forall c, d ensures DistinctFences(db', c, d) { assert DistinctFences(db, c, d); }
  }

  lemma ReapInv(db: Db, threshold: int, wall: int)
    requires Inv(db)
    ensures Inv(ReapStep(db, threshold, wall))
  {
    var db1 := Advance(db, wall);
    AdvanceInv(db, wall);
    SweepStaleInv(db1, Tick(db1) - threshold, Tick(db1));
  }

  lemma SweepStaleInv(db: Db, before: int, tick: int)
    requires Consistent(db)
    ensures Inv(SweepStale(db, before, tick))
  {
    MarkStaleConsistent(db, before);
    ExpireOldInv(MarkStale(db, before), tick);
  }

  lemma ExpireOldStepInv(db: Db, wall: int)
    requires Inv(db)
    ensures Inv(ExpireOldStep(db, wall))
  {
    AdvanceInv(db, wall);
    ExpireOldInv(Advance(db, wall), Tick(Advance(db, wall)));
  }

  // ----------------------------------------------------- cancel and create

  lemma CancelSubtasksInv(db: Db, metaTask: Id)
    requires Inv(db)
    requires forall t :: t in db.subtasks && db.subtasks[t].metaTask == metaTask ==> db.subtasks[t].currentClaim.None?
    ensures Inv(db.(subtasks := CancelSubtasks(db.subtasks, metaTask)))
  {
    forall t | t in db.subtasks ensures SubtaskOk(db, t) {}
    RestateInv(db, db.(subtasks := CancelSubtasks(db.subtasks, metaTask)));
  }

  /** Once a meta-task's claims are closed, its subtasks are free and may be abandoned. */
  lemma CancelInv(db: Db, metaTask: Id)
    requires Inv(db)
    ensures Inv(CancelStep(db, metaTask))
  {
    var cs := HeldOfMetaTask(db, metaTask);
    var db1 := CloseAll(db, cs, Revoked);
    CloseAllInv(db, cs, Revoked);
    forall t | t in db1.subtasks && db1.subtasks[t].metaTask == metaTask
      ensures db1.subtasks[t].currentClaim.None?
    {
      assert SubtaskOk(db, t);
      assert db.subtasks[t].currentClaim.Some? ==> db.subtasks[t].currentClaim.value in cs;
    }
    CancelSubtasksInv(db1, metaTask);
  }

  lemma CreateInv(db: Db, t: Id, metaTask: Id, kind: SubtaskKind, seeded: bool)
    requires Inv(db)
    ensures Inv(Exec(db, Create(t, metaTask, kind, seeded)).db)
  {
    var db' := Exec(db, Create(t, metaTask, kind, seeded)).db;
    if db' != db {
      forall c | c in db'.claims ensures ClaimOk(db', c) { assert ClaimOk(db, c); }
      forall x | x in db'.subtasks ensures SubtaskOk(db', x) { if x != t { assert SubtaskOk(db, x); } }
      forall s | s in db'.sessions ensures SessionOk(db', s) { assert SessionOk(db, s); }
      forall c, d ensures DistinctFences(db', c, d) { assert DistinctFences(db, c, d); }
      forall c ensures HolderActive(db', c) { assert HolderActive(db, c); }
    }
  }

  lemma ClaimStepInv(db: Db, step: Step)
    requires Inv(db)
    requires step.ClaimSubtask? || step.ClaimNext? || step.Start? || step.Renew? || step.Release? || step.Abandon?
    ensures Inv(Exec(db, step).db)
  {
    match step
    case ClaimSubtask(s, t, c, d, sch, deps, wall) => AcquireInv(db, s, t, c, d, sch, deps, wall, false);
    case ClaimNext(s, t, c, d, sch, deps, wall) => AcquireInv(db, s, t, c, d, sch, deps, wall, true);
    case Start(s, c, f, sch, wall) => StartInv(db, s, c, f, sch, wall);
    case Renew(s, c, f, e, wall) => RenewInv(db, s, c, f, e, wall);
    case Release(s, c, f, wall) => ReleaseInv(db, s, c, f, wall);
    case Abandon(s, c, f, wall) => AbandonInv(db, s, c, f, wall);
  }

  predicate IsWorkStep(step: Step) {
    step.Conclude? || step.Publish? || step.RequestReview? || step.Decide? || step.Settle? || step.Revive?
  }

  lemma WorkStepInv(db: Db, step: Step)
    requires Inv(db) && IsWorkStep(step)
    ensures Inv(Exec(db, step).db)
  {
    match step
    case Conclude(s, c, f, to, allowed, wall) => ConcludeInv(db, s, c, f, to, allowed, wall);
    case Publish(s, c, f, allowed, wall) => PublishInv(db, s, c, f, allowed, wall);
    case RequestReview(t, review, allowed, wall) => RequestReviewInv(db, t, review, allowed, wall);
    case Decide(s, c, f, t, to, allowed, wall) => DecideInv(db, s, c, f, t, to, allowed, wall);
    case Settle(t, to, wall) => SettleInv(db, t, to, wall);
    case Revive(t, wall) => SettleInv(db, t, Available, wall);
  }

  /** Every step keeps claims, counters, subtasks and sessions consistent. */
  lemma StepInv(db: Db, step: Step)
    requires Inv(db)
    ensures Inv(Exec(db, step).db)
  {
    if IsWorkStep(step) {
      WorkStepInv(db, step);
    } else if step.ClaimSubtask? || step.ClaimNext? || step.Start? || step.Renew? || step.Release? || step.Abandon? {
      ClaimStepInv(db, step);
    } else if step.Register? || step.Heartbeat? {
      SessionStepInv(db, step);
    } else {
      match step
      case TickOnly(wall) => AdvanceInv(db, wall);
      case Create(t, m, k, seeded) => CreateInv(db, t, m, k, seeded);
      case Exit(s, wall) => ExitInv(db, s, wall);
      case Reap(threshold, wall) => ReapInv(db, threshold, wall);
      case ExpireOldClaims(wall) => ExpireOldStepInv(db, wall);
      case CancelMetaTask(m, wall) => if wall >= 0 { CancelInv(db, m); }
    }
  }
}
