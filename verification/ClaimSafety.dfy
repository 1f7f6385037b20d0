/** Safety of fences over whole runs of the claim protocol, under any wall clock. */
module ClaimSafety {
  import opened Text
  import opened Lifecycle
  import opened Claims
  import opened ClaimInvariants

  // ---------------------------------------------------------------- progress

  /** The tick an operation at this wall time hands the guard. */
  function Handed(db: Db, wall: int): int { Tick(Advance(db, wall)) }

  /** A renewal, if it is one, is handed a tick at or past the bound. */
  predicate LateRenewal(db: Db, step: Step, bound: int) { step.Renew? ==> bound <= Handed(db, step.wall) }

  /** A claim held now was held before, and only one that ran beyond the bound may have a new deadline. */
  ghost predicate Carried(db: Db, db': Db, c: Id, bound: int)
    requires c in db'.claims
  {
    && HeldClaim(db.claims, c)
    && db'.claims[c].subtask == db.claims[c].subtask && db'.claims[c].owner == db.claims[c].owner
    && db'.claims[c].fence == db.claims[c].fence
    && (db'.claims[c].deadline == db.claims[c].deadline || db.claims[c].deadline > bound)
  }

  /** Every held claim is carried over or has a fence that had not been issued. */
  ghost predicate HeldFrom(db: Db, db': Db, c: Id, bound: int) {
    HeldClaim(db'.claims, c) ==>
      Carried(db, db', c, bound) || db'.claims[c].fence > Issued(db.counters, db'.claims[c].subtask)
  }

  ghost predicate Progress(db: Db, db': Db, bound: int) {
    && Tick(db) <= Tick(db')
    && (forall t {:trigger Issued(db'.counters, t)} :: Issued(db.counters, t) <= Issued(db'.counters, t))
    && (forall c {:trigger HeldFrom(db, db', c, bound)} :: HeldFrom(db, db', c, bound))
  }

  lemma ProgressTrans(a: Db, b: Db, c: Db, bound: int)
    requires Progress(a, b, bound) && Progress(b, c, bound)
    ensures Progress(a, c, bound)
  {
    forall t ensures Issued(a.counters, t) <= Issued(c.counters, t) {
      assert Issued(a.counters, t) <= Issued(b.counters, t) <= Issued(c.counters, t);
    }
    forall x ensures HeldFrom(a, c, x, bound) {
      assert HeldFrom(b, c, x, bound) && HeldFrom(a, b, x, bound);
      if HeldClaim(c.claims, x) && !Carried(b, c, x, bound) {
        assert Issued(a.counters, c.claims[x].subtask) <= Issued(b.counters, c.claims[x].subtask);
      }
    }
  }

  /** Steps that open nothing: what stays held is unchanged. */
  lemma QuietProgress(db: Db, db': Db, bound: int)
    requires Tick(db) <= Tick(db') && Consistent(db)
    requires forall t :: Issued(db.counters, t) == Issued(db'.counters, t)
    requires forall c :: HeldClaim(db'.claims, c) ==> HeldClaim(db.claims, c) && db'.claims[c] == db.claims[c]
    ensures Progress(db, db', bound)
  {
  }

  lemma AdvanceProgress(db: Db, wall: int, bound: int)
    requires Inv(db)
    ensures Progress(db, Advance(db, wall), bound)
  {
    AdvanceInv(db, wall);
    QuietProgress(db, Advance(db, wall), bound);
  }

  lemma CloseAllProgress(db: Db, cs: set<Id>, to: ClaimState, bound: int)
    requires Consistent(db) && to != Held
    ensures Progress(db, CloseAll(db, cs, to), bound)
  {
    QuietProgress(db, CloseAll(db, cs, to), bound);
  }

  lemma GrantProgress(db: Db, s: Id, t: Id, c: Id, deadline: int, at: int, bound: int)
    requires Inv(db) && CanGrant(db, s, t, c)
    ensures Progress(db, GrantRows(db, s, t, c, deadline, at), bound)
  {
  }

  lemma AcquireProgress(db: Db, s: Id, t: Id, c: Id, duration: int, schedulable: bool, deps: bool, wall: int,
                        commits: bool, bound: int)
    requires Inv(db)
    ensures Progress(db, Acquire(db, s, t, c, duration, schedulable, deps, wall, commits).db, bound)
  {
    var o := Acquire(db, s, t, c, duration, schedulable, deps, wall, commits);
    var db1 := Advance(db, wall);
    AdvanceInv(db, wall);
    AdvanceProgress(db, wall, bound);
    var db2 := ExpireOn(db1, t, Tick(db1));
    ExpireOnInv(db1, t, Tick(db1));
    CloseAllProgress(db1, ExpirableOn(db1, t, Tick(db1)), Expired, bound);
    ProgressTrans(db, db1, db2, bound);
    QuietProgress(db, db, bound);
    if ActiveSession(db1, s) && db1.sessions[s].activeSubtask.None? {
      SelectInv(db2, s, t, c, duration, schedulable, deps, wall);
      if o.grant.Some? {
        var r := Select(db2, s, t, c, duration, schedulable, deps, wall);
        GrantProgress(db2, s, t, c, r.deadline, wall, bound);
        ProgressTrans(db, db2, o.db, bound);
      }
    }
  }

  /** A grant is of the next fence of its subtask, and no other counter moves. */
  lemma AcquireCounters(db: Db, s: Id, t: Id, c: Id, duration: int, schedulable: bool, deps: bool, wall: int,
                        commits: bool)
    requires Inv(db)
    ensures var o := Acquire(db, s, t, c, duration, schedulable, deps, wall, commits);
            && (o.grant.Some? ==> o.grant == Some(Grant(t, c, s, Issued(db.counters, t) + 1)))
            && forall x :: Issued(o.db.counters, x) ==
                 Issued(db.counters, x) + if o.grant.Some? && x == t then 1 else 0
  {
    var db1 := Advance(db, wall);
    var db2 := ExpireOn(db1, t, Tick(db1));
    AdvanceInv(db, wall);
    ExpireOnInv(db1, t, Tick(db1));
    assert db2.counters == db.counters;
    if ActiveSession(db1, s) && db1.sessions[s].activeSubtask.None? {
      SelectInv(db2, s, t, c, duration, schedulable, deps, wall);
      var r := Select(db2, s, t, c, duration, schedulable, deps, wall);
      if r.Granted? { GrantCounters(db2, s, t, c, r.deadline, wall); }
    }
  }

  lemma GrantCounters(db: Db, s: Id, t: Id, c: Id, deadline: int, at: int)
    requires CanGrant(db, s, t, c)
    ensures forall x :: Issued(GrantRows(db, s, t, c, deadline, at).counters, x) ==
              Issued(db.counters, x) + if x == t then 1 else 0
  {
  }

  lemma RenewProgress(db: Db, s: Id, c: Id, fence: int, extend: int, wall: int, bound: int)
    requires Inv(db) && bound <= Handed(db, wall)
    ensures Progress(db, RenewStep(db, s, c, fence, extend, wall), bound)
  {
    AdvanceInv(db, wall);
    var db' := RenewStep(db, s, c, fence, extend, wall);
    forall x ensures HeldFrom(db, db', x, bound) {}
  }

  /** The counters a step moves: only a granting one, by one, for its subtask. */
  ghost predicate CountersMove(db: Db, o: Outcome) {
    && (o.grant.Some? ==> o.grant.value.fence == Issued(db.counters, o.grant.value.subtask) + 1)
    && forall x :: Issued(o.db.counters, x) ==
         Issued(db.counters, x) + if o.grant.Some? && x == o.grant.value.subtask then 1 else 0
  }

  lemma SweepProgress(db: Db, threshold: int, wall: int, bound: int)
    requires Inv(db)
    ensures Progress(db, ReapStep(db, threshold, wall), bound) && Progress(db, ExpireOldStep(db, wall), bound)
  {
    AdvanceInv(db, wall);
    QuietProgress(db, ReapStep(db, threshold, wall), bound);
    QuietProgress(db, ExpireOldStep(db, wall), bound);
  }

  lemma GuardedProgress(db: Db, s: Id, c: Id, fence: int, schedulable: bool, wall: int, bound: int)
    requires Inv(db)
    ensures Progress(db, StartStep(db, s, c, fence, schedulable, wall), bound)
    ensures Progress(db, ReleaseStep(db, s, c, fence, wall), bound)
    ensures Progress(db, AbandonStep(db, s, c, fence, wall), bound)
  {
    AdvanceInv(db, wall);
    QuietProgress(db, StartStep(db, s, c, fence, schedulable, wall), bound);
    QuietProgress(db, ReleaseStep(db, s, c, fence, wall), bound);
    QuietProgress(db, AbandonStep(db, s, c, fence, wall), bound);
  }

  lemma WorkProgress(db: Db, step: Step, bound: int)
    requires Inv(db) && IsWorkStep(step)
    ensures Progress(db, Exec(db, step).db, bound)
  {
    AdvanceInv(db, step.wall);
    if step.Decide? {
      DecideProgress(db, step.s, step.c, step.fence, step.t, step.to, step.allowed, step.wall, bound);
    } else {
      QuietProgress(db, Exec(db, step).db, bound);
    }
  }

  lemma DecideProgress(db: Db, s: Id, c: Id, fence: int, t: Id, to: SubtaskState, allowed: bool, wall: int, bound: int)
    requires Inv(db)
    ensures Progress(db, DecideStep(db, s, c, fence, t, to, allowed, wall), bound)
  {
    QuietProgress(db, DecideStep(db, s, c, fence, t, to, allowed, wall), bound);
  }

  lemma ClaimProgress(db: Db, step: Step, bound: int)
    requires Inv(db) && LateRenewal(db, step, bound)
    requires step.ClaimSubtask? || step.ClaimNext? || step.Start? || step.Renew? || step.Release? || step.Abandon?
    ensures Progress(db, Exec(db, step).db, bound)
  {
    match step
    case ClaimSubtask(s, t, c, d, sch, deps, wall) => AcquireProgress(db, s, t, c, d, sch, deps, wall, false, bound);
    case ClaimNext(s, t, c, d, sch, deps, wall) => AcquireProgress(db, s, t, c, d, sch, deps, wall, true, bound);
    case Start(s, c, f, sch, wall) => GuardedProgress(db, s, c, f, sch, wall, bound);
    case Renew(s, c, f, e, wall) => RenewProgress(db, s, c, f, e, wall, bound);
    case Release(s, c, f, wall) => GuardedProgress(db, s, c, f, true, wall, bound);
    case Abandon(s, c, f, wall) => GuardedProgress(db, s, c, f, true, wall, bound);
  }

  lemma StepProgress(db: Db, step: Step, bound: int)
    requires Inv(db) && LateRenewal(db, step, bound)
    ensures Progress(db, Exec(db, step).db, bound)
  {
    if IsWorkStep(step) {
      WorkProgress(db, step, bound);
    } else if step.ClaimSubtask? || step.ClaimNext? || step.Start? || step.Renew? || step.Release? || step.Abandon? {
      ClaimProgress(db, step, bound);
    } else {
      match step
      case TickOnly(wall) => AdvanceProgress(db, wall, bound);
      case Register(_, _, wall) => AdvanceInv(db, wall); QuietProgress(db, Exec(db, step).db, bound);
      case Heartbeat(_, wall) => AdvanceInv(db, wall); QuietProgress(db, Exec(db, step).db, bound);
      case Create(_, _, _, _) => QuietProgress(db, Exec(db, step).db, bound);
      case Exit(s, wall) => QuietProgress(db, Exec(db, step).db, bound);
      case Reap(threshold, wall) => SweepProgress(db, threshold, wall, bound);
      case ExpireOldClaims(wall) => SweepProgress(db, 0, wall, bound);
      case CancelMetaTask(m, wall) => QuietProgress(db, Exec(db, step).db, bound);
    }
  }

  lemma StepCounters(db: Db, step: Step)
    requires Inv(db)
    ensures CountersMove(db, Exec(db, step))
  {
    if step.ClaimSubtask? || step.ClaimNext? {
      AcquireCounters(db, step.s, step.t, step.c, step.duration, step.schedulable, step.depsSatisfied, step.wall,
                      step.ClaimNext?);
    }
  }

  // -------------------------------------------------------------------- runs

  function Run(db: Db, steps: seq<Step>): Db {
    if steps == [] then db else Exec(Run(db, steps[..|steps| - 1]), steps[|steps| - 1]).db
  }

  /** The fences granted for one subtask, in order. */
  function Granted(db: Db, steps: seq<Step>, t: Id): seq<int> {
    if steps == [] then []
    else
      var init := steps[..|steps| - 1];
      var o := Exec(Run(db, init), steps[|steps| - 1]);
      Granted(db, init, t) + if o.grant.Some? && o.grant.value.subtask == t then [o.grant.value.fence] else []
  }

  /** A store with no claims yet; counter rows are absent or seeded with 1. */
  ghost predicate Initial(db: Db) {
    && db.claims == map[]
    && (forall t :: t in db.counters ==> db.counters[t] == 1)
    && (forall t :: t in db.subtasks ==> db.subtasks[t].currentClaim.None?
                                         && db.subtasks[t].state !in {Claimed, InProgress})
    && (forall s :: s in db.sessions ==> db.sessions[s].activeSubtask.None?)
  }

  lemma InitialInv(db: Db)
    requires Initial(db)
    ensures Inv(db)
  {
  }

  lemma {:induction false} RunInv(db: Db, steps: seq<Step>)
    requires Inv(db)
    ensures Inv(Run(db, steps)) && Progress(db, Run(db, steps), Tick(db))
  {
    if steps == [] {
      QuietProgress(db, db, Tick(db));
    } else {
      var init := steps[..|steps| - 1];
      RunInv(db, init);
      StepInv(Run(db, init), steps[|steps| - 1]);
      StepProgress(Run(db, init), steps[|steps| - 1], Tick(db));
      ProgressTrans(db, Run(db, init), Run(db, steps), Tick(db));
    }
  }

  ghost predicate LateRenewals(db: Db, steps: seq<Step>, bound: int) {
    steps == [] ||
    var init := steps[..|steps| - 1];
    LateRenewals(db, init, bound) && LateRenewal(Run(db, init), steps[|steps| - 1], bound)
  }

  /** The same for any bound no renewal comes before. */
  lemma {:induction false} RunProgress(db: Db, steps: seq<Step>, bound: int)
    requires Inv(db) && LateRenewals(db, steps, bound)
    ensures Progress(db, Run(db, steps), bound)
  {
    if steps == [] {
      QuietProgress(db, db, bound);
    } else {
      var init := steps[..|steps| - 1];
      RunInv(db, init);
      RunProgress(db, init, bound);
      StepProgress(Run(db, init), steps[|steps| - 1], bound);
      ProgressTrans(db, Run(db, init), Run(db, steps), bound);
    }
  }

  // ---------------------------------------------------------------- theorems

  /** Exclusion: at any moment at most one (session, claim, fence) is accepted for a subtask. */
  lemma AtMostOneAccepted(db0: Db, steps: seq<Step>, t: Id, s: Id, c: Id, f: int, tick: int,
                          s': Id, c': Id, f': int, tick': int)
    requires Initial(db0)
    requires Accepted(Run(db0, steps), t, s, c, f, tick) && Accepted(Run(db0, steps), t, s', c', f', tick')
    ensures s == s' && c == c' && f == f'
  {
    InitialInv(db0);
    RunInv(db0, steps);
    var db := Run(db0, steps);
    assert ClaimOk(db, c) && ClaimOk(db, c');
  }

  /** The fence was issued, and no claim with it or an older one runs beyond the bound. */
  ghost predicate EndsBy(db: Db, t: Id, fence: int, bound: int) {
    && fence <= Issued(db.counters, t)
    && forall c {:trigger HeldClaim(db.claims, c)} ::
         HeldClaim(db.claims, c) && db.claims[c].subtask == t && db.claims[c].fence <= fence
         ==> db.claims[c].deadline <= bound
  }

  /** No claim with the fence or an older one is live at the committed clock. */
  ghost predicate Dead(db: Db, t: Id, fence: int) { EndsBy(db, t, fence, Tick(db)) }

  lemma ClosedIsDead(db: Db, c: Id)
    requires Inv(db) && c in db.claims && db.claims[c].state != Held
    ensures Dead(db, db.claims[c].subtask, db.claims[c].fence)
  {
    assert ClaimOk(db, c);
    forall d | HeldClaim(db.claims, d) && db.claims[d].subtask == db.claims[c].subtask
      ensures db.claims[d].fence > db.claims[c].fence
    {
      assert ClaimOk(db, d) && DistinctFences(db, c, d);
    }
  }

  /** A held claim has the latest fence of its subtask, so its deadline bounds them all. */
  lemma HeldEndsBy(db: Db, c: Id)
    requires Inv(db) && HeldClaim(db.claims, c)
    ensures EndsBy(db, db.claims[c].subtask, db.claims[c].fence, db.claims[c].deadline)
  {
    assert ClaimOk(db, c);
    forall d | HeldClaim(db.claims, d) && db.claims[d].subtask == db.claims[c].subtask ensures d == c {
      assert ClaimOk(db, d);
    }
  }

  /** The end of a fence is final, and with it the fence's death. */
  lemma ProgressKeepsEnd(db: Db, db': Db, t: Id, fence: int, bound: int)
    requires Progress(db, db', bound) && EndsBy(db, t, fence, bound)
    ensures EndsBy(db', t, fence, bound)
  {
    assert Issued(db.counters, t) <= Issued(db'.counters, t);
    forall c | HeldClaim(db'.claims, c) && db'.claims[c].subtask == t && db'.claims[c].fence <= fence
      ensures db'.claims[c].deadline <= bound
    {
      assert HeldFrom(db, db', c, bound);
    }
  }

  /**
   Once a fence was closed, or the committed clock has reached its deadline, neither it nor any
   older fence of the subtask is ever accepted again, however the wall clock moves.
   */
  lemma FenceNeverReturns(db0: Db, before: seq<Step>, after: seq<Step>, c: Id, fence: int,
                          s': Id, c': Id, f': int, tick: int)
    requires Initial(db0) && c in Run(db0, before).claims && Run(db0, before).claims[c].fence == fence
    requires var db := Run(db0, before); db.claims[c].state != Held || db.claims[c].deadline <= Tick(db)
    requires f' <= fence && tick >= Tick(Run(Run(db0, before), after))
    ensures !Accepted(Run(Run(db0, before), after), Run(db0, before).claims[c].subtask, s', c', f', tick)
  {
    InitialInv(db0);
    RunInv(db0, before);
    var db := Run(db0, before);
    var t := db.claims[c].subtask;
    if db.claims[c].state != Held { ClosedIsDead(db, c); } else { HeldEndsBy(db, c); }
    RunInv(db, after);
    var db' := Run(db, after);
    ProgressKeepsEnd(db, db', t, fence, Tick(db));
    assert c' in db'.claims && db'.claims[c'].state == Held ==> HeldClaim(db'.claims, c');
  }

  /** Accepted fences never go back: a later acceptance has the same triple or a newer fence. */
  lemma AcceptedFencesAscend(db0: Db, before: seq<Step>, after: seq<Step>, t: Id,
                             s: Id, c: Id, f: int, s': Id, c': Id, f': int, tick: int, tick': int)
    requires Initial(db0)
    requires Accepted(Run(db0, before), t, s, c, f, tick)
    requires Accepted(Run(Run(db0, before), after), t, s', c', f', tick')
    ensures f < f' || (s == s' && c == c' && f == f')
  {
    InitialInv(db0);
    RunInv(db0, before);
    var db := Run(db0, before);
    RunInv(db, after);
    var db' := Run(db, after);
    assert ClaimOk(db, c) && ClaimOk(db', c');
    assert HeldFrom(db, db', c', Tick(db));
    if Carried(db, db', c', Tick(db)) { assert ClaimOk(db, c'); }
  }

  /** States nothing leads out of. */
  predicate Final(state: SubtaskState) { state in {SubtaskState.Applied, Completed, SubtaskState.Failed, Decided} }

  predicate FinalSubtask(db: Db, t: Id) { t in db.subtasks && Final(db.subtasks[t].state) }

  lemma NoWayOut(kind: SubtaskKind, from: SubtaskState, to: SubtaskState)
    requires Final(from)
    ensures !SubtaskTransition(kind, from, to)
  {
  }

  predicate SameState(db: Db, db': Db, t: Id) {
    t in db.subtasks && t in db'.subtasks && db'.subtasks[t].state == db.subtasks[t].state
  }

  lemma CloseKeepsFinal(db: Db, cs: set<Id>, to: ClaimState, t: Id)
    requires FinalSubtask(db, t)
    ensures SameState(db, CloseAll(db, cs, to), t)
  {
  }

  lemma AcquireKeepsFinal(db: Db, s: Id, u: Id, c: Id, duration: int, schedulable: bool, deps: bool, wall: int,
                          commits: bool, t: Id)
    requires FinalSubtask(db, t)
    ensures SameState(db, Acquire(db, s, u, c, duration, schedulable, deps, wall, commits).db, t)
  {
    var db1 := Advance(db, wall);
    var db2 := ExpireOn(db1, u, Tick(db1));
    CloseKeepsFinal(db1, ExpirableOn(db1, u, Tick(db1)), Expired, t);
    if s in db2.sessions { SelectKeepsFinal(db2, s, u, c, duration, schedulable, deps, wall, t); }
  }

  lemma SelectKeepsFinal(db: Db, s: Id, u: Id, c: Id, duration: int, schedulable: bool, deps: bool, now: int, t: Id)
    requires FinalSubtask(db, t) && s in db.sessions
    ensures match Select(db, s, u, c, duration, schedulable, deps, now)
            case Granted(db', _, _) => SameState(db, db', t)
            case AlreadyClaimed(db') => SameState(db, db', t)
            case IllegalTransition(db') => SameState(db, db', t)
            case Refused => true
  {
    if u == t { NoWayOut(db.subtasks[t].kind, db.subtasks[t].state, Claimed); }
  }

  /** A settled subtask that has a claim is an applied one, which abandoning excludes. */
  lemma GuardedKeepsFinal(db: Db, s: Id, c: Id, fence: int, schedulable: bool, wall: int, t: Id)
    requires Inv(db) && FinalSubtask(db, t)
    ensures SameState(db, StartStep(db, s, c, fence, schedulable, wall), t)
    ensures SameState(db, ReleaseStep(db, s, c, fence, wall), t)
    ensures SameState(db, AbandonStep(db, s, c, fence, wall), t)
  {
    assert SubtaskOk(db, t);
    NoWayOut(db.subtasks[t].kind, db.subtasks[t].state, InProgress);
  }

  lemma WorkKeepsFinal(db: Db, step: Step, t: Id)
    requires FinalSubtask(db, t) && (step.Conclude? || step.Publish? || step.RequestReview? || step.Settle? || step.Revive?)
    ensures SameState(db, Exec(db, step).db, t)
  {
    if step.Conclude? { NoWayOut(db.subtasks[t].kind, db.subtasks[t].state, step.to); }
    NoWayOut(db.subtasks[t].kind, db.subtasks[t].state, ArtifactPublished);
    NoWayOut(db.subtasks[t].kind, db.subtasks[t].state, ReviewPending);
  }

  lemma DecideKeepsFinal(db: Db, s: Id, c: Id, fence: int, u: Id, to: SubtaskState, allowed: bool, wall: int, t: Id)
    requires FinalSubtask(db, t)
    ensures SameState(db, DecideStep(db, s, c, fence, u, to, allowed, wall), t)
  {
    NoWayOut(db.subtasks[t].kind, db.subtasks[t].state, Decided);
  }

  lemma LeaveKeepsFinal(db: Db, step: Step, t: Id)
    requires FinalSubtask(db, t) && (step.Exit? || step.CancelMetaTask?)
    ensures SameState(db, Exec(db, step).db, t)
  {
  }

  lemma SweepKeepsFinal(db: Db, step: Step, t: Id)
    requires FinalSubtask(db, t) && (step.Reap? || step.ExpireOldClaims?)
    ensures SameState(db, Exec(db, step).db, t)
  {
  }

  lemma ClaimKeepsFinal(db: Db, step: Step, t: Id)
    requires Inv(db) && FinalSubtask(db, t)
    requires step.ClaimSubtask? || step.ClaimNext? || step.Start? || step.Release? || step.Abandon?
    ensures SameState(db, Exec(db, step).db, t)
  {
    match step
    case ClaimSubtask(s, u, c, d, sch, deps, wall) => AcquireKeepsFinal(db, s, u, c, d, sch, deps, wall, false, t);
    case ClaimNext(s, u, c, d, sch, deps, wall) => AcquireKeepsFinal(db, s, u, c, d, sch, deps, wall, true, t);
    case Start(s, c, f, sch, wall) => GuardedKeepsFinal(db, s, c, f, sch, wall, t);
    case Release(s, c, f, wall) => GuardedKeepsFinal(db, s, c, f, true, wall, t);
    case Abandon(s, c, f, wall) => GuardedKeepsFinal(db, s, c, f, true, wall, t);
  }

  lemma StepKeepsFinal(db: Db, step: Step, t: Id)
    requires Inv(db) && FinalSubtask(db, t)
    ensures SameState(db, Exec(db, step).db, t)
  {
    if step.Decide? {
      DecideKeepsFinal(db, step.s, step.c, step.fence, step.t, step.to, step.allowed, step.wall, t);
    } else if IsWorkStep(step) {
      WorkKeepsFinal(db, step, t);
    } else if step.ClaimSubtask? || step.ClaimNext? || step.Start? || step.Release? || step.Abandon? {
      ClaimKeepsFinal(db, step, t);
    } else if step.Exit? || step.CancelMetaTask? {
      LeaveKeepsFinal(db, step, t);
    } else if step.Reap? || step.ExpireOldClaims? {
      SweepKeepsFinal(db, step, t);
    }
  }

  /** Applied, completed, failed and decided subtasks stay so in every run, abandoning included. */
  lemma {:induction false} FinalForever(db: Db, steps: seq<Step>, t: Id)
    requires Inv(db) && FinalSubtask(db, t)
    ensures SameState(db, Run(db, steps), t)
  {
    if steps != [] {
      var init := steps[..|steps| - 1];
      RunInv(db, init);
      FinalForever(db, init, t);
      StepKeepsFinal(Run(db, init), steps[|steps| - 1], t);
    }
  }

  /** The k-th fence issued for a subtask is k, whether its counter row was absent or seeded. */
  lemma {:induction false} FencesCountUp(db0: Db, steps: seq<Step>, t: Id)
    requires Initial(db0)
    ensures |Granted(db0, steps, t)| == Issued(Run(db0, steps).counters, t)
    ensures forall k :: 0 <= k < |Granted(db0, steps, t)| ==> Granted(db0, steps, t)[k] == k + 1
  {
    if steps != [] {
      var init := steps[..|steps| - 1];
      FencesCountUp(db0, init, t);
      InitialInv(db0);
      RunInv(db0, init);
      StepCounters(Run(db0, init), steps[|steps| - 1]);
      assert Issued(Run(db0, steps).counters, t) == Issued(Exec(Run(db0, init), steps[|steps| - 1]).db.counters, t);
    }
  }

  // ---------------------------------------------------------- the read path

  /**
   `repoops_authority_snapshot` passes the raw wall clock to the guard. Read at or
   after the last lease tick, it accepts nothing the lease clock has killed.
   */
  lemma SnapshotSound(db: Db, t: Id, s: Id, c: Id, fence: int, wall: int)
    requires Inv(db) && Accepted(db, t, s, c, fence, wall) && wall >= Tick(db)
    ensures Accepted(db, t, s, c, fence, Tick(db)) && !Dead(db, t, fence)
  {
    assert HeldClaim(db.claims, c);
  }

  /** Read with a clock that has gone back, it accepts exactly the held claims not yet expired at that reading. */
  lemma SnapshotAcceptsDeadIff(db: Db, t: Id, s: Id, c: Id, fence: int, wall: int)
    requires Inv(db) && Accepted(db, t, s, c, fence, wall)
    ensures Dead(db, t, fence) <==> wall < db.claims[c].deadline <= Tick(db)
  {
    assert ClaimOk(db, c) && HeldClaim(db.claims, c);
    forall d | HeldClaim(db.claims, d) && db.claims[d].subtask == t ensures d == c { assert ClaimOk(db, d); }
  }

  /** Register, create and claim at time 0 for 7 ms. */
  function OneClaimSteps(s: Id, t: Id, c: Id, m: Id): seq<Step> {
    [Register(s, Executor, 0), Create(t, m, Work, true), ClaimSubtask(s, t, c, 7, true, true, 0)]
  }

  const EMPTY := Db(Some(0), map[], map[], map[], map[])

  /** The store after registering a session and creating a subtask. */
  function Prepared(s: Id, t: Id, m: Id): Db {
    EMPTY.(sessions := map[s := Session(Executor, Active, None, 0)],
           subtasks := map[t := Subtask(m, Work, Available, None)], counters := map[t := 1])
  }

  lemma OneClaimGranted(s: Id, t: Id, c: Id, m: Id)
    ensures var db := Exec(Prepared(s, t, m), ClaimSubtask(s, t, c, 7, true, true, 0)).db;
            && db.clock == Some(0) && db.claims == map[c := Claim(t, s, 1, 7, Held, 0)]
            && ActiveSession(db, s) && Issued(db.counters, t) == 1
  {
    var db := Prepared(s, t, m);
    assert ExpirableOn(Advance(db, 0), t, 0) == {};
    assert ExpireOn(Advance(db, 0), t, 0) == db;
  }

  lemma {:induction false} RunSnoc(db: Db, steps: seq<Step>, step: Step)
    ensures Run(db, steps + [step]) == Exec(Run(db, steps), step).db
  {
    assert (steps + [step])[..|steps|] == steps;
  }

  lemma OneClaimRun(s: Id, t: Id, c: Id, m: Id)
    ensures var db := Run(EMPTY, OneClaimSteps(s, t, c, m));
            && db.clock == Some(0) && db.claims == map[c := Claim(t, s, 1, 7, Held, 0)]
            && ActiveSession(db, s) && Issued(db.counters, t) == 1
  {
    var steps := OneClaimSteps(s, t, c, m);
    RunSnoc(EMPTY, [], steps[0]);
    RunSnoc(EMPTY, [steps[0]], steps[1]);
    RunSnoc(EMPTY, [steps[0], steps[1]], steps[2]);
    assert [] + [steps[0]] == [steps[0]] && [steps[0]] + [steps[1]] == [steps[0], steps[1]];
    assert [steps[0], steps[1]] + [steps[2]] == steps;
    assert Run(EMPTY, [steps[0], steps[1]]) == Prepared(s, t, m);
    OneClaimGranted(s, t, c, m);
  }

  /** A reachable store where that happens: the lease ended at tick 7, the clock stands at 10, the reading is 5. */
  lemma SnapshotAcceptsExpired(s: Id, t: Id, c: Id, m: Id)
    ensures var db := Run(EMPTY, OneClaimSteps(s, t, c, m) + [TickOnly(10)]);
            Tick(db) == 10 && Accepted(db, t, s, c, 1, 5) && Dead(db, t, 1)
  {
    OneClaimRun(s, t, c, m);
    RunSnoc(EMPTY, OneClaimSteps(s, t, c, m), TickOnly(10));
  }
}
