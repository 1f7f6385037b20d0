/** What runs of the scheduler keep: no dependency deadlock, and verdicts that stay. */
module SchedulerRuns {
  import opened Text
  import opened Lifecycle
  import opened Reachability
  import opened Scheduler

  /** The scheduler's tables, and which subtasks have a current claim. */
  datatype World = World(db: Db, held: set<Id>)

  datatype Step =
    | CreateWork(req: CreateReq)
    | InsertRow(t: Id, row: Row)
    | Move(t: Id, to: SubtaskState)
    | ExpireClaim(t: Id)
    | Abandon(t: Id)
    | Revive(t: Id)
    | AddFollowup(src: Id, dst: Id)
    | RefreshMeta(m: Id)
    | CancelMeta(m: Id)

  function WithState(db: Db, t: Id, to: SubtaskState): Db
    requires t in db.subtasks
  {
    db.(subtasks := db.subtasks[t := db.subtasks[t].(state := to)])
  }

  /** The subtask part of `cancel_meta_task`. */
  function CancelRows(db: Db, m: Id): Db {
    db.(subtasks := map t | t in db.subtasks ::
          if db.subtasks[t].metaTask == m && !Terminal(db.subtasks[t].state)
          then db.subtasks[t].(state := Abandoned) else db.subtasks[t],
        metas := if m in db.metas then db.metas[m := MetaCancelled] else db.metas)
  }

  /** Claiming takes hold of a subtask; the states without a claim, expiry and cancelling let go of it. */
  function Exec(w: World, step: Step): World {
    var db := w.db;
    match step
    case CreateWork(req) => w.(db := Create(db, req))
    case InsertRow(t, row) => if t in db.subtasks then w else w.(db := db.(subtasks := db.subtasks[t := row]))
    case Move(t, to) =>
      if t in db.subtasks && SubtaskTransition(db.subtasks[t].kind, db.subtasks[t].state, to)
      then World(WithState(db, t, to),
                 if to == Claimed then w.held + {t} else if Unclaimed(to) then w.held - {t} else w.held)
      else w
    case ExpireClaim(t) =>
      World(if t in db.subtasks && db.subtasks[t].state in {Claimed, InProgress} then WithState(db, t, Available) else db,
            w.held - {t})
    case Abandon(t) =>
      if t in db.subtasks && t in w.held && db.subtasks[t].state !in {Applied, Completed, Failed, Abandoned}
      then World(WithState(db, t, Abandoned), w.held - {t}) else w
    case Revive(t) =>
      if t in db.subtasks && db.subtasks[t].kind == Work && db.subtasks[t].state == Abandoned && t !in w.held
      then w.(db := WithState(db, t, Available)) else w
    case AddFollowup(src, dst) =>
      if src in db.subtasks && dst in db.subtasks then w.(db := db.(followups := db.followups + {(src, dst)})) else w
    case RefreshMeta(m) => w.(db := Refresh(db, m))
    case CancelMeta(m) => World(CancelRows(db, m), set t | t in w.held && t in db.subtasks && db.subtasks[t].metaTask != m)
  }

  function Run(w: World, steps: seq<Step>): World {
    if steps == [] then w else Exec(Run(w, steps[..|steps| - 1]), steps[|steps| - 1])
  }

  // ---------------------------------------------------------------- no deadlock

  /** Dependencies join existing subtasks and never loop. */
  ghost predicate Sound(db: Db) {
    && (forall e :: e in db.deps ==> e.0 in db.subtasks && e.1 in db.subtasks)
    && Acyclic(db.deps)
  }

  lemma CreateSound(db: Db, req: CreateReq)
    requires Sound(db)
    ensures Sound(Create(db, req))
  {
    if CreateOk(db, req) {
      AddSourceAcyclic(db.deps, EdgesTo(req.t, req.dependsOn), req.t);
    }
  }

  lemma {:induction false} RunSound(w: World, steps: seq<Step>)
    requires Sound(w.db)
    ensures Sound(Run(w, steps).db)
  {
    if steps != [] {
      var init, step := steps[..|steps| - 1], steps[|steps| - 1];
      RunSound(w, init);
      if step.CreateWork? { CreateSound(Run(w, init).db, step.req); }
    }
  }

  /** Available work on one route, under claimable meta-tasks, waiting only on settled work or on itself. */
  ghost predicate Waiting(db: Db, route: string, s: set<Id>) {
    forall t :: t in s ==>
      && t in db.subtasks && db.subtasks[t].kind == Work && db.subtasks[t].state == Available
      && db.subtasks[t].route == route && Claimable(db, db.subtasks[t].metaTask)
      && forall d :: (t, d) in db.deps ==> d in s || DependencySatisfied(db, d)
  }

  lemma SinkIsEligible(db: Db, route: string, s: set<Id>, x: Id)
    requires Waiting(db, route, s) && x in s && forall y :: y in s ==> (x, y) !in db.deps
    ensures Eligible(db, Query(Work, Available, route, None), x)
    ensures Eligible(db, Query(Work, Available, route, Some(db.subtasks[x].metaTask)), x)
  {
    forall e | e in db.deps && e.0 == x ensures DependencySatisfied(db, e.1) {
      assert (x, e.1) in db.deps;
    }
    GatesAgree(db, x);
  }

  /** From every reachable store, such a set always yields a candidate. */
  lemma NoDeadlock(w0: World, steps: seq<Step>, route: string, s: set<Id>, now: int) returns (r: Option<Id>)
    requires Sound(w0.db) && s != {} && Waiting(Run(w0, steps).db, route, s)
    ensures IsCandidate(Run(w0, steps).db, Query(Work, Available, route, None), now, r) && r.Some?
  {
    var db := Run(w0, steps).db;
    RunSound(w0, steps);
    var x0 :| x0 in s;
    var x := FindSink(db.deps, s, [x0]);
    SinkIsEligible(db, route, s, x);
    r := CandidateExists(db, Query(Work, Available, route, None), now);
  }

  /** And so does the query scoped to one meta-task, when the set lies in it. */
  lemma NoDeadlockScoped(w0: World, steps: seq<Step>, route: string, m: Id, s: set<Id>, now: int) returns (r: Option<Id>)
    requires Sound(w0.db) && s != {} && Waiting(Run(w0, steps).db, route, s)
    requires forall t :: t in s ==> Run(w0, steps).db.subtasks[t].metaTask == m
    ensures IsCandidate(Run(w0, steps).db, Query(Work, Available, route, Some(m)), now, r) && r.Some?
  {
    var db := Run(w0, steps).db;
    RunSound(w0, steps);
    var x0 :| x0 in s;
    var x := FindSink(db.deps, s, [x0]);
    SinkIsEligible(db, route, s, x);
    r := CandidateExists(db, Query(Work, Available, route, Some(m)), now);
  }

  // ------------------------------------------------------- what finishing work achieves

  /** The states a subtask passes through to the end its dependents wait for. */
  function Route(kind: SubtaskKind, policy: CompletionPolicy): seq<SubtaskState> {
    if kind == Review then [Claimed, InProgress, Decided]
    else
      match policy
      case Direct => [Claimed, InProgress, Completed]
      case Reviewed => [Claimed, InProgress, ArtifactPublished, ReviewPending, Completed]
      case CanonicalApply =>
        [Claimed, InProgress, ArtifactPublished, ReviewPending, Approved, ReadyForApply, Applied]
  }

  function Moves(t: Id, states: seq<SubtaskState>): (steps: seq<Step>)
    ensures |steps| == |states| && forall i :: 0 <= i < |states| ==> steps[i] == Move(t, states[i])
  {
    seq(|states|, i requires 0 <= i < |states| => Move(t, states[i]))
  }

  /** The state before the k-th move of a route. */
  function RouteState(kind: SubtaskKind, policy: CompletionPolicy, k: nat): SubtaskState
    requires k <= |Route(kind, policy)|
  {
    if k == 0 then Available else Route(kind, policy)[k - 1]
  }

  lemma RouteIsLegal(kind: SubtaskKind, policy: CompletionPolicy, k: nat)
    requires kind != Cleanup && k < |Route(kind, policy)|
    ensures SubtaskTransition(kind, RouteState(kind, policy, k), RouteState(kind, policy, k + 1))
  {
  }

  lemma RouteEnds(r: Row, k: nat)
    requires k <= |Route(r.kind, r.policy)|
    ensures Settled(r.(state := RouteState(r.kind, r.policy, k))) <==> k == |Route(r.kind, r.policy)|
  {
  }

  /** Each move along a route obeys the transition table, so the run ends where the route ends. */
  lemma {:induction false} RouteRuns(w: World, t: Id, k: nat)
    requires t in w.db.subtasks && w.db.subtasks[t].kind != Cleanup && w.db.subtasks[t].state == Available
    requires k <= |Route(w.db.subtasks[t].kind, w.db.subtasks[t].policy)|
    ensures var r := w.db.subtasks[t];
            var route := Route(r.kind, r.policy);
            var db := Run(w, Moves(t, route)[..k]).db;
            db == w.db.(subtasks := w.db.subtasks[t := r.(state := RouteState(r.kind, r.policy, k))])
  {
    var r := w.db.subtasks[t];
    var steps := Moves(t, Route(r.kind, r.policy));
    if k == 0 {
      assert w.db.subtasks[t := r.(state := Available)] == w.db.subtasks;
    } else {
      RouteRuns(w, t, k - 1);
      RouteIsLegal(r.kind, r.policy, k - 1);
      assert steps[..k][..k - 1] == steps[..k - 1] && steps[..k][k - 1] == steps[k - 1];
    }
  }

  lemma AloneIsSettled(db: Db, t: Id)
    requires forall e :: e in db.followups ==> e.0 != t
    ensures DependencySatisfied(db, t) <==> SettledRow(db, t)
  {
    assert Successors(db.followups, {t}) == {};
    assert Chain(db.followups, t) == {};
  }

  /**
   Work and reviews that go the way of their policy to its end satisfy what depends on them,
   whatever follow-ups there are, and not a step before it if there are none.
   */
  lemma RouteSatisfies(w: World, t: Id, k: nat)
    requires t in w.db.subtasks && w.db.subtasks[t].kind != Cleanup && w.db.subtasks[t].state == Available
    requires k <= |Route(w.db.subtasks[t].kind, w.db.subtasks[t].policy)|
    ensures var route := Route(w.db.subtasks[t].kind, w.db.subtasks[t].policy);
            var db := Run(w, Moves(t, route)[..k]).db;
            && (k == |route| ==> DependencySatisfied(db, t))
            && (k < |route| && (forall e :: e in w.db.followups ==> e.0 != t) ==> !DependencySatisfied(db, t))
  {
    var route := Route(w.db.subtasks[t].kind, w.db.subtasks[t].policy);
    RouteRuns(w, t, k);
    RouteEnds(w.db.subtasks[t], k);
    var db := Run(w, Moves(t, route)[..k]).db;
    assert SettledRow(db, t) <==> k == |route|;
    if forall e :: e in w.db.followups ==> e.0 != t { AloneIsSettled(db, t); }
  }

  /** Concluding direct or reviewed work, applying canonical work or deciding a review satisfies at once and for good. */
  lemma FinishSatisfies(w: World, t: Id, to: SubtaskState, steps: seq<Step>)
    requires HeldOk(w) && t in w.db.subtasks && SubtaskTransition(w.db.subtasks[t].kind, w.db.subtasks[t].state, to)
    requires SatisfyingColumns(w.db.subtasks[t].kind, w.db.subtasks[t].policy, to)
    ensures DependencySatisfied(Exec(w, Move(t, to)).db, t)
    ensures DependencySatisfied(Run(Exec(w, Move(t, to)), steps).db, t)
  {
    var w' := Exec(w, Move(t, to));
    assert SettledRow(w'.db, t);
    StepHeldOk(w, Move(t, to));
    SatisfiedForever(w', steps, t);
  }

  /** What satisfies for a follow-up satisfies for its source from the moment the two are joined. */
  lemma FollowupSatisfies(w: World, src: Id, dst: Id)
    requires src in w.db.subtasks && dst in w.db.subtasks && DependencySatisfied(w.db, dst)
    ensures DependencySatisfied(Exec(w, AddFollowup(src, dst)).db, src)
  {
    var db := Exec(w, AddFollowup(src, dst)).db;
    DependencySatisfiedIff(w.db, dst);
    DependencySatisfiedIff(db, src);
    assert (src, dst) in db.followups;
    ReachesEdge(db.followups, src, dst);
    var f :| (f == dst || Reaches(w.db.followups, dst, f)) && f in w.db.subtasks
             && SatisfyingColumns(w.db.subtasks[f].kind, w.db.subtasks[f].policy, w.db.subtasks[f].state);
    if f != dst {
      ReachesMonotone(w.db.followups, db.followups, dst, f);
      ReachesPrepend(db.followups, src, dst, f);
    }
  }

  // -------------------------------------------------------------- giving work up

  /** Abandoning takes held unfinished work out of the pool, expiry and reviving bring it back, cancelling ends a meta-task. */
  lemma GivingUpMeans(w: World, t: Id)
    requires HeldOk(w) && t in w.db.subtasks
    ensures var st := w.db.subtasks[t].state;
            && (t in w.held ==>
                  var w' := Exec(w, Abandon(t));
                  if st == Applied then w' == w else t !in w'.held && w'.db == WithState(w.db, t, Abandoned))
            && (var w' := Exec(w, ExpireClaim(t));
                t !in w'.held && w'.db == if st == Claimed || st == InProgress then WithState(w.db, t, Available) else w.db)
            && (st == Abandoned && w.db.subtasks[t].kind == Work ==>
                  Exec(w, Revive(t)).db == WithState(w.db, t, Available))
  {
  }

  ghost predicate Cancelled(db: Db, m: Id) { m in db.metas && db.metas[m] == MetaCancelled }

  lemma CancelMetaMeans(w: World, m: Id)
    ensures var db := Exec(w, CancelMeta(m)).db;
            && (m in w.db.metas ==> Cancelled(db, m)) && db.subtasks.Keys == w.db.subtasks.Keys
            && forall t :: t in w.db.subtasks ==>
                 var st := w.db.subtasks[t].state;
                 db.subtasks[t] == w.db.subtasks[t].(
                   state := if w.db.subtasks[t].metaTask != m || st in {Applied, Completed, Failed, Abandoned, Decided}
                            then st else Abandoned)
  {
  }

  /** Nothing of a cancelled meta-task is ever chosen again, scoped or not, in any run. */
  lemma {:induction false} CancelledNeverChosen(w: World, steps: seq<Step>, m: Id, q: Query, now: int, t: Id)
    requires Cancelled(w.db, m) && IsCandidate(Run(w, steps).db, q, now, Some(t))
    ensures Run(w, steps).db.subtasks[t].metaTask != m
  {
    CancelledStays(w, steps, m);
    ChosenMatchesQuery(Run(w, steps).db, q, now, t);
  }

  lemma {:induction false} CancelledStays(w: World, steps: seq<Step>, m: Id)
    requires Cancelled(w.db, m)
    ensures Cancelled(Run(w, steps).db, m)
  {
    if steps != [] { CancelledStays(w, steps[..|steps| - 1], m); }
  }

  // ------------------------------------------------------------------ stability

  lemma SettledIsFinal(r: Row, to: SubtaskState)
    requires Settled(r)
    ensures !SubtaskTransition(r.kind, r.state, to) && Terminal(r.state) && r.state !in {Claimed, InProgress}
  {
  }

  /** A subtask that has a claim is not in a state without one; the claim protocol keeps this. */
  ghost predicate HeldOk(w: World) {
    forall t :: t in w.held ==> t in w.db.subtasks && !Unclaimed(w.db.subtasks[t].state)
  }

  lemma StepHeldOk(w: World, step: Step)
    requires HeldOk(w)
    ensures HeldOk(Exec(w, step))
  {
  }

  lemma StepKeepsSettled(w: World, step: Step, t: Id)
    requires HeldOk(w) && SettledRow(w.db, t)
    ensures SettledRow(Exec(w, step).db, t)
  {
    if step.Move? { SettledIsFinal(w.db.subtasks[t], step.to); }
    SettledIsFinal(w.db.subtasks[t], Available);
  }

  lemma StepKeepsSatisfied(w: World, step: Step, dep: Id)
    requires HeldOk(w) && DependencySatisfied(w.db, dep)
    ensures DependencySatisfied(Exec(w, step).db, dep)
  {
    var db, db' := w.db, Exec(w, step).db;
    assert db.followups <= db'.followups;
    if SettledRow(db, dep) {
      StepKeepsSettled(w, step, dep);
    } else {
      var f :| f in Chain(db.followups, dep) && SettledRow(db, f);
      StepKeepsSettled(w, step, f);
      ChainIff(db.followups, dep, f);
      ReachesMonotone(db.followups, db'.followups, dep, f);
      ChainIff(db'.followups, dep, f);
    }
  }

  /** Once met, a dependency stays met through every run, abandoning included. */
  lemma {:induction false} SatisfiedForever(w: World, steps: seq<Step>, dep: Id)
    requires HeldOk(w) && DependencySatisfied(w.db, dep)
    ensures HeldOk(Run(w, steps)) && DependencySatisfied(Run(w, steps).db, dep)
  {
    if steps != [] {
      var init := steps[..|steps| - 1];
      SatisfiedForever(w, init, dep);
      StepKeepsSatisfied(Run(w, init), steps[|steps| - 1], dep);
      StepHeldOk(Run(w, init), steps[|steps| - 1]);
    }
  }

  /** So a subtask whose dependencies were met at some point passes the gate ever after. */
  lemma {:induction false} ReadyForever(w: World, steps: seq<Step>, t: Id)
    requires HeldOk(w) && Sound(w.db) && t in w.db.subtasks && DependenciesSatisfied(w.db, t)
    ensures DependenciesSatisfied(Run(w, steps).db, t)
  {
    DepsUnchanged(w, steps, t);
    forall e | e in Run(w, steps).db.deps && e.0 == t ensures DependencySatisfied(Run(w, steps).db, e.1) {
      SatisfiedForever(w, steps, e.1);
    }
  }

  /** Existing subtasks keep the dependencies they were created with. */
  lemma {:induction false} DepsUnchanged(w: World, steps: seq<Step>, t: Id)
    requires Sound(w.db) && t in w.db.subtasks
    ensures t in Run(w, steps).db.subtasks
    ensures forall d :: (t, d) in Run(w, steps).db.deps <==> (t, d) in w.db.deps
  {
    if steps != [] { DepsUnchanged(w, steps[..|steps| - 1], t); }
  }
}
