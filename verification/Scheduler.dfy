/**
 The scheduler: which subtask a claimant gets, when a dependency counts as met,
 and how subtasks and their dependencies come into being.
 */
module Scheduler {
  import opened Text
  import opened Lifecycle
  import opened Reachability

  datatype Row = Row(metaTask: Id, kind: SubtaskKind, state: SubtaskState, policy: CompletionPolicy,
                     priority: int, route: string, createdAt: int)

  /** `subtasks`, `subtask_dependencies`, `review_followup_subtasks` and `meta_tasks`. */
  datatype Db = Db(subtasks: map<Id, Row>, deps: Edges, followups: Edges, metas: map<Id, MetaTaskState>)

  // ------------------------------------------------------- dependency verdicts

  /** The terminal state the row's own completion policy asks for. */
  predicate Settled(r: Row) {
    || (r.kind == Review && r.state == Decided)
    || (r.policy == CanonicalApply && r.state == Applied)
    || (r.policy in {Direct, Reviewed} && r.state == Completed)
  }

  predicate SettledRow(db: Db, t: Id) { t in db.subtasks && Settled(db.subtasks[t]) }

  /** `DEPENDENCY_SATISFIED_SQL`, the shared fragment. */
  predicate DependencySatisfied(db: Db, dep: Id) {
    SettledRow(db, dep) || exists f :: f in Chain(db.followups, dep) && SettledRow(db, f)
  }

  /** `subtask_dependencies_satisfied`: no joined dependency row fails the fragment. */
  predicate DependenciesSatisfied(db: Db, t: Id) {
    !exists e :: e in db.deps && e.0 == t && e.1 in db.subtasks && !DependencySatisfied(db, e.1)
  }

  /** The gate as it is written out inside both work queries. */
  predicate InlinedGate(db: Db, t: Id) {
    !exists e :: e in db.deps && e.0 == t && e.1 in db.subtasks
                 && !Settled(db.subtasks[e.1])
                 && !exists f :: f in Chain(db.followups, e.1) && f in db.subtasks && Settled(db.subtasks[f])
  }

  lemma GatesAgree(db: Db, t: Id)
    ensures InlinedGate(db, t) <==> DependenciesSatisfied(db, t)
  {
    forall e | e in db.deps && e.1 in db.subtasks
      ensures DependencySatisfied(db, e.1) <==>
              Settled(db.subtasks[e.1])
              || exists f :: f in Chain(db.followups, e.1) && f in db.subtasks && Settled(db.subtasks[f])
    {
      if exists f :: f in Chain(db.followups, e.1) && SettledRow(db, f) {
        var f :| f in Chain(db.followups, e.1) && SettledRow(db, f);
        assert f in db.subtasks;
      }
      if exists f :: f in Chain(db.followups, e.1) && f in db.subtasks && Settled(db.subtasks[f]) {
        var f :| f in Chain(db.followups, e.1) && f in db.subtasks && Settled(db.subtasks[f]);
        assert SettledRow(db, f);
      }
    }
  }

  /** The columns a dependent waits for: decided reviews, applied canonical work, completed direct or reviewed work. */
  predicate SatisfyingColumns(kind: SubtaskKind, policy: CompletionPolicy, state: SubtaskState) {
    match state
    case Decided => kind == Review
    case Applied => policy == CanonicalApply
    case Completed => policy == Direct || policy == Reviewed
    case _ => false
  }

  /** In terms of walks: the dependency, or something reachable from it by follow-ups, has such columns. */
  lemma DependencySatisfiedIff(db: Db, dep: Id)
    ensures DependencySatisfied(db, dep) <==>
            exists f :: (f == dep || Reaches(db.followups, dep, f)) && f in db.subtasks
                        && SatisfyingColumns(db.subtasks[f].kind, db.subtasks[f].policy, db.subtasks[f].state)
  {
    forall f ensures f in Chain(db.followups, dep) <==> Reaches(db.followups, dep, f) {
      ChainIff(db.followups, dep, f);
    }
    forall f | f in db.subtasks
      ensures SettledRow(db, f) <==>
              SatisfyingColumns(db.subtasks[f].kind, db.subtasks[f].policy, db.subtasks[f].state)
    {
    }
  }

  /** Without follow-ups it is the row's own columns, so failed and abandoned work satisfies nobody. */
  lemma SatisfiedAloneIff(db: Db, dep: Id)
    requires forall e :: e in db.followups ==> e.0 != dep
    ensures DependencySatisfied(db, dep) <==>
            dep in db.subtasks &&
            var r := db.subtasks[dep];
            || (r.kind == Review && r.state == Decided) || (r.policy == CanonicalApply && r.state == Applied)
            || (r.policy != CanonicalApply && r.state == Completed)
    ensures dep in db.subtasks && db.subtasks[dep].state in {Failed, Abandoned} ==> !DependencySatisfied(db, dep)
  {
    assert Successors(db.followups, {dep}) == {};
    assert Chain(db.followups, dep) == {};
  }

  // ------------------------------------------------------------------ ordering

  function Min(a: int, b: int): int { if a < b then a else b }
  function Max(a: int, b: int): int { if a < b then b else a }

  const AGING_MS := 30000

  /** `MAX(priority - MIN(MAX(now - created_at, 0) / 30000, priority), 0)`. */
  function Effective(r: Row, now: int): int {
    Max(r.priority - Min(Max(now - r.createdAt, 0) / AGING_MS, r.priority), 0)
  }

  /** Strict order of the ORDER BY clauses; work is aged, reviews are not. */
  predicate Before(a: Row, b: Row, kind: SubtaskKind, now: int) {
    LexLess(if kind == Work then Effective(a, now) else 0, a.priority, a.createdAt,
            if kind == Work then Effective(b, now) else 0, b.priority, b.createdAt)
  }

  predicate LexLess(x: int, y: int, z: int, x': int, y': int, z': int) {
    x < x' || (x == x' && (y < y' || (y == y' && z < z')))
  }

  /** The order is total up to ties, so "not before" composes. */
  lemma NotBeforeTransitive(a: Row, b: Row, c: Row, kind: SubtaskKind, now: int)
    requires !Before(b, a, kind, now) && !Before(c, b, kind, now)
    ensures !Before(c, a, kind, now)
  {
    var ea, eb, ec := Effective(a, now), Effective(b, now), Effective(c, now);
  }

  lemma BeforeIrreflexive(a: Row, kind: SubtaskKind, now: int)
    ensures !Before(a, a, kind, now)
  {
    var ea := Effective(a, now);
  }

  lemma BeforeAsymmetric(a: Row, b: Row, kind: SubtaskKind, now: int)
    requires Before(a, b, kind, now)
    ensures !Before(b, a, kind, now)
  {
    var ea, eb := Effective(a, now), Effective(b, now);
  }

  /** Never overtaken by a later subtask that is not more urgent, at any time. */
  lemma NoOvertaking(a: Row, b: Row, now: int)
    requires 0 <= a.priority <= b.priority && a.createdAt < b.createdAt
    ensures Before(a, b, Work, now)
  {
  }

  /** A head start of (p - q + 1) aging periods beats a more urgent rival that is not fully aged. */
  lemma AgingBound(a: Row, b: Row, now: int)
    requires 0 <= b.priority < a.priority && a.createdAt <= now && b.createdAt <= now
    requires b.createdAt - a.createdAt >= (a.priority - b.priority + 1) * 30000
    requires Effective(b, now) > 0
    ensures Before(a, b, Work, now)
  {
  }

  /** One millisecond less is not enough: for every pair of priorities the rival can still win. */
  lemma AgingBoundTight(a: Row, b: Row)
    requires 0 < b.priority < a.priority
    requires b.createdAt - a.createdAt == (a.priority - b.priority + 1) * 30000 - 1
    ensures Effective(b, b.createdAt) > 0 && Before(b, a, Work, b.createdAt)
  {
  }

  /** Aging is not starvation freedom: a fully aged rival of smaller priority wins from then on. */
  lemma FullyAgedRivalWins(a: Row, b: Row, now: int, later: int)
    requires 0 <= b.priority < a.priority && Effective(b, now) == 0 && now <= later
    ensures Before(b, a, Work, later)
  {
  }

  /** A row is fully aged from `priority` aging periods after its creation. */
  lemma FullyAgedIff(r: Row, now: int)
    requires r.priority >= 0
    ensures Effective(r, now) == 0 <==> r.priority == 0 || now - r.createdAt >= r.priority * 30000
  {
  }

  /** From when both are fully aged the order is by priority, then age, and never changes again. */
  lemma EventualOrder(a: Row, b: Row, now: int, later: int)
    requires a.priority >= 0 && b.priority >= 0 && Effective(a, now) == 0 && Effective(b, now) == 0 && now <= later
    ensures Before(a, b, Work, later) <==>
            a.priority < b.priority || (a.priority == b.priority && a.createdAt < b.createdAt)
  {
    FullyAgedIff(a, now);
    FullyAgedIff(b, now);
    FullyAgedIff(a, later);
    FullyAgedIff(b, later);
  }

  // ----------------------------------------------------------------- the query

  datatype Query = Query(kind: SubtaskKind, state: SubtaskState, route: string, metaTask: Option<Id>)

  /** `meta_task_is_claimable`, and the JOIN condition of the unscoped queries. */
  predicate Claimable(db: Db, m: Id) { m in db.metas && db.metas[m] !in {MetaCompleted, MetaCancelled} }

  /** The WHERE clauses of `ordered_claim_candidate`. */
  predicate Eligible(db: Db, q: Query, t: Id) {
    && t in db.subtasks && q.kind != Cleanup
    && db.subtasks[t].kind == q.kind && db.subtasks[t].state == q.state && db.subtasks[t].route == q.route
    && (match q.metaTask
        case Some(m) => Claimable(db, m) && db.subtasks[t].metaTask == m
        case None => Claimable(db, db.subtasks[t].metaTask))
    && (q.kind == Work ==> InlinedGate(db, t))
  }

  /** A row that `ORDER BY ... LIMIT 1` may return; ties are broken arbitrarily. */
  ghost predicate IsCandidate(db: Db, q: Query, now: int, r: Option<Id>) {
    match r
    case None => forall t :: !Eligible(db, q, t)
    case Some(t) => Eligible(db, q, t)
                    && forall u :: Eligible(db, q, u) ==> !Before(db.subtasks[u], db.subtasks[t], q.kind, now)
  }

  lemma {:induction false} LeastOf(db: Db, kind: SubtaskKind, now: int, ids: set<Id>) returns (t: Id)
    requires ids != {} && ids <= db.subtasks.Keys
    ensures t in ids && forall u :: u in ids ==> !Before(db.subtasks[u], db.subtasks[t], kind, now)
    decreases |ids|
  {
    var x :| x in ids;
    var rest := ids - {x};
    t := x;
    if rest != {} {
      var r := LeastOf(db, kind, now, rest);
      if Before(db.subtasks[r], db.subtasks[x], kind, now) {
        BeforeAsymmetric(db.subtasks[r], db.subtasks[x], kind, now);
        t := r;
      } else {
        forall u | u in rest ensures !Before(db.subtasks[u], db.subtasks[x], kind, now) {
          NotBeforeTransitive(db.subtasks[x], db.subtasks[r], db.subtasks[u], kind, now);
        }
      }
    }
    forall u | u in ids ensures !Before(db.subtasks[u], db.subtasks[t], kind, now) {
      if u == x { BeforeIrreflexive(db.subtasks[x], kind, now); } else { assert u in rest; }
    }
  }

  /** The query has an answer on every store: a least eligible row, or none when there is none. */
  lemma CandidateExists(db: Db, q: Query, now: int) returns (r: Option<Id>)
    ensures IsCandidate(db, q, now, r)
    ensures r.Some? <==> exists t :: Eligible(db, q, t)
  {
    var ids := set t | t in db.subtasks && Eligible(db, q, t);
    if ids == {} {
      r := None;
      forall t ensures !Eligible(db, q, t) { assert t !in ids; }
    } else {
      var t := LeastOf(db, q.kind, now, ids);
      r := Some(t);
      forall u | Eligible(db, q, u) ensures !Before(db.subtasks[u], db.subtasks[t], q.kind, now) {
        assert u in ids;
      }
    }
  }

  /** A chosen work subtask passes the claim-time dependency check. */
  lemma ChosenWorkIsReady(db: Db, q: Query, now: int, t: Id)
    requires q.kind == Work && IsCandidate(db, q, now, Some(t))
    ensures DependenciesSatisfied(db, t)
  {
    GatesAgree(db, t);
  }

  /** No eligible subtask that is older and no less urgent is left behind by the choice. */
  lemma ChosenIsNotOvertaking(db: Db, q: Query, now: int, t: Id, u: Id)
    requires q.kind == Work && IsCandidate(db, q, now, Some(t)) && Eligible(db, q, u)
    requires 0 <= db.subtasks[u].priority <= db.subtasks[t].priority
    ensures db.subtasks[t].createdAt <= db.subtasks[u].createdAt
  {
    if db.subtasks[u].createdAt < db.subtasks[t].createdAt { NoOvertaking(db.subtasks[u], db.subtasks[t], now); }
  }

  /** A candidate is what was asked for: its kind, state and route, in the meta-task if one is named, an open one. */
  lemma ChosenMatchesQuery(db: Db, q: Query, now: int, t: Id)
    requires IsCandidate(db, q, now, Some(t))
    ensures t in db.subtasks &&
            var r := db.subtasks[t];
            && r.kind == q.kind && r.state == q.state && r.route == q.route
            && (q.metaTask.Some? ==> r.metaTask == q.metaTask.value)
            && r.metaTask in db.metas && (db.metas[r.metaTask] == Planning || db.metas[r.metaTask] == MetaActive)
  {
  }

  /** A chosen review leaves behind none of smaller priority and none of the same priority that is older. */
  lemma ChosenReviewIsFirst(db: Db, q: Query, now: int, t: Id, u: Id)
    requires q.kind == Review && IsCandidate(db, q, now, Some(t)) && u in db.subtasks && u != t
    requires var r := db.subtasks[u];
             && r.kind == Review && r.state == q.state && r.route == q.route && r.metaTask in db.metas
             && db.metas[r.metaTask] in {Planning, MetaActive} && (q.metaTask.Some? ==> r.metaTask == q.metaTask.value)
    ensures var r, chosen := db.subtasks[u], db.subtasks[t];
            chosen.priority < r.priority || (chosen.priority == r.priority && chosen.createdAt <= r.createdAt)
  {
    assert Eligible(db, q, u);
  }

  // ------------------------------------------------------------------- refresh

  predicate HasSubtasks(db: Db, m: Id) { exists t :: t in db.subtasks && db.subtasks[t].metaTask == m }

  predicate HasOpenSubtasks(db: Db, m: Id) {
    exists t :: t in db.subtasks && db.subtasks[t].metaTask == m && !Terminal(db.subtasks[t].state)
  }

  /** `refresh_meta_task_state`. */
  function Refresh(db: Db, m: Id): Db {
    if m !in db.metas || db.metas[m] == MetaCancelled then db
    else
      var desired := if !HasSubtasks(db, m) then Planning
                     else if !HasOpenSubtasks(db, m) then MetaCompleted else MetaActive;
      if db.metas[m] == desired then db else db.(metas := db.metas[m := desired])
  }

  /** Completed exactly when there are subtasks and all are terminal; cancelled is final; twice is once. */
  lemma RefreshMeans(db: Db, m: Id)
    requires m in db.metas
    ensures var db' := Refresh(db, m);
            && (db'.metas[m] == MetaCancelled <==> db.metas[m] == MetaCancelled)
            && (db.metas[m] != MetaCancelled ==>
                  && (db'.metas[m] == MetaCompleted <==>
                        HasSubtasks(db, m)
                        && forall t :: t in db.subtasks && db.subtasks[t].metaTask == m ==>
                             db.subtasks[t].state in {Applied, Completed, Failed, Abandoned, Decided})
                  && (db'.metas[m] == Planning <==> !HasSubtasks(db, m)))
            && Refresh(db', m) == db'
            && forall x :: x in db.metas && x != m ==> x in db'.metas && db'.metas[x] == db.metas[x]
  {
    var db' := Refresh(db, m);
    assert HasSubtasks(db', m) == HasSubtasks(db, m) && HasOpenSubtasks(db', m) == HasOpenSubtasks(db, m);
  }

  /** After a refresh an available, dependency-ready work subtask is visible to its scoped query. */
  lemma RefreshNeverHides(db: Db, m: Id, t: Id, route: string, now: int) returns (r: Option<Id>)
    requires m in db.metas && db.metas[m] != MetaCancelled
    requires t in db.subtasks && db.subtasks[t].metaTask == m && db.subtasks[t].route == route
    requires db.subtasks[t].kind == Work && db.subtasks[t].state == Available && DependenciesSatisfied(db, t)
    ensures var db', q := Refresh(db, m), Query(Work, Available, route, Some(m));
            Eligible(db', q, t) && IsCandidate(db', q, now, r) && r.Some?
  {
    var db' := Refresh(db, m);
    assert HasOpenSubtasks(db, m) && HasSubtasks(db, m);
    assert DependenciesSatisfied(db', t) by { SameVerdicts(db, db', t); }
    GatesAgree(db', t);
    assert Eligible(db', Query(Work, Available, route, Some(m)), t);
    r := CandidateExists(db', Query(Work, Available, route, Some(m)), now);
  }

  /** Verdicts depend on subtasks, dependencies and follow-ups only. */
  lemma SameVerdicts(db: Db, db': Db, t: Id)
    requires db' == db.(metas := db'.metas)
    ensures DependenciesSatisfied(db', t) <==> DependenciesSatisfied(db, t)
  {
    forall x ensures DependencySatisfied(db', x) <==> DependencySatisfied(db, x) {
      forall f ensures SettledRow(db', f) <==> SettledRow(db, f) {}
    }
  }

  // ------------------------------------------------------------------ creation

  const MAX_SUBTASK_DEPENDENCIES := 64

  /** First-seen order, repeats dropped. */
  function Dedupe(ids: seq<Id>): (r: seq<Id>)
    ensures NoRepeat(r) && forall x :: x in r <==> x in ids
  {
    if ids == [] then []
    else
      var init, last := Dedupe(ids[..|ids| - 1]), ids[|ids| - 1];
      assert forall x :: x in ids <==> x in ids[..|ids| - 1] || x == last;
      if last in init then init else init + [last]
  }

  /** Where an id occurs first. */
  function FirstAt(ids: seq<Id>, x: Id): (i: nat)
    requires x in ids
    ensures i < |ids| && ids[i] == x && x !in ids[..i]
  {
    if ids[0] == x then 0
    else
      assert x in ids[1..] && ids == [ids[0]] + ids[1..];
      assert ids[..1 + FirstAt(ids[1..], x)] == [ids[0]] + ids[1..][..FirstAt(ids[1..], x)];
      1 + FirstAt(ids[1..], x)
  }

  lemma FirstAtUnique(ids: seq<Id>, x: Id, i: nat)
    requires i < |ids| && ids[i] == x && x !in ids[..i]
    ensures FirstAt(ids, x) == i
  {
    var j := FirstAt(ids, x);
    forall k | 0 <= k < i ensures ids[k] != x { assert ids[..i][k] == ids[k]; }
    forall k | 0 <= k < j ensures ids[k] != x { assert ids[..j][k] == ids[k]; }
  }

  /** The kept ids are in the order of their first occurrences. */
  lemma {:induction false} DedupeFirstSeen(ids: seq<Id>, i: nat, j: nat)
    requires i < j < |Dedupe(ids)|
    ensures Dedupe(ids)[i] in ids && Dedupe(ids)[j] in ids
    ensures FirstAt(ids, Dedupe(ids)[i]) < FirstAt(ids, Dedupe(ids)[j])
  {
    var n := |ids| - 1;
    var init, r := Dedupe(ids[..n]), Dedupe(ids);
    assert r[i] in r && r[j] in r;
    FirstAtInit(ids, r[i]);
    FirstAtInit(ids, r[j]);
    if j < |init| {
      DedupeFirstSeen(ids[..n], i, j);
    } else {
      assert init[i] in init;
    }
  }

  lemma FirstAtInit(ids: seq<Id>, x: Id)
    requires x in ids
    ensures var n := |ids| - 1; FirstAt(ids, x) == if x in ids[..n] then FirstAt(ids[..n], x) else n
  {
    var n := |ids| - 1;
    if x in ids[..n] {
      var i := FirstAt(ids[..n], x);
      assert ids[..n][..i] == ids[..i];
      FirstAtUnique(ids, x, i);
    } else {
      assert ids == ids[..n] + [ids[n]];
      FirstAtUnique(ids, x, n);
    }
  }

  method DedupeSubtaskDependencies(ids: seq<Id>) returns (deduped: seq<Id>)
    ensures deduped == Dedupe(ids) && NoRepeat(deduped) && forall x :: x in deduped <==> x in ids
    ensures forall i, j :: 0 <= i < j < |deduped| ==> FirstAt(ids, deduped[i]) < FirstAt(ids, deduped[j])
  {
    deduped := [];
    var i := 0;
    while i < |ids|
      invariant 0 <= i <= |ids|
      invariant deduped == Dedupe(ids[..i])
    {
      assert ids[..i + 1][..i] == ids[..i];
      if ids[i] !in deduped { deduped := deduped + [ids[i]]; }
      i := i + 1;
    }
    assert ids[..i] == ids;
    forall i, j | 0 <= i < j < |deduped| ensures FirstAt(ids, deduped[i]) < FirstAt(ids, deduped[j]) {
      DedupeFirstSeen(ids, i, j);
    }
  }

  datatype Normalized = Dependencies(ids: seq<Id>) | TooMany | SelfDependency

  /** `normalize_subtask_dependencies`. */
  method NormalizeSubtaskDependencies(t: Id, ids: seq<Id>) returns (r: Normalized)
    ensures r == if |Dedupe(ids)| > MAX_SUBTASK_DEPENDENCIES then TooMany
                 else if t in ids then SelfDependency else Dependencies(Dedupe(ids))
  {
    var deduped := DedupeSubtaskDependencies(ids);
    if |deduped| > MAX_SUBTASK_DEPENDENCIES { return TooMany; }
    if t in deduped { return SelfDependency; }
    return Dependencies(deduped);
  }

  datatype CreateReq = CreateReq(t: Id, metaTask: Id, priority: int, policy: CompletionPolicy, route: string,
                                 dependsOn: seq<Id>, now: int)

  predicate CreateOk(db: Db, req: CreateReq) {
    && Claimable(db, req.metaTask) && req.t !in db.subtasks
    && |Dedupe(req.dependsOn)| <= MAX_SUBTASK_DEPENDENCIES
    && req.t !in req.dependsOn && forall d :: d in req.dependsOn ==> d in db.subtasks
  }

  function EdgesTo(t: Id, dependsOn: seq<Id>): Edges { set d | d in dependsOn :: (t, d) }

  /** `create_work_subtask_tx`: the row, its edges and the refreshed meta-task, or nothing. */
  function Create(db: Db, req: CreateReq): Db {
    if !CreateOk(db, req) then db
    else
      var row := Row(req.metaTask, Work, Available, req.policy, req.priority, req.route, req.now);
      Refresh(db.(subtasks := db.subtasks[req.t := row]), req.metaTask).(deps := db.deps + EdgesTo(req.t, req.dependsOn))
  }

  /**
   Creation takes at most 64 different dependencies, which exist and are not the subtask itself.
   Then there is one new available row with what was asked for and exactly its dependencies, its
   meta-task is active, and no other row, edge or meta-task has changed. Otherwise nothing has.
   */
  lemma CreateMeans(db: Db, req: CreateReq)
    ensures var db' := Create(db, req);
            if req.t !in db.subtasks && req.metaTask in db.metas && db.metas[req.metaTask] in {Planning, MetaActive}
               && |Dedupe(req.dependsOn)| <= 64 && forall d :: d in req.dependsOn ==> d in db.subtasks
            then && db'.subtasks == db.subtasks[req.t := db'.subtasks[req.t]] && req.t in db'.subtasks
                 && db'.metas == db.metas[req.metaTask := MetaActive] && db'.followups == db.followups
                 && (forall e :: e in db'.deps <==> e in db.deps || (e.0 == req.t && e.1 in req.dependsOn))
                 && var r := db'.subtasks[req.t];
                    && r.kind == Work && r.state == Available && r.metaTask == req.metaTask && r.policy == req.policy
                    && r.priority == req.priority && r.route == req.route && r.createdAt == req.now
            else db' == db
  {
    if CreateOk(db, req) {
      var row := Row(req.metaTask, Work, Available, req.policy, req.priority, req.route, req.now);
      var added := db.(subtasks := db.subtasks[req.t := row]);
      assert added.subtasks[req.t].metaTask == req.metaTask && !Terminal(added.subtasks[req.t].state);
      assert HasSubtasks(added, req.metaTask) && HasOpenSubtasks(added, req.metaTask);
      assert db.metas[req.metaTask := db.metas[req.metaTask]] == db.metas;
    }
  }
}
