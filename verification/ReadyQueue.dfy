/**
 The ready queue: claiming with a fence per item, requeueing what went stale, and
 the proof parser that later reads the rows back.
 */
module ReadyQueue {
  import opened Text
  import opened Lifecycle

  datatype Item = Item(artifact: string, subtask: Id, state: QueueState, claimedBy: Option<Id>,
                       fence: Option<int>, deadline: Option<int>, enqueuedAt: int)

  /** What claiming reads of a subtask and of its meta-task. */
  datatype SubtaskView = SubtaskView(schedulable: bool, state: SubtaskState, artifact: Option<string>)

  datatype Db = Db(queue: map<Id, Item>, sessions: map<Id, SessionState>, subtasks: map<Id, SubtaskView>)

  /** `validate_tokenish`. */
  predicate ValidToken(s: string) {
    && Trim(s) != "" && Utf8Length(s) <= 256
    && forall i :: 0 <= i < |s| ==> !IsControl(s[i]) && !IsWhitespace(s[i])
  }

  /** A token is a non-empty text of at most 256 bytes without whitespace and control characters. */
  lemma ValidTokenIff(s: string)
    ensures ValidToken(s) <==>
            s != "" && |Utf8(s)| <= 256 && forall i :: 0 <= i < |s| ==> !IsControl(s[i]) && !IsWhitespace(s[i])
  {
    Utf8LengthIs(s);
    if s != "" && !IsWhitespace(s[0]) && !IsWhitespace(s[|s| - 1]) { assert Trim(s) == s; }
  }

  // ---------------------------------------------------------------- statements

  /** `claimed_by_session_token = NULL, claim_lease_deadline = NULL`; the fence stays. */
  function Leave(item: Item, to: QueueState): Item { item.(state := to, claimedBy := None, deadline := None) }

  /** Ready for apply, with the artifact the item was queued for. */
  predicate Claimable(item: Item, view: SubtaskView) {
    view.schedulable && view.state == ReadyForApply && view.artifact == Some(item.artifact)
  }

  /** The item once a claim attempt found it no longer claimable. */
  function Drop(item: Item, view: SubtaskView): Item {
    Leave(item, if view.schedulable then Superseded else QueueCancelled)
  }

  function NextFence(item: Item): int { (match item.fence case Some(f) => f case None => 0) + 1 }

  function Take(item: Item, s: Id, deadline: int): Item {
    item.(state := InFlight, claimedBy := Some(s), fence := Some(NextFence(item)), deadline := Some(deadline))
  }

  datatype Claimed = Granted(db: Db, fence: int) | Dropped(db: Db) | Rejected

  /** `claim_ready_queue_item`. */
  function Claim(db: Db, q: Id, s: Id, duration: int, tick: int): Claimed {
    if q !in db.queue || !QueueTransition(db.queue[q].state, InFlight) || db.queue[q].subtask !in db.subtasks then Rejected
    else
      var item, view := db.queue[q], db.subtasks[db.queue[q].subtask];
      if !Claimable(item, view) then Dropped(db.(queue := db.queue[q := Drop(item, view)]))
      else if tick + duration < 0 then Rejected
      else Granted(db.(queue := db.queue[q := Take(item, s, tick + duration)]), NextFence(item))
  }

  /**
   What claiming makes of a queued item. One whose meta-task is closed is cancelled, one whose
   subtask moved on or has another artifact is superseded, and the rest is granted: then exactly
   the claimant, with the next fence and before the deadline, may mark it applied.
   */
  lemma ClaimMeans(db: Db, q: Id, s: Id, duration: int, tick: int)
    requires q in db.queue && db.queue[q].state == Queued && db.queue[q].subtask in db.subtasks
    ensures var item, view := db.queue[q], db.subtasks[db.queue[q].subtask];
            var dropped := item.(claimedBy := None, deadline := None);
            var fence := if item.fence.Some? then item.fence.value + 1 else 1;
            match Claim(db, q, s, duration, tick)
            case Dropped(db') =>
              && db' == db.(queue := db'.queue)
              && ((!view.schedulable && db'.queue == db.queue[q := dropped.(state := QueueCancelled)])
                  || (view.schedulable && (view.state != ReadyForApply || view.artifact != Some(item.artifact))
                      && db'.queue == db.queue[q := dropped.(state := Superseded)]))
            case Granted(db', granted) =>
              && view == SubtaskView(true, ReadyForApply, Some(item.artifact)) && granted == fence
              && db' == db.(queue := db'.queue) && q in db'.queue && db'.queue == db.queue[q := db'.queue[q]]
              && (forall s', f', tick' :: ApplyAccepted(db', q, s', f', tick', true) <==>
                    s' == s && f' == fence && tick' < tick + duration)
              && db'.queue[q].artifact == item.artifact && db'.queue[q].subtask == item.subtask
              && db'.queue[q].enqueuedAt == item.enqueuedAt
            case Rejected => view == SubtaskView(true, ReadyForApply, Some(item.artifact)) && tick + duration < 0
  {
  }

  /** An in-flight row whose lease ended, or whose claimant is stale, gone or unknown. */
  predicate StaleItem(sessions: map<Id, SessionState>, item: Item, tick: int) {
    item.state == InFlight && (LeaseOver(item, tick) || ClaimantGone(sessions, item) || ClaimantUnknown(sessions, item))
  }

  predicate LeaseOver(item: Item, tick: int) { item.deadline.Some? && item.deadline.value <= tick }

  predicate ClaimantGone(sessions: map<Id, SessionState>, item: Item) {
    && item.claimedBy.Some? && item.claimedBy.value in sessions
    && sessions[item.claimedBy.value] in {Stale, Exited}
  }

  predicate ClaimantUnknown(sessions: map<Id, SessionState>, item: Item) {
    !(item.claimedBy.Some? && item.claimedBy.value in sessions)
  }

  function Requeue(db: Db, tick: int): Db {
    db.(queue := map q | q in db.queue ::
          if StaleItem(db.sessions, db.queue[q], tick) then Leave(db.queue[q], Queued) else db.queue[q])
  }

  /** `mark_applied` on this table; `evidence` stands for its checks of other tables. */
  predicate ApplyAccepted(db: Db, q: Id, s: Id, fence: int, tick: int, evidence: bool) {
    && evidence && q in db.queue && QueueTransition(db.queue[q].state, QueueApplied)
    && db.queue[q].claimedBy == Some(s) && db.queue[q].fence == Some(fence)
    && db.queue[q].deadline.Some? && db.queue[q].deadline.value > tick
  }

  /** Superseding or cancelling those of the given items that are still open. */
  function Retire(db: Db, items: set<Id>, to: QueueState): Db {
    db.(queue := map q | q in db.queue ::
          if q in items && db.queue[q].state in {Queued, InFlight} then Leave(db.queue[q], to) else db.queue[q])
  }

  // ------------------------------------------------------------- claiming the next

  predicate IsQueued(db: Db, q: Id) { q in db.queue && db.queue[q].state == Queued }

  predicate IsClaimable(db: Db, q: Id) {
    IsQueued(db, q) && db.queue[q].subtask in db.subtasks && Claimable(db.queue[q], db.subtasks[db.queue[q].subtask])
  }

  /** Every queued item passed over was unclaimable, was dropped, and nothing else changed. */
  predicate PassedOver(db: Db, db': Db, passed: set<Id>) {
    && db'.sessions == db.sessions && db'.subtasks == db.subtasks && db'.queue.Keys == db.queue.Keys
    && (forall q :: q in passed ==> IsQueued(db, q) && db.queue[q].subtask in db.subtasks && !IsClaimable(db, q))
    && (forall q :: q in db.queue ==>
          db'.queue[q] == if q in passed then Drop(db.queue[q], db.subtasks[db.queue[q].subtask]) else db.queue[q])
  }

  /** Claimable, no claimable item older, every older queued item passed over, nothing younger passed over. */
  ghost predicate OldestClaimable(db: Db, q: Id, passed: set<Id>) {
    && IsClaimable(db, q)
    && (forall p :: IsClaimable(db, p) ==> db.queue[q].enqueuedAt <= db.queue[p].enqueuedAt)
    && (forall p :: IsQueued(db, p) && db.queue[p].enqueuedAt < db.queue[q].enqueuedAt ==> p in passed)
    && (forall p :: p in passed ==> IsQueued(db, p) && db.queue[p].enqueuedAt <= db.queue[q].enqueuedAt)
  }

  ghost function QueuedIds(queue: map<Id, Item>): set<Id> { set q | q in queue && queue[q].state == Queued }

  predicate Oldest(db: Db, q: Id) {
    IsQueued(db, q) && forall p :: p in db.queue && IsQueued(db, p) ==> db.queue[q].enqueuedAt <= db.queue[p].enqueuedAt
  }

  ghost predicate Passing(db: Db, mid: Db, passed: set<Id>) {
    && PassedOver(db, mid, passed)
    && forall p, q :: p in passed && IsQueued(mid, q) ==> db.queue[p].enqueuedAt <= mid.queue[q].enqueuedAt
  }

  lemma PassNext(db: Db, mid: Db, passed: set<Id>, q: Id)
    requires Passing(db, mid, passed) && Oldest(mid, q) && mid.queue[q].subtask in mid.subtasks
    requires !Claimable(mid.queue[q], mid.subtasks[mid.queue[q].subtask])
    ensures var mid' := mid.(queue := mid.queue[q := Drop(mid.queue[q], mid.subtasks[mid.queue[q].subtask])]);
            Passing(db, mid', passed + {q}) && |QueuedIds(mid'.queue)| < |QueuedIds(mid.queue)|
  {
    var mid' := mid.(queue := mid.queue[q := Drop(mid.queue[q], mid.subtasks[mid.queue[q].subtask])]);
    assert q !in passed;
    assert QueuedIds(mid'.queue) == QueuedIds(mid.queue) - {q};
    assert forall p :: IsQueued(mid', p) ==> IsQueued(mid, p) && mid'.queue[p] == mid.queue[p];
  }

  lemma PassWon(db: Db, mid: Db, passed: set<Id>, q: Id)
    requires Passing(db, mid, passed) && Oldest(mid, q) && IsClaimable(mid, q)
    ensures OldestClaimable(db, q, passed)
  {
    assert q !in passed && db.queue[q] == mid.queue[q];
    forall p | IsQueued(db, p) && p !in passed ensures db.queue[q].enqueuedAt <= db.queue[p].enqueuedAt {
      assert IsQueued(mid, p);
    }
  }

  lemma PassAll(db: Db, mid: Db, passed: set<Id>)
    requires Passing(db, mid, passed) && forall q :: q in mid.queue ==> mid.queue[q].state != Queued
    ensures forall q :: IsQueued(db, q) ==> q in passed
  {
    forall q | IsQueued(db, q) ensures q in passed {
      assert mid.queue[q].state != Queued;
    }
  }

  datatype Next = Won(q: Id, fence: int) | Nothing | Aborted

  class QueueStore {
    var queue: map<Id, Item>
    var sessions: map<Id, SessionState>
    var subtasks: map<Id, SubtaskView>

    function Tables(): Db
      reads this
    {
      Db(queue, sessions, subtasks)
    }

    constructor (db: Db)
      ensures Tables() == db
    {
      queue, sessions, subtasks := db.queue, db.sessions, db.subtasks;
    }

    /** The three queries, joined, sorted and without duplicates. */
    method LoadStale(tick: int) returns (candidates: seq<string>)
      ensures forall q: Id :: q.text in candidates <==> q in queue && StaleItem(sessions, queue[q], tick)
    {
      var expired := Rows(set q | q in queue && queue[q].state == InFlight && LeaseOver(queue[q], tick));
      var gone := Rows(set q | q in queue && queue[q].state == InFlight && ClaimantGone(sessions, queue[q]));
      var unknown := Rows(set q | q in queue && queue[q].state == InFlight && ClaimantUnknown(sessions, queue[q]));
      candidates := SortedUnique(expired + gone + unknown);
      forall q: Id ensures q.text in candidates <==> q.text in expired || q.text in gone || q.text in unknown {}
    }

    /**
     One guarded update for each stale row. The last sort, by age, only orders updates of
     different rows and is left out.
     */
    method RequeueStaleReadyQueueClaims(tick: int)
      modifies this`queue
      ensures Tables() == Requeue(old(Tables()), tick)
    {
      var candidates := LoadStale(tick);
      ghost var start := queue;
      forall i | 0 <= i < |candidates| ensures Id(candidates[i]) in start {
        assert Id(candidates[i]).text in candidates;
      }
      var i := 0;
      while i < |candidates|
        invariant 0 <= i <= |candidates| && queue.Keys == start.Keys
        invariant forall q :: q in start ==>
                    queue[q] == if q.text in candidates[..i] then Leave(start[q], Queued) else start[q]
      {
        var q := Id(candidates[i]);
        assert q.text in candidates;
        if queue[q].state == InFlight { queue := queue[q := Leave(queue[q], Queued)]; }
        assert candidates[..i + 1] == candidates[..i] + [candidates[i]];
        i := i + 1;
      }
      assert candidates[..i] == candidates;
      assert queue == Requeue(Db(start, sessions, subtasks), tick).queue;
    }

    method ClaimReadyQueueItem(q: Id, s: Id, duration: int, tick: int) returns (granted: Option<int>, failed: bool)
      modifies this`queue
      ensures match Claim(old(Tables()), q, s, duration, tick)
              case Granted(db, fence) => Tables() == db && granted == Some(fence) && !failed
              case Dropped(db) => Tables() == db && granted == None && !failed
              case Rejected => Tables() == old(Tables()) && failed
    {
      if q !in queue || !QueueTransition(queue[q].state, InFlight) || queue[q].subtask !in subtasks {
        return None, true;
      }
      var item, view := queue[q], subtasks[queue[q].subtask];
      if !view.schedulable {
        if queue[q].state == Queued { queue := queue[q := Leave(item, QueueCancelled)]; }
        return None, false;
      }
      if view.state != ReadyForApply || view.artifact != Some(item.artifact) {
        if queue[q].state == Queued { queue := queue[q := Leave(item, Superseded)]; }
        return None, false;
      }
      if tick + duration < 0 { return None, true; }
      var fence := (match item.fence case Some(f) => f case None => 0) + 1;
      queue := queue[q := item.(state := InFlight, claimedBy := Some(s), fence := Some(fence),
                                deadline := Some(tick + duration))];
      return Some(fence), false;
    }

    /** The oldest queued row, as the ordered query picks it. */
    method OrderedReadyQueueCandidate() returns (r: Option<Id>)
      ensures r.None? ==> forall q :: q in queue ==> queue[q].state != Queued
      ensures r.Some? ==> Oldest(Tables(), r.value)
    {
      r := None;
      var rest := queue.Keys;
      while rest != {}
        invariant rest <= queue.Keys
        invariant r.Some? ==> IsQueued(Tables(), r.value)
        invariant forall p :: IsQueued(Tables(), p) && p !in rest ==>
                    r.Some? && queue[r.value].enqueuedAt <= queue[p].enqueuedAt
        decreases |rest|
      {
        var q :| q in rest;
        if queue[q].state == Queued && (r.None? || queue[q].enqueuedAt < queue[r.value].enqueuedAt) { r := Some(q); }
        rest := rest - {q};
      }
    }

    /**
     The claim loop: it grants the oldest claimable item, drops every queued item it passes
     over and touches nothing else, or drops all queued items when none is claimable.
     */
    method ClaimNextReadyQueueItem(s: Id, duration: int, tick: int) returns (r: Next, ghost passed: set<Id>)
      modifies this`queue
      ensures r.Aborted? ==> Tables() == old(Tables())
      ensures r.Nothing? ==> PassedOver(old(Tables()), Tables(), passed)
      ensures r.Nothing? ==> forall q :: IsQueued(old(Tables()), q) ==> q in passed
      ensures r.Won? ==> OldestClaimable(old(Tables()), r.q, passed)
      ensures r.Won? ==> exists mid ::
                PassedOver(old(Tables()), mid, passed) && Claim(mid, r.q, s, duration, tick) == Granted(Tables(), r.fence)
    {
      ghost var start := Tables();
      var before := queue;
      passed := {};
      var next := OrderedReadyQueueCandidate();
      while next.Some?
        invariant sessions == start.sessions && subtasks == start.subtasks
        invariant Passing(start, Tables(), passed)
        invariant next.None? ==> forall q :: q in queue ==> queue[q].state != Queued
        invariant next.Some? ==> Oldest(Tables(), next.value)
        decreases |QueuedIds(queue)|
      {
        var q := next.value;
        ghost var mid := Tables();
        var granted, failed := ClaimReadyQueueItem(q, s, duration, tick);
        if failed {
          queue := before;
          return Aborted, {};
        }
        if granted.Some? {
          PassWon(start, mid, passed, q);
          return Won(q, granted.value), passed;
        }
        PassNext(start, mid, passed, q);
        passed := passed + {q};
        next := OrderedReadyQueueCandidate();
      }
      PassAll(start, Tables(), passed);
      r := Nothing;
    }
  }

  // --------------------------------------------------------------- proof parser

  /** `ReadyQueueProofClaimEvidence`. */
  datatype Evidence =
    | Absent(last: Option<int>)
    | ActiveClaim(session: Id, fence: int, deadline: int)
    | AppliedClaim(fence: int)
    | Forbidden

  /** `ReadyQueueProofLifecycle`. */
  datatype ProofRow =
    | LQueued(last: Option<int>) | LInFlight(session: Id, fence: int, deadline: int) | LApplied(fence: int)
    | LSuperseded(last: Option<int>) | LCancelled(last: Option<int>)

  datatype Parsed<T> = Ok(value: T) | Bad

  /** `ReadyQueueProofClaimEvidence::from_raw_for_state`. */
  function EvidenceFor(item: Item): Parsed<Evidence> {
    match item.state
    case InFlight =>
      if item.claimedBy.None? || !ValidToken(item.claimedBy.value.text) then Bad
      else if item.fence.None? || item.fence.value <= 0 then Bad
      else if item.deadline.None? || item.deadline.value < 0 then Bad
      else Ok(ActiveClaim(item.claimedBy.value, item.fence.value, item.deadline.value))
    case QueueApplied =>
      if item.claimedBy.Some? || item.deadline.Some? then Ok(Forbidden)
      else if item.fence.None? || item.fence.value <= 0 then Bad
      else Ok(AppliedClaim(item.fence.value))
    case _ =>
      if item.claimedBy.Some? || item.deadline.Some? then Ok(Forbidden)
      else if item.fence.Some? && item.fence.value <= 0 then Bad
      else Ok(Absent(item.fence))
  }

  /** `ReadyQueueProofLifecycle::from_parts`. */
  function LifecycleFor(state: QueueState, e: Evidence): Parsed<ProofRow> {
    match state
    case Queued => if e.Absent? then Ok(LQueued(e.last)) else Bad
    case InFlight => if e.ActiveClaim? then Ok(LInFlight(e.session, e.fence, e.deadline)) else Bad
    case QueueApplied => if e.AppliedClaim? then Ok(LApplied(e.fence)) else Bad
    case Superseded => if e.Absent? then Ok(LSuperseded(e.last)) else Bad
    case QueueCancelled => if e.Absent? then Ok(LCancelled(e.last)) else Bad
  }

  function Parse(item: Item): Parsed<ProofRow> {
    match EvidenceFor(item)
    case Bad => Bad
    case Ok(e) => LifecycleFor(item.state, e)
  }

  function StateOf(l: ProofRow): QueueState {
    match l
    case LQueued(_) => Queued
    case LInFlight(_, _, _) => InFlight
    case LApplied(_) => QueueApplied
    case LSuperseded(_) => Superseded
    case LCancelled(_) => QueueCancelled
  }

  function ActiveOf(l: ProofRow): Option<(Id, int, int)> {
    match l case LInFlight(s, f, d) => Some((s, f, d)) case _ => None
  }

  function FenceOf(l: ProofRow): Option<int> {
    match ActiveOf(l)
    case Some((_, fence, _)) => Some(fence)
    case None =>
      match l
      case LQueued(last) => last
      case LSuperseded(last) => last
      case LCancelled(last) => last
      case LInFlight(_, _, _) => None
      case LApplied(fence) => Some(fence)
  }

  function AppliedFenceOf(l: ProofRow): Option<int> { match l case LApplied(fence) => Some(fence) case _ => None }

  /** The claim columns a row of each state may have. */
  predicate ShapeOk(item: Item) {
    && (item.fence.Some? ==> item.fence.value > 0)
    && (match item.state
        case InFlight =>
          && item.claimedBy.Some? && ValidToken(item.claimedBy.value.text)
          && item.fence.Some? && item.deadline.Some? && item.deadline.value >= 0
        case QueueApplied => item.claimedBy.None? && item.deadline.None? && item.fence.Some?
        case _ => item.claimedBy.None? && item.deadline.None?)
  }

  /** The parser accepts exactly the well-shaped rows and gives every column back unchanged. */
  lemma ParseIff(item: Item)
    ensures Parse(item).Ok? <==> ShapeOk(item)
    ensures Parse(item).Ok? ==>
              var l := Parse(item).value;
              && StateOf(l) == item.state && FenceOf(l) == item.fence
              && ActiveOf(l) == (if item.state == InFlight
                                 then Some((item.claimedBy.value, item.fence.value, item.deadline.value)) else None)
              && AppliedFenceOf(l) == (if item.state == QueueApplied then item.fence else None)
  {
  }

  // ---------------------------------------------------------------------- runs

  datatype Step =
    | Enqueue(q: Id, artifact: string, subtask: Id, now: int)
    | ClaimItem(q: Id, s: Id, duration: int, tick: int)
    | RequeueStale(tick: int)
    | MarkApplied(q: Id, s: Id, fence: int, tick: int, evidence: bool)
    | RetireItems(items: set<Id>, cancelled: bool)
    | SetSession(s: Id, state: SessionState)
    | SetSubtask(t: Id, view: SubtaskView)

  datatype Grant = Grant(q: Id, session: Id, fence: int)

  datatype Outcome = Outcome(db: Db, grant: Option<Grant>)

  function Exec(db: Db, step: Step): Outcome {
    match step
    case Enqueue(q, artifact, subtask, now) =>
      if q in db.queue then Outcome(db, None)
      else
        var db1 := Retire(db, (set p | p in db.queue && db.queue[p].subtask == subtask), Superseded);
        Outcome(db1.(queue := db1.queue[q := Item(artifact, subtask, Queued, None, None, None, now)]), None)
    case ClaimItem(q, s, duration, tick) =>
      if !ValidToken(s.text) then Outcome(db, None)
      else
        (match Claim(db, q, s, duration, tick)
         case Granted(db', fence) => Outcome(db', Some(Grant(q, s, fence)))
         case Dropped(db') => Outcome(db', None)
         case Rejected => Outcome(db, None))
    case RequeueStale(tick) => Outcome(Requeue(db, tick), None)
    case MarkApplied(q, s, fence, tick, evidence) =>
      Outcome(if ApplyAccepted(db, q, s, fence, tick, evidence)
              then db.(queue := db.queue[q := Leave(db.queue[q], QueueApplied)]) else db, None)
    case RetireItems(items, cancelled) =>
      Outcome(Retire(db, items, if cancelled then QueueCancelled else Superseded), None)
    case SetSession(s, state) => Outcome(db.(sessions := db.sessions[s := state]), None)
    case SetSubtask(t, view) => Outcome(db.(subtasks := db.subtasks[t := view]), None)
  }

  function Run(steps: seq<Step>): Db {
    if steps == [] then Db(map[], map[], map[]) else Exec(Run(steps[..|steps| - 1]), steps[|steps| - 1]).db
  }

  /** What was granted for one item, in order. */
  function Grants(steps: seq<Step>, q: Id): seq<Grant> {
    if steps == [] then []
    else
      var o := Exec(Run(steps[..|steps| - 1]), steps[|steps| - 1]);
      Grants(steps[..|steps| - 1], q) + GrantFor(o, q)
  }

  function GrantFor(o: Outcome, q: Id): seq<Grant> {
    if o.grant.Some? && o.grant.value.q == q then [o.grant.value] else []
  }

  // ------------------------------------------------------------ moves and the table

  function StateAt(db: Db, q: Id): Option<QueueState> { if q in db.queue then Some(db.queue[q].state) else None }

  /** The step changes the state of an item that exists. */
  predicate Moves(db: Db, step: Step, q: Id) {
    q in db.queue && StateAt(Exec(db, step).db, q) != StateAt(db, q)
  }

  /** In flight past its deadline, or without a claimant that is a known active session. */
  predicate OutOfHands(db: Db, item: Item, tick: int) {
    && item.state == InFlight
    && ((item.deadline.Some? && item.deadline.value <= tick) || item.claimedBy.None?
        || item.claimedBy.value !in db.sessions || db.sessions[item.claimedBy.value] != Active)
  }

  /**
   A move obeys the transition table if and only if it is not made by requeueing; and what
   requeueing moves is exactly the stale items, from in flight to queued.
   */
  lemma MoveIff(db: Db, step: Step, q: Id)
    requires q in db.queue
    ensures q in Exec(db, step).db.queue
    ensures Moves(db, step, q) ==>
              (QueueTransition(db.queue[q].state, Exec(db, step).db.queue[q].state) <==> !step.RequeueStale?)
    ensures step.RequeueStale? ==> (Moves(db, step, q) <==> OutOfHands(db, db.queue[q], step.tick))
    ensures step.RequeueStale? && Moves(db, step, q) ==>
              db.queue[q].state == InFlight && Exec(db, step).db.queue[q].state == Queued
  {
  }

  /** A new item is queued as asked for and is then the only open one of its subtask. */
  lemma EnqueueMeans(db: Db, q: Id, artifact: string, subtask: Id, now: int)
    requires q !in db.queue
    ensures var db' := Exec(db, Enqueue(q, artifact, subtask, now)).db;
            && q in db'.queue && db'.queue[q] == Item(artifact, subtask, Queued, None, None, None, now)
            && db'.queue.Keys == db.queue.Keys + {q}
            && forall p :: p in db.queue ==>
                 db'.queue[p] == if db.queue[p].subtask == subtask && db.queue[p].state in {Queued, InFlight}
                                 then db.queue[p].(state := Superseded, claimedBy := None, deadline := None)
                                 else db.queue[p]
  {
  }

  /** Marking applied, superseding and cancelling close the items named, with their fences kept, and no others. */
  lemma CloseMeans(db: Db, step: Step, q: Id)
    requires q in db.queue && (step.MarkApplied? || step.RetireItems?)
    ensures var item := db.queue[q];
            var closed := item.(claimedBy := None, deadline := None);
            q in Exec(db, step).db.queue && Exec(db, step).db.queue[q] ==
            match step
            case MarkApplied(p, s, fence, tick, evidence) =>
              if p == q && ApplyAccepted(db, q, s, fence, tick, evidence) then closed.(state := QueueApplied) else item
            case RetireItems(items, cancelled) =>
              if q in items && (item.state == Queued || item.state == InFlight)
              then closed.(state := if cancelled then QueueCancelled else Superseded) else item
            case _ => item
  {
  }

  /** So over every run an item moves by the table between two requeues that found it stale. */
  lemma RunMoves(steps: seq<Step>, i: int, q: Id)
    requires 0 <= i < |steps| && q in Run(steps[..i]).queue
    ensures var before, after := Run(steps[..i]), Run(steps[..i + 1]);
            && q in after.queue
            && (after.queue[q].state == before.queue[q].state
                || (QueueTransition(before.queue[q].state, after.queue[q].state) && !steps[i].RequeueStale?)
                || (steps[i].RequeueStale? && OutOfHands(before, before.queue[q], steps[i].tick)
                    && before.queue[q].state == InFlight && after.queue[q].state == Queued))
  {
    assert steps[..i + 1][..i] == steps[..i];
    MoveIff(Run(steps[..i]), steps[i], q);
  }

  /** Applied, superseded and cancelled items never move again. */
  lemma {:induction false} ClosedItemStays(steps: seq<Step>, i: int, q: Id)
    requires 0 <= i <= |steps| && q in Run(steps[..i]).queue && Run(steps[..i]).queue[q].state !in {Queued, InFlight}
    ensures q in Run(steps).queue && Run(steps).queue[q].state == Run(steps[..i]).queue[q].state
    decreases |steps|
  {
    if i == |steps| {
      assert steps[..i] == steps;
    } else {
      var n := |steps| - 1;
      assert steps[..n][..i] == steps[..i];
      ClosedItemStays(steps[..n], i, q);
      assert steps[..n + 1] == steps;
      RunMoves(steps, n, q);
    }
  }

  /** Enqueue, claim for ten milliseconds, and look again at tick ten. */
  function RequeueRun(q: Id, t: Id, s: Id, artifact: string): seq<Step> {
    [SetSubtask(t, SubtaskView(true, ReadyForApply, Some(artifact))), SetSession(s, Active), Enqueue(q, artifact, t, 0),
     ClaimItem(q, s, 10, 0), RequeueStale(10)]
  }

  /** The move outside the table is reached, for every item and every valid claimant. */
  lemma RequeueMoveReached(q: Id, t: Id, s: Id, artifact: string)
    requires ValidToken(s.text)
    ensures var steps := RequeueRun(q, t, s, artifact);
            && StateAt(Run(steps[..4]), q) == Some(InFlight) && StateAt(Run(steps), q) == Some(Queued)
            && !QueueTransition(InFlight, Queued)
  {
    var steps := RequeueRun(q, t, s, artifact);
    assert steps[..5] == steps;
    assert forall i :: 0 <= i < 5 ==> steps[..i + 1][..i] == steps[..i];
    var view := SubtaskView(true, ReadyForApply, Some(artifact));
    assert Run(steps[..1]) == Db(map[], map[], map[][t := view]);
    var db2 := Run(steps[..2]);
    assert db2 == Db(map[], map[][s := Active], map[][t := view]);
    assert Retire(db2, {}, Superseded).queue == map[];
    var db3 := Run(steps[..3]);
    assert db3.queue[q] == Item(artifact, t, Queued, None, None, None, 0) && db3.subtasks == db2.subtasks;
    var db4 := Run(steps[..4]);
    assert db4.queue[q].state == InFlight && db4.queue[q].deadline == Some(10);
    MoveIff(db4, RequeueStale(10), q);
  }

  // ----------------------------------------------------------------- fences and shapes

  /** The row is well shaped and its fence counts the grants; in flight, the last grantee holds it. */
  ghost predicate ItemOk(db: Db, q: Id, grants: seq<Grant>) {
    && (forall k :: 0 <= k < |grants| ==> grants[k].fence == k + 1)
    && (q !in db.queue ==> grants == [])
    && (q in db.queue ==>
          && ShapeOk(db.queue[q])
          && db.queue[q].fence == (if grants == [] then None else Some(|grants|))
          && (db.queue[q].state == InFlight ==>
                grants != [] && db.queue[q].claimedBy == Some(grants[|grants| - 1].session)))
  }

  /** A statement that leaves the row alone, or moves it out of flight with its fence kept. */
  lemma LeaveItemOk(db: Db, db': Db, q: Id, grants: seq<Grant>, to: QueueState)
    requires ItemOk(db, q, grants) && (q in db'.queue <==> q in db.queue)
    requires q in db.queue ==>
               || db'.queue[q] == db.queue[q]
               || (db'.queue[q] == Leave(db.queue[q], to) && to != InFlight
                   && (to == QueueApplied ==> db.queue[q].fence.Some?))
    ensures ItemOk(db', q, grants)
  {
  }

  lemma ClaimItemOk(db: Db, q: Id, s: Id, duration: int, tick: int, grants: seq<Grant>)
    requires ItemOk(db, q, grants) && ValidToken(s.text)
    ensures match Claim(db, q, s, duration, tick)
            case Granted(db', fence) => ItemOk(db', q, grants + [Grant(q, s, fence)])
            case Dropped(db') => ItemOk(db', q, grants)
            case Rejected => true
  {
    match Claim(db, q, s, duration, tick)
    case Granted(db', fence) =>
      assert fence == |grants| + 1 && ShapeOk(db'.queue[q]);
    case _ =>
  }

  lemma StepItemOk(db: Db, step: Step, q: Id, grants: seq<Grant>)
    requires ItemOk(db, q, grants)
    ensures ItemOk(Exec(db, step).db, q, grants + GrantFor(Exec(db, step), q))
  {
    var o := Exec(db, step);
    if o.grant.None? || o.grant.value.q != q { assert grants + GrantFor(o, q) == grants; }
    match step
    case Enqueue(p, _, _, _) => if p != q { LeaveItemOk(db, o.db, q, grants, Superseded); }
    case ClaimItem(p, s, duration, tick) =>
      if p != q { LeaveItemOk(db, o.db, q, grants, Queued); }
      else if ValidToken(s.text) { ClaimItemOk(db, q, s, duration, tick, grants); }
    case RequeueStale(tick) => LeaveItemOk(db, o.db, q, grants, Queued);
    case MarkApplied(_, _, _, _, _) => LeaveItemOk(db, o.db, q, grants, QueueApplied);
    case RetireItems(_, cancelled) => LeaveItemOk(db, o.db, q, grants, if cancelled then QueueCancelled else Superseded);
    case SetSession(_, _) =>
    case SetSubtask(_, _) =>
  }

  /** In every run the fences granted for an item are 1, 2, 3, ... and its row is well shaped. */
  lemma {:induction false} RunItemOk(steps: seq<Step>, q: Id)
    ensures ItemOk(Run(steps), q, Grants(steps, q))
  {
    if steps != [] {
      var init := steps[..|steps| - 1];
      RunItemOk(init, q);
      StepItemOk(Run(init), steps[|steps| - 1], q, Grants(init, q));
    }
  }

  /** Every reachable row is accepted by the proof parser, which returns its columns. */
  lemma ReachableRowsParse(steps: seq<Step>, q: Id)
    requires q in Run(steps).queue
    ensures var item := Run(steps).queue[q];
            Parse(item).Ok? && StateOf(Parse(item).value) == item.state && FenceOf(Parse(item).value) == item.fence
  {
    RunItemOk(steps, q);
    ParseIff(Run(steps).queue[q]);
  }

  /** Only the latest grantee, with the latest fence, can mark an item applied. */
  lemma AppliedByLatestGrant(steps: seq<Step>, q: Id, s: Id, fence: int, tick: int)
    requires ApplyAccepted(Run(steps), q, s, fence, tick, true)
    ensures Grants(steps, q) != [] && Grants(steps, q)[|Grants(steps, q)| - 1] == Grant(q, s, fence)
  {
    RunItemOk(steps, q);
    GrantsAreFor(steps, q);
    HeldByLatest(Run(steps), q, Grants(steps, q), s, fence, tick);
  }

  lemma HeldByLatest(db: Db, q: Id, grants: seq<Grant>, s: Id, fence: int, tick: int)
    requires ItemOk(db, q, grants) && ApplyAccepted(db, q, s, fence, tick, true)
    requires forall k :: 0 <= k < |grants| ==> grants[k].q == q
    ensures grants != [] && grants[|grants| - 1] == Grant(q, s, fence)
  {
  }

  lemma {:induction false} GrantsAreFor(steps: seq<Step>, q: Id)
    ensures forall k :: 0 <= k < |Grants(steps, q)| ==> Grants(steps, q)[k].q == q
  {
    if steps != [] { GrantsAreFor(steps[..|steps| - 1], q); }
  }
}
