/** Expiry one subtask at a time and in one sweep, and the statements that carry the claim steps out. */
module ClaimStore {
  import opened Text
  import opened Lifecycle
  import opened Claims
  import opened ClaimInvariants

  // ------------------------------------------------ closing in several pieces

  lemma CloseAllUnion(db: Db, a: set<Id>, b: set<Id>, to: ClaimState)
    ensures CloseAll(CloseAll(db, a, to), b, to) == CloseAll(db, a + b, to)
  {
    var db1, db2 := CloseAll(db, a, to), CloseAll(db, a + b, to);
    assert CloseClaims(db1.claims, b, to) == db2.claims;
    assert DetachSubtasks(db1.subtasks, b) == db2.subtasks;
    forall s | s in db.sessions
      ensures DetachSessions(db1.sessions, db1.claims, b)[s] == db2.sessions[s]
    {
      SessionUnion(db, a, b, to, s);
    }
    assert DetachSessions(db1.sessions, db1.claims, b) == db2.sessions;
  }

  lemma SessionUnion(db: Db, a: set<Id>, b: set<Id>, to: ClaimState, s: Id)
    requires s in db.sessions
    ensures DetachSessions(CloseAll(db, a, to).sessions, CloseAll(db, a, to).claims, b)[s] ==
            CloseAll(db, a + b, to).sessions[s]
  {
    var claims, session := CloseClaims(db.claims, a, to), db.sessions[s];
    assert DetachesSession(db.claims, a + b, s, session) <==>
           DetachesSession(db.claims, a, s, session) || DetachesSession(db.claims, b, s, session);
    assert DetachesSession(claims, b, s, session) <==> DetachesSession(db.claims, b, s, session);
  }

  /** A subtask has at most one held claim, so at most one to expire. */
  lemma ExpirableOnUnique(db: Db, t: Id, tick: int, c: Id)
    requires Consistent(db) && c in ExpirableOn(db, t, tick)
    ensures ExpirableOn(db, t, tick) == {c}
  {
    assert ClaimOk(db, c);
    forall d | d in ExpirableOn(db, t, tick) ensures d == c { assert ClaimOk(db, d); }
  }

  function ExpireEach(db: Db, ts: seq<Id>, tick: int): Db {
    if ts == [] then db else ExpireOn(ExpireEach(db, ts[..|ts| - 1], tick), ts[|ts| - 1], tick)
  }

  function ExpirableAmong(db: Db, ts: seq<Id>, tick: int): set<Id> {
    set c | c in db.claims && db.claims[c].subtask in ts && Expirable(db, c, tick)
  }

  /** Expiring a list of subtasks in turn closes their stale claims and nothing else, in any order. */
  lemma {:induction false} ExpireEachIsClose(db: Db, ts: seq<Id>, tick: int)
    ensures ExpireEach(db, ts, tick) == CloseAll(db, ExpirableAmong(db, ts, tick), Expired)
  {
    if ts == [] {
      assert ExpirableAmong(db, ts, tick) == {};
      CloseNothing(db);
    } else {
      var init, t := ts[..|ts| - 1], ts[|ts| - 1];
      ExpireEachIsClose(db, init, tick);
      var a, db1 := ExpirableAmong(db, init, tick), ExpireEach(db, init, tick);
      var b := ExpirableOn(db1, t, tick);
      CloseAllUnion(db, a, b, Expired);
      ExpirableSnoc(db, ts, tick);
    }
  }

  /** What is stale among a list is what is stale before its last subtask, and on that one after. */
  lemma ExpirableSnoc(db: Db, ts: seq<Id>, tick: int)
    requires ts != []
    ensures var init, t := ts[..|ts| - 1], ts[|ts| - 1];
            var a := ExpirableAmong(db, init, tick);
            a + ExpirableOn(CloseAll(db, a, Expired), t, tick) == ExpirableAmong(db, ts, tick)
  {
    var init, t := ts[..|ts| - 1], ts[|ts| - 1];
    var a := ExpirableAmong(db, init, tick);
    var db1 := CloseAll(db, a, Expired);
    var b := ExpirableOn(db1, t, tick);
    forall c | c in db.claims ensures c in a + b <==> c in ExpirableAmong(db, ts, tick) {
      assert db.claims[c].subtask in ts <==> db.claims[c].subtask in init || db.claims[c].subtask == t;
      if c !in a { assert db1.claims[c] == db.claims[c]; }
    }
  }

  lemma CloseNothing(db: Db)
    ensures CloseAll(db, {}, Expired) == db
  {
    assert CloseClaims(db.claims, {}, Expired) == db.claims;
    assert DetachSubtasks(db.subtasks, {}) == db.subtasks;
    assert DetachSessions(db.sessions, db.claims, {}) == db.sessions;
  }

  /** The sweep equals the per-subtask path over any list that names every subtask. */
  lemma SweepIsPerSubtask(db: Db, ts: seq<Id>, tick: int)
    requires Consistent(db) && forall t :: t in db.subtasks ==> t in ts
    ensures ExpireOld(db, tick) == ExpireEach(db, ts, tick)
  {
    ExpireEachIsClose(db, ts, tick);
    forall c | c in db.claims ensures db.claims[c].subtask in ts { assert ClaimOk(db, c); }
    assert ExpirableAmong(db, ts, tick) == AllExpirable(db, tick);
  }

  /** Expiring a subtask leaves no stale held claim on it: what is held is before its deadline and of an active session. */
  lemma ExpireOnLeavesNone(db: Db, t: Id, tick: int)
    requires Consistent(db)
    ensures ExpirableOn(ExpireOn(db, t, tick), t, tick) == {}
    ensures var db' := ExpireOn(db, t, tick);
            forall c :: HeldClaim(db'.claims, c) && db'.claims[c].subtask == t ==>
              db'.claims[c].deadline > tick && ActiveSession(db', db'.claims[c].owner)
  {
    var cs := ExpirableOn(db, t, tick);
    var db' := ExpireOn(db, t, tick);
    forall c | c in db'.claims && db'.claims[c].subtask == t
      ensures !Expirable(db', c, tick) && db'.claims[c].owner in db'.sessions
    {
      assert ClaimOk(db, c);
      assert c in cs || !Expirable(db, c, tick);
    }
  }

  // ------------------------------------------------------------ the batch loader

  /** ORDER BY created_at, claim_id. */
  predicate Before(claims: map<Id, Claim>, a: Id, b: Id)
    requires a in claims && b in claims
  {
    claims[a].createdAt < claims[b].createdAt
    || (claims[a].createdAt == claims[b].createdAt && Less(a.text, b.text))
  }

  predicate Ordered(claims: map<Id, Claim>, cs: seq<Id>) {
    && (forall i :: 0 <= i < |cs| ==> cs[i] in claims)
    && (forall i, j :: 0 <= i < j < |cs| ==> Before(claims, cs[i], cs[j]))
  }

  lemma BeforeTransitive(claims: map<Id, Claim>, a: Id, b: Id, c: Id)
    requires a in claims && b in claims && c in claims && Before(claims, a, b) && Before(claims, b, c)
    ensures Before(claims, a, c)
  {
    if Less(a.text, b.text) && Less(b.text, c.text) { LessTransitive(a.text, b.text, c.text); }
  }

  function InsertClaim(claims: map<Id, Claim>, c: Id, cs: seq<Id>): (r: seq<Id>)
    requires c in claims && Ordered(claims, cs) && c !in cs
    ensures Ordered(claims, r) && forall x :: x in r <==> x == c || x in cs
  {
    if cs == [] then [c]
    else if Before(claims, c, cs[0]) then
      assert forall j :: 0 < j < |cs| ==> Before(claims, c, cs[j]) by {
        forall j | 0 < j < |cs| ensures Before(claims, c, cs[j]) { BeforeTransitive(claims, c, cs[0], cs[j]); }
      }
      [c] + cs
    else
      assert Before(claims, cs[0], c) by { LessTotal(c.text, cs[0].text); }
      var r := InsertClaim(claims, c, cs[1..]);
      assert forall j :: 0 <= j < |r| ==> r[j] in r;
      assert forall x :: x in cs <==> x == cs[0] || x in cs[1..];
      [cs[0]] + r
  }

  /** Sort the deduplicated ids by creation. */
  function SortClaims(claims: map<Id, Claim>, texts: seq<string>): (r: seq<Id>)
    requires Ascending(texts) && forall x :: x in texts ==> Id(x) in claims
    ensures Ordered(claims, r) && forall c :: c in r <==> c.text in texts
  {
    if texts == [] then []
    else
      AscendingTail(texts);
      InsertClaim(claims, Id(texts[0]), SortClaims(claims, texts[1..]))
  }

  // -------------------------------------------------------------- the statements

  class Store {
    var clock: Option<int>
    var counters: map<Id, int>
    var claims: map<Id, Claim>
    var sessions: map<Id, Session>
    var subtasks: map<Id, Subtask>

    function Tables(): Db
      reads this
    {
      Db(clock, counters, claims, sessions, subtasks)
    }

    constructor (db: Db)
      ensures Tables() == db
    {
      clock, counters, claims, sessions, subtasks := db.clock, db.counters, db.claims, db.sessions, db.subtasks;
    }

    method AdvanceLeaseClock(wall: int) returns (tick: int)
      modifies this`clock
      ensures Tables() == Advance(old(Tables()), wall) && tick == Tick(Tables())
    {
      var excluded := if wall < 0 then 0 else wall;
      match clock {
        case None => clock := Some(excluded);
        case Some(last) => clock := Some(if last < excluded then excluded else last);
      }
      tick := clock.value;
    }

    method IssueFenceSeq(t: Id) returns (fence: int)
      modifies this`counters
      ensures Tables() == BumpCounter(old(Tables()), t)
      ensures fence == Issued(counters, t) == old(Issued(counters, t)) + 1
    {
      counters := counters[t := if t in counters then counters[t] + 1 else 2];
      fence := counters[t] - 1;
    }

    /** The loader: each stale held claim once, oldest first, ties by id. */
    method LoadExpirableClaims(tick: int) returns (cs: seq<Id>)
      requires Consistent(Tables())
      ensures Ordered(claims, cs)
      ensures forall i, j :: 0 <= i < j < |cs| ==>
                claims[cs[i]].createdAt < claims[cs[j]].createdAt
                || (claims[cs[i]].createdAt == claims[cs[j]].createdAt && Less(cs[i].text, cs[j].text))
      ensures forall c :: c in cs <==> c in AllExpirable(Tables(), tick)
      ensures forall c :: c in cs <==>
                && c in claims && claims[c].state == Held && claims[c].owner in sessions
                && (claims[c].deadline <= tick || sessions[claims[c].owner].state == Stale
                    || sessions[claims[c].owner].state == Exited)
    {
      var expired := Rows(set c | c in claims && claims[c].state == Held && claims[c].deadline <= tick);
      var orphaned := Rows(set c | c in claims && claims[c].state == Held && claims[c].owner in sessions
                                   && sessions[claims[c].owner].state in {Stale, Exited});
      var texts := SortedUnique(expired + orphaned);
      forall c: Id ensures c.text in texts <==> c in AllExpirable(Tables(), tick) {
        if c in claims { assert ClaimOk(Tables(), c); }
      }
      forall x | x in texts ensures Id(x) in claims { assert Id(x).text in texts; }
      cs := SortClaims(claims, texts);
    }

    /** `close_claim_and_detach`: the claim row alone. */
    method CloseClaim(c: Id, to: ClaimState) returns (ok: bool)
      modifies this`claims
      ensures ok == old(HeldClaim(claims, c))
      ensures claims == if ok then old(claims)[c := old(claims)[c].(state := to)] else old(claims)
    {
      ok := c in claims && claims[c].state == Held;
      if ok { claims := claims[c := claims[c].(state := to)]; }
    }

    /** The body of the expiry loops: close the claim, then detach its subtask and its session. */
    method ExpireClaim(c: Id)
      requires Consistent(Tables()) && HeldClaim(claims, c)
      modifies this
      ensures Tables() == CloseAll(old(Tables()), {c}, Expired)
    {
      assert ClaimOk(Tables(), c);
      var claim := claims[c];
      ghost var db := Tables();
      var ok := CloseClaim(c, Expired);
      if subtasks[claim.subtask].currentClaim == Some(c) {
        subtasks := subtasks[claim.subtask := Detached(subtasks[claim.subtask])];
      }
      if sessions[claim.owner].activeSubtask == Some(claim.subtask) {
        sessions := sessions[claim.owner := sessions[claim.owner].(activeSubtask := None)];
      }
      ExpireRows(db, c);
    }

    method ExpireClaimIfNeededForSubtask(t: Id, tick: int)
      requires Consistent(Tables())
      modifies this
      ensures Tables() == ExpireOn(old(Tables()), t, tick)
    {
      ghost var db := Tables();
      var stale := ExpirableOn(Tables(), t, tick);
      if stale == {} {
        CloseNothing(db);
        return;
      }
      var c :| c in stale;
      ExpirableOnUnique(db, t, tick, c);
      ExpireClaim(c);
    }

    /** Close the listed claims one by one. */
    method ExpireListed(stale: seq<Id>)
      requires Consistent(Tables()) && Ordered(claims, stale)
      requires forall c :: c in stale ==> HeldClaim(claims, c)
      modifies this
      ensures Tables() == CloseAll(old(Tables()), Listed(stale), Expired)
    {
      ghost var db := Tables();
      var i := 0;
      CloseNothing(db);
      while i < |stale|
        invariant 0 <= i <= |stale|
        invariant Tables() == CloseAll(db, Listed(stale[..i]), Expired)
        invariant Consistent(Tables())
      {
        CloseNext(db, stale, i);
        ExpireClaim(stale[i]);
        i := i + 1;
      }
      assert stale[..i] == stale;
    }

    /** The sweep loads every stale claim and closes each; its event refuses a negative time. */
    method ExpireOldClaims(wall: int) returns (expired: nat)
      requires Inv(Tables())
      modifies this
      ensures Tables() == ExpireOldStep(old(Tables()), wall) && Inv(Tables())
    {
      var start := Tables();
      var tick := AdvanceLeaseClock(wall);
      AdvanceInv(start, wall);
      ghost var db := Tables();
      var stale := LoadExpirableClaims(tick);
      assert Listed(stale) == AllExpirable(db, tick);
      assert stale != [] ==> stale[0] in Listed(stale);
      ExpireOldInv(db, tick);
      ExpireListed(stale);
      if stale != [] && wall < 0 {
        Rollback(start);
        return 0;
      }
      expired := |stale|;
    }

    /** `claim_selected_subtask_tx` after its expiry: check, issue a fence and write the three rows. */
    method SelectAndWrite(s: Id, t: Id, c: Id, duration: int, schedulable: bool, deps: bool, now: int)
      returns (r: ClaimReply)
      requires s in sessions
      modifies this
      ensures match Select(old(Tables()), s, t, c, duration, schedulable, deps, now)
              case Granted(db', fence, deadline) => Tables() == db' && r == Won(fence, deadline)
              case AlreadyClaimed(partial) => Tables() == partial && r == HeldByOther
              case IllegalTransition(partial) => Tables() == partial && r == BadTransition
              case Refused => r == NotAllowed
    {
      var tick := match clock case Some(x) => x case None => 0;
      if t !in subtasks || !schedulable || !CanClaim(sessions[s].role, subtasks[t].kind) { return NotAllowed; }
      var subtask := subtasks[t];
      if subtask.kind == Work && !deps { return BadTransition; }
      if exists h :: h in claims && claims[h].subtask == t && claims[h].state == Held { return HeldByOther; }
      if !SubtaskTransition(subtask.kind, subtask.state, Claimed) { return BadTransition; }
      if c in claims || tick + duration < 0 { return NotAllowed; }
      var fence := IssueFenceSeq(t);
      claims := claims[c := Claim(t, s, fence, tick + duration, Held, now)];
      if subtasks[t].currentClaim.Some? {
        claims := claims - {c};
        assert claims == old(claims);
        return BadTransition;
      }
      subtasks := subtasks[t := subtasks[t].(state := Claimed, currentClaim := Some(c))];
      if sessions[s].activeSubtask.Some? || sessions[s].state != Active { return NotAllowed; }
      sessions := sessions[s := sessions[s].(activeSubtask := Some(t))];
      r := Won(fence, tick + duration);
    }

    /** Undo every write of the transaction. */
    method Rollback(db: Db)
      modifies this
      ensures Tables() == db
    {
      clock, counters, claims, sessions, subtasks := db.clock, db.counters, db.claims, db.sessions, db.subtasks;
    }

    /** `claim_subtask` and, with commitsNoClaim, `claim_next_subtask` once a candidate is chosen. */
    method ClaimSubtask(s: Id, t: Id, c: Id, duration: int, schedulable: bool, deps: bool, wall: int, commitsNoClaim: bool)
      returns (r: ClaimReply)
      requires Inv(Tables())
      modifies this
      ensures var o := Acquire(old(Tables()), s, t, c, duration, schedulable, deps, wall, commitsNoClaim);
              Tables() == o.db && Inv(Tables()) && (r.Won? <==> o.grant.Some?)
              && (r.Won? ==> r.fence == o.grant.value.fence)
    {
      AcquireInv(Tables(), s, t, c, duration, schedulable, deps, wall, commitsNoClaim);
      var start := Tables();
      AdvanceInv(start, wall);
      var tick := AdvanceLeaseClock(wall);
      if wall < 0 || !(s in sessions && sessions[s].state == Active) || duration <= 0
         || sessions[s].activeSubtask.Some?
      {
        Rollback(start);
        return NotAllowed;
      }
      ExpireClaimIfNeededForSubtask(t, tick);
      r := SelectAndWrite(s, t, c, duration, schedulable, deps, wall);
      if r.NotAllowed? || (!r.Won? && !commitsNoClaim) { Rollback(start); }
    }

    /** `renew_claim` after its guard. */
    method RenewClaim(s: Id, c: Id, fence: int, extend: int, wall: int) returns (ok: bool)
      requires Inv(Tables())
      modifies this
      ensures Tables() == RenewStep(old(Tables()), s, c, fence, extend, wall) && Inv(Tables())
      ensures ok ==> c in old(claims) && c in claims && claims[c].deadline > old(claims)[c].deadline
    {
      RenewInv(Tables(), s, c, fence, extend, wall);
      var start := Tables();
      var tick := AdvanceLeaseClock(wall);
      var guard := RequireCurrentClaim(Tables(), s, c, fence, tick);
      if !guard.Current? || wall < 0 || extend <= 0 {
        Rollback(start);
        return false;
      }
      var renewed := (if guard.claim.deadline < tick then tick else guard.claim.deadline) + extend;
      claims := claims[c := claims[c].(deadline := renewed)];
      ok := true;
    }
  }

  datatype ClaimReply = Won(fence: int, deadline: int) | HeldByOther | BadTransition | NotAllowed

  function Listed(cs: seq<Id>): set<Id> { set c | c in cs }

  /** After the earlier claims of an ordered list are closed, the next is still held, and closing it extends the set. */
  lemma CloseNext(db: Db, stale: seq<Id>, i: nat)
    requires Ordered(db.claims, stale) && i < |stale| && HeldClaim(db.claims, stale[i])
    requires Consistent(CloseAll(db, Listed(stale[..i]), Expired))
    ensures var now := CloseAll(db, Listed(stale[..i]), Expired);
            && HeldClaim(now.claims, stale[i])
            && CloseAll(now, {stale[i]}, Expired) == CloseAll(db, Listed(stale[..i + 1]), Expired)
            && Consistent(CloseAll(now, {stale[i]}, Expired))
  {
    forall j | 0 <= j < i ensures stale[j] != stale[i] {
      assert Before(db.claims, stale[j], stale[i]);
      LessIrreflexive(stale[i].text);
    }
    assert Listed(stale[..i + 1]) == Listed(stale[..i]) + {stale[i]};
    CloseAllUnion(db, Listed(stale[..i]), {stale[i]}, Expired);
    CloseAllConsistent(CloseAll(db, Listed(stale[..i]), Expired), {stale[i]}, Expired);
  }

  /** The three guarded updates of one expiry are the set form for one claim. */
  lemma ExpireRows(db: Db, c: Id)
    requires Consistent(db) && HeldClaim(db.claims, c)
    ensures ClaimOk(db, c)
    ensures var t, s := db.claims[c].subtask, db.claims[c].owner;
            CloseAll(db, {c}, Expired) ==
            db.(claims := db.claims[c := db.claims[c].(state := Expired)],
                subtasks := db.subtasks[t := Detached(db.subtasks[t])],
                sessions := db.sessions[s := db.sessions[s].(activeSubtask := None)])
  {
    var t, s := db.claims[c].subtask, db.claims[c].owner;
    assert ClaimOk(db, c);
    assert DetachesSession(db.claims, {c}, s, db.sessions[s]);
    forall x | x in db.subtasks && x != t ensures db.subtasks[x].currentClaim != Some(c) {
      assert SubtaskOk(db, x);
    }
    assert CloseClaims(db.claims, {c}, Expired) == db.claims[c := db.claims[c].(state := Expired)];
    assert DetachSubtasks(db.subtasks, {c}) == db.subtasks[t := Detached(db.subtasks[t])];
    assert DetachSessions(db.sessions, db.claims, {c}) ==
           db.sessions[s := db.sessions[s].(activeSubtask := None)];
  }
}
