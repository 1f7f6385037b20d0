/**
 What a refusal for an expired lease is worth. An operation advances the clock, asks the guard
 at the advanced tick, and on a refusal rolls the advance back with everything else.
 */
module ClaimRefusals {
  import opened Text
  import opened Lifecycle
  import opened Claims
  import opened ClaimInvariants
  import opened ClaimSafety

  predicate Refuses(db: Db, s: Id, c: Id, fence: int, wall: int) {
    RequireCurrentClaim(Advance(db, wall), s, c, fence, Handed(db, wall)) == LeaseExpired
  }

  predicate Admits(db: Db, t: Id, s: Id, c: Id, fence: int, wall: int) {
    Accepted(Advance(db, wall), t, s, c, fence, Handed(db, wall))
  }

  /** The operations that ask the guard first. */
  predicate Guarded(step: Step) {
    step.Start? || step.Renew? || step.Release? || step.Abandon? || step.Conclude? || step.Publish? || step.Decide?
  }

  /** A refusal of any kind commits nothing, so the next operation is handed a tick as if it had not happened. */
  lemma RefusalLeavesNoTrace(db: Db, step: Step)
    requires Guarded(step)
    requires !RequireCurrentClaim(Advance(db, step.wall), step.s, step.c, step.fence, Handed(db, step.wall)).Current?
    ensures Exec(db, step) == NoGrant(db)
  {
  }

  // ------------------------------------------------------- what keeps a fence refused

  /**
   A refused fence, and any older one, stays refused as long as no renewal, and not the operation
   asking, is handed a tick before the deadline. All other operations may come at any wall time.
   */
  lemma RefusalStands(db: Db, s: Id, c: Id, fence: int, wall: int, after: seq<Step>, s': Id, c': Id, f': int, wall': int)
    requires Inv(db) && Refuses(db, s, c, fence, wall) && f' <= fence
    requires LateRenewals(db, after, db.claims[c].deadline)
    requires Handed(Run(db, after), wall') >= db.claims[c].deadline
    ensures !Admits(Run(db, after), db.claims[c].subtask, s', c', f', wall')
  {
    HeldEndsBy(db, c);
    var db' := Run(db, after);
    RunProgress(db, after, db.claims[c].deadline);
    ProgressKeepsEnd(db, db', db.claims[c].subtask, fence, db.claims[c].deadline);
    assert c' in db'.claims && db'.claims[c'].state == Held ==> HeldClaim(db'.claims, c');
  }

  // --------------------------------------------------------------- in wall-clock terms

  lemma {:induction false} WallsMakeLate(db: Db, steps: seq<Step>, wall: int, bound: int)
    requires Inv(db) && bound <= Handed(db, wall)
    requires forall step :: step in steps && step.Renew? ==> wall <= Max(step.wall, 0)
    ensures LateRenewals(db, steps, bound)
  {
    if steps != [] {
      var init, last := steps[..|steps| - 1], steps[|steps| - 1];
      assert last in steps;
      RunInv(db, init);
      WallsMakeLate(db, init, wall, bound);
    }
  }

  /** So it stays refused while the wall clock does not step back behind the refusal. */
  lemma RefusalStandsForward(db: Db, s: Id, c: Id, fence: int, wall: int, after: seq<Step>,
                             s': Id, c': Id, f': int, wall': int)
    requires Inv(db) && Refuses(db, s, c, fence, wall) && f' <= fence && wall <= wall'
    requires forall step :: step in after && step.Renew? ==> wall <= step.wall
    ensures !Admits(Run(db, after), db.claims[c].subtask, s', c', f', wall')
  {
    WallsMakeLate(db, after, wall, db.claims[c].deadline);
    RunInv(db, after);
    RefusalStands(db, s, c, fence, wall, after, s', c', f', wall');
  }

  /**
   For an arbitrary wall clock: a refused fence or an older one can be admitted again, at some
   time after some run, if and only if the committed clock has not reached the deadline.
   */
  lemma RefusedReturnsIff(db: Db, s: Id, c: Id, fence: int, wall: int)
    requires Inv(db) && Refuses(db, s, c, fence, wall)
    ensures (exists after, s', c', f', wall' ::
               f' <= fence && Admits(Run(db, after), db.claims[c].subtask, s', c', f', wall'))
            <==> Max(Tick(db), 0) < db.claims[c].deadline
  {
    var t, deadline := db.claims[c].subtask, db.claims[c].deadline;
    if Max(Tick(db), 0) < deadline {
      assert Run(db, []) == db;
      assert Admits(Run(db, []), t, s, c, fence, 0);
    } else {
      forall after, s', c', f', wall' | f' <= fence ensures !Admits(Run(db, after), t, s', c', f', wall') {
        WallsMakeLate(db, after, 0, deadline);
        RunInv(db, after);
        RefusalStands(db, s, c, fence, wall, after, s', c', f', wall');
      }
    }
  }

  /** Such a return, for any ids: refused at time 10, the lease that ends at 7 is renewed at time 5 and runs to 10. */
  lemma RefusedFenceReturns(s: Id, t: Id, c: Id, m: Id)
    ensures var db := Run(EMPTY, OneClaimSteps(s, t, c, m));
            && Refuses(db, s, c, 1, 10) && Exec(db, Renew(s, c, 1, 3, 10)).db == db
            && var db' := Run(db, [Renew(s, c, 1, 3, 10), Renew(s, c, 1, 3, 5)]);
               && db'.claims == map[c := Claim(t, s, 1, 10, Held, 0)]
               && Accepted(db', t, s, c, 1, Tick(db')) && Admits(db', t, s, c, 1, 9)
  {
    OneClaimRun(s, t, c, m);
    var db := Run(EMPTY, OneClaimSteps(s, t, c, m));
    RunSnoc(db, [], Renew(s, c, 1, 3, 10));
    RunSnoc(db, [Renew(s, c, 1, 3, 10)], Renew(s, c, 1, 3, 5));
    assert [] + [Renew(s, c, 1, 3, 10)] == [Renew(s, c, 1, 3, 10)];
    assert [Renew(s, c, 1, 3, 10)] + [Renew(s, c, 1, 3, 5)] == [Renew(s, c, 1, 3, 10), Renew(s, c, 1, 3, 5)];
  }
}
