/** Overlap conflict rows: one per unordered pair of reservations, reopened by record, closed by resolve. */
module Conflicts {
  import opened Text

  datatype Resolution = Open | Acknowledged | Resolved

  /** The `payload_json` fields the resolve statements look at are kept as columns. */
  datatype Conflict = Conflict(objectId: string, reservationId: string, overlappingId: string,
                               detectedAt: int, resolution: Resolution)

  type Table = map<string, Conflict>

  const ID_PREFIX := "conflict_reservation_overlap_"

  function OrderedPair(a: string, b: string): (string, string) {
    if AtMost(a, b) then (a, b) else (b, a)
  }

  function ConflictId(a: string, b: string): string {
    var (left, right) := OrderedPair(a, b);
    ID_PREFIX + left + "_" + right
  }

  // ------------------------------------------------------------ statements

  /** `INSERT ... ON CONFLICT(conflict_id) DO UPDATE`: the object id is never rewritten. */
  function RecordOne(t: Table, id: string, other: string, now: int): Table {
    var key := ConflictId(id, other);
    if key in t then
      t[key := t[key].(reservationId := id, overlappingId := other, detectedAt := now, resolution := Open)]
    else
      t[key := Conflict(OrderedPair(id, other).0, id, other, now, Open)]
  }

  function RecordAll(t: Table, id: string, others: seq<string>, now: int): Table {
    if others == [] then t
    else RecordOne(RecordAll(t, id, others[..|others| - 1], now), id, others[|others| - 1], now)
  }

  function Close(c: Conflict, now: int): Conflict { c.(resolution := Resolved, detectedAt := now) }

  function ResolveFor(t: Table, id: string, now: int): (r: Table)
    ensures r.Keys == t.Keys
  {
    map k | k in t ::
      if t[k].resolution != Resolved && (t[k].reservationId == id || t[k].overlappingId == id)
      then Close(t[k], now) else t[k]
  }

  class ConflictStore {
    var rows: Table

    constructor ()
      ensures rows == map[]
    {
      rows := map[];
    }

    method RecordReservationOverlapConflicts(id: string, overlaps: seq<string>, now: int)
      modifies this
      ensures rows == RecordAll(old(rows), id, overlaps, now)
    {
      if overlaps == [] { return; }
      var i := 0;
      while i < |overlaps|
        invariant 0 <= i <= |overlaps|
        invariant rows == RecordAll(old(rows), id, overlaps[..i], now)
      {
        var key := ConflictId(id, overlaps[i]);
        assert overlaps[..i + 1][..i] == overlaps[..i];
        if key in rows {
          rows := rows[key := rows[key].(reservationId := id, overlappingId := overlaps[i],
                                         detectedAt := now, resolution := Open)];
        } else {
          rows := rows[key := Conflict(OrderedPair(id, overlaps[i]).0, id, overlaps[i], now, Open)];
        }
        i := i + 1;
      }
      assert overlaps[..i] == overlaps;
    }

    /** Two UPDATE statements, one per side of the pair. */
    method ResolveReservationOverlapConflicts(id: string, now: int)
      modifies this
      ensures rows == ResolveFor(old(rows), id, now)
    {
      rows := map k | k in rows ::
        if rows[k].resolution != Resolved && rows[k].reservationId == id then Close(rows[k], now) else rows[k];
      rows := map k | k in rows ::
        if rows[k].resolution != Resolved && rows[k].overlappingId == id then Close(rows[k], now) else rows[k];
    }
  }

  // ----------------------------------------------------------- id collisions

  predicate IsHex(c: char) { '0' <= c <= '9' || 'a' <= c <= 'f' }

  /** `make_id("reservation")`: the prefix and 32 lower-case hex digits. */
  predicate MadeId(id: string) {
    && |id| == 44 && "reservation_" <= id
    && forall i :: 12 <= i < 44 ==> IsHex(id[i])
  }

  predicate SamePair(a: string, b: string, c: string, d: string) {
    (a == c && b == d) || (a == d && b == c)
  }

  lemma OrderedPairSymmetric(a: string, b: string)
    ensures OrderedPair(a, b) == OrderedPair(b, a)
    ensures ConflictId(a, b) == ConflictId(b, a)
  {
    LessTotal(a, b);
    if Less(a, b) && Less(b, a) { LessTransitive(a, b, a); LessIrreflexive(a); }
  }

  /** The id is the fixed prefix and the two ids in order. */
  lemma ConflictIdText(a: string, b: string)
    requires Less(a, b)
    ensures ConflictId(a, b) == ConflictId(b, a) == "conflict_reservation_overlap_" + a + "_" + b
  {
    OrderedPairSymmetric(a, b);
  }

  /** For made ids the conflict id names the unordered pair and nothing else. */
  lemma ConflictIdIff(a: string, b: string, c: string, d: string)
    requires MadeId(a) && MadeId(b) && MadeId(c) && MadeId(d)
    ensures ConflictId(a, b) == ConflictId(c, d) <==> SamePair(a, b, c, d)
  {
    OrderedPairSymmetric(a, b);
    OrderedPairSymmetric(c, d);
    if ConflictId(a, b) == ConflictId(c, d) {
      var (l, r) := OrderedPair(a, b);
      var (l', r') := OrderedPair(c, d);
      var id, n := ConflictId(a, b), |ID_PREFIX|;
      assert id[n..n + 44] == l && id[n + 45..] == r;
      assert id[n..n + 44] == l' && id[n + 45..] == r';
    }
  }

  /** Arbitrary ids can collide, so the made shape is needed. */
  lemma ConflictIdCollides()
    ensures ConflictId("a", "b_c") == ConflictId("a_b", "c") && !SamePair("a", "b_c", "a_b", "c")
  {
    assert AtMost("a", "b_c") && AtMost("a_b", "c");
    assert ID_PREFIX + "a" + "_" + "b_c" == ID_PREFIX + "a_b" + "_" + "c";
    assert "a" != "a_b";
  }

  // -------------------------------------------------------------------- runs

  datatype Call =
    | Record(id: string, overlaps: seq<string>, now: int)
    | Resolve(id: string, now: int)

  function Apply(t: Table, call: Call): Table {
    match call
    case Record(id, overlaps, now) => RecordAll(t, id, overlaps, now)
    case Resolve(id, now) => ResolveFor(t, id, now)
  }

  function Run(calls: seq<Call>): Table {
    if calls == [] then map[] else Apply(Run(calls[..|calls| - 1]), calls[|calls| - 1])
  }

  predicate MadeCall(call: Call) {
    MadeId(call.id) && (call.Record? ==> forall o :: o in call.overlaps ==> MadeId(o))
  }

  predicate RecordsPair(call: Call, a: string, b: string) {
    call.Record? && exists o :: o in call.overlaps && SamePair(call.id, o, a, b)
  }

  predicate Touches(call: Call, a: string, b: string) {
    RecordsPair(call, a, b) || (call.Resolve? && (call.id == a || call.id == b))
  }

  /** The last call that touched the pair. */
  function LastTouch(calls: seq<Call>, a: string, b: string): Option<Call> {
    if calls == [] then None
    else if Touches(calls[|calls| - 1], a, b) then Some(calls[|calls| - 1])
    else LastTouch(calls[..|calls| - 1], a, b)
  }

  /** Each row is filed under its own pair, with the smaller id as its object. */
  predicate Keyed(t: Table) {
    forall k :: k in t ==>
      && MadeId(t[k].reservationId) && MadeId(t[k].overlappingId)
      && k == ConflictId(t[k].reservationId, t[k].overlappingId)
      && t[k].objectId == OrderedPair(t[k].reservationId, t[k].overlappingId).0
  }

  lemma RecordOneKeyed(t: Table, id: string, other: string, now: int)
    requires Keyed(t) && MadeId(id) && MadeId(other)
    ensures Keyed(RecordOne(t, id, other, now))
  {
    var key := ConflictId(id, other);
    if key in t {
      ConflictIdIff(t[key].reservationId, t[key].overlappingId, id, other);
      OrderedPairSymmetric(id, other);
    }
  }

  /** The row names the requesting reservation first and the other one of the pair second. */
  predicate RequestedBy(c: Conflict, id: string, a: string, b: string) {
    c.reservationId == id && c.overlappingId == if id == a then b else a
  }

  /** What recording does to one pair's row. */
  lemma {:induction false} RecordAllOn(t: Table, id: string, others: seq<string>, now: int, a: string, b: string)
    requires Keyed(t) && MadeId(id) && MadeId(a) && MadeId(b)
    requires forall o :: o in others ==> MadeId(o)
    ensures Keyed(RecordAll(t, id, others, now))
    ensures var t', k := RecordAll(t, id, others, now), ConflictId(a, b);
            if exists o :: o in others && SamePair(id, o, a, b)
            then k in t' && t'[k].resolution == Open && t'[k].detectedAt == now && RequestedBy(t'[k], id, a, b)
            else (k in t' <==> k in t) && (k in t ==> t'[k] == t[k])
  {
    if others != [] {
      var init, o := others[..|others| - 1], others[|others| - 1];
      assert o in others && forall x :: x in others <==> x in init || x == o;
      RecordAllOn(t, id, init, now, a, b);
      RecordOneOn(RecordAll(t, id, init, now), id, o, now, a, b);
    }
  }

  lemma RecordOneOn(t: Table, id: string, o: string, now: int, a: string, b: string)
    requires Keyed(t) && MadeId(id) && MadeId(o) && MadeId(a) && MadeId(b)
    ensures var t', k := RecordOne(t, id, o, now), ConflictId(a, b);
            && Keyed(t')
            && if SamePair(id, o, a, b)
               then k in t' && t'[k].resolution == Open && t'[k].detectedAt == now && RequestedBy(t'[k], id, a, b)
               else (k in t' <==> k in t) && (k in t ==> t'[k] == t[k])
  {
    RecordOneKeyed(t, id, o, now);
    ConflictIdIff(id, o, a, b);
  }

  lemma ResolveKeyed(t: Table, id: string, now: int)
    requires Keyed(t)
    ensures Keyed(ResolveFor(t, id, now))
  {
  }

  /** Resolving changes exactly the unresolved rows whose pair holds the id. */
  lemma ResolveOn(t: Table, id: string, now: int, a: string, b: string)
    requires Keyed(t) && MadeId(id) && MadeId(a) && MadeId(b)
    ensures var t', k := ResolveFor(t, id, now), ConflictId(a, b);
            && (k in t' <==> k in t)
            && (k in t ==>
                  if (id == a || id == b) && t[k].resolution != Resolved
                  then t'[k] == t[k].(resolution := Resolved, detectedAt := now) else t'[k] == t[k])
  {
    var k := ConflictId(a, b);
    if k in t { ConflictIdIff(t[k].reservationId, t[k].overlappingId, a, b); }
  }

  lemma {:induction false} RunKeyed(calls: seq<Call>)
    requires forall c :: c in calls ==> MadeCall(c)
    ensures Keyed(Run(calls))
  {
    if calls != [] {
      var init, last := calls[..|calls| - 1], calls[|calls| - 1];
      assert last in calls && forall c :: c in init ==> c in calls;
      RunKeyed(init);
      if last.Record? { RecordAllOn(Run(init), last.id, last.overlaps, last.now, last.id, last.id); }
      else { ResolveKeyed(Run(init), last.id, last.now); }
    }
  }

  /** At most one row per unordered pair, in every run. */
  lemma OneRowPerPair(calls: seq<Call>, k: string, k': string)
    requires forall c :: c in calls ==> MadeCall(c)
    requires k in Run(calls) && k' in Run(calls)
    requires SamePair(Run(calls)[k].reservationId, Run(calls)[k].overlappingId,
                      Run(calls)[k'].reservationId, Run(calls)[k'].overlappingId)
    ensures k == k'
  {
    RunKeyed(calls);
    var r, r' := Run(calls)[k], Run(calls)[k'];
    ConflictIdIff(r.reservationId, r.overlappingId, r'.reservationId, r'.overlappingId);
  }

  /**
   In every run a pair has a row exactly when some call recorded it, and that
   row is open exactly when the last call touching the pair was a record.
   */
  lemma {:induction false} OpenIffLastTouchRecorded(calls: seq<Call>, a: string, b: string)
    requires MadeId(a) && MadeId(b) && forall c :: c in calls ==> MadeCall(c)
    ensures ConflictId(a, b) in Run(calls) <==> exists c :: c in calls && RecordsPair(c, a, b)
    ensures ConflictId(a, b) in Run(calls) ==> Run(calls)[ConflictId(a, b)].resolution in {Open, Resolved}
    ensures ConflictId(a, b) in Run(calls) && Run(calls)[ConflictId(a, b)].resolution == Open <==>
            LastTouch(calls, a, b).Some? && LastTouch(calls, a, b).value.Record?
  {
    if calls != [] {
      var init, last := calls[..|calls| - 1], calls[|calls| - 1];
      assert last in calls && forall c :: c in calls <==> c in init || c == last;
      OpenIffLastTouchRecorded(init, a, b);
      RunKeyed(init);
      if last.Record? { RecordAllOn(Run(init), last.id, last.overlaps, last.now, a, b); }
      else { ResolveOn(Run(init), last.id, last.now, a, b); }
    }
  }

  predicate IsOpen(t: Table, k: string) { k in t && t[k].resolution == Open }

  /** An open row is as that last record left it: its requester first, its time, and the smaller id as its object. */
  lemma {:induction false} OpenRowIsLastRecord(calls: seq<Call>, a: string, b: string)
    requires MadeId(a) && MadeId(b) && (forall c :: c in calls ==> MadeCall(c)) && IsOpen(Run(calls), ConflictId(a, b))
    ensures LastTouch(calls, a, b).Some?
    ensures var row, call := Run(calls)[ConflictId(a, b)], LastTouch(calls, a, b).value;
            && call.Record? && row.detectedAt == call.now && RequestedBy(row, call.id, a, b)
            && row.objectId == if Less(a, b) then a else b
  {
    var init, last := calls[..|calls| - 1], calls[|calls| - 1];
    assert last in calls && forall c :: c in init ==> c in calls;
    OpenIffLastTouchRecorded(calls, a, b);
    RunKeyed(calls);
    SmallerIsObject(Run(calls), a, b);
    RunKeyed(init);
    if last.Record? { RecordAllOn(Run(init), last.id, last.overlaps, last.now, a, b); }
    else { ResolveOn(Run(init), last.id, last.now, a, b); }
    if !Touches(last, a, b) { OpenRowIsLastRecord(init, a, b); }
  }

  lemma SmallerIsObject(t: Table, a: string, b: string)
    requires Keyed(t) && MadeId(a) && MadeId(b) && ConflictId(a, b) in t
    ensures t[ConflictId(a, b)].objectId == if Less(a, b) then a else b
  {
    var row := t[ConflictId(a, b)];
    ConflictIdIff(row.reservationId, row.overlappingId, a, b);
    OrderedPairSymmetric(a, b);
    LessTotal(a, b);
    LessIrreflexive(a);
  }
}
