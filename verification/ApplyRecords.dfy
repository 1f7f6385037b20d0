/**
 The table of recorded apply verifications. Recording is a plain insert under the primary key
 (queue, fence, seal digest); its other conditions only refuse more.
 */
module ApplyRecords {
  import opened Text
  import opened ApplyChecks

  // ------------------------------------------------------------------- the primary key

  predicate SameKey(a: ApplyRow, b: ApplyRow) {
    a.queue == b.queue && a.fence == b.fence && a.sealDigest == b.sealDigest
  }

  /** No row has this one's key. */
  predicate Free(rows: seq<ApplyRow>, a: ApplyRow) { forall b :: b in rows ==> !SameKey(b, a) }

  /** `record_apply_verification`: the row is added, or the key is taken and the table stays as it is. */
  function Record(rows: seq<ApplyRow>, a: ApplyRow): seq<ApplyRow> { if Free(rows, a) then rows + [a] else rows }

  function RecordAll(rows: seq<ApplyRow>, run: seq<ApplyRow>): seq<ApplyRow>
    decreases run
  {
    if run == [] then rows else RecordAll(Record(rows, run[0]), run[1..])
  }

  /** Any two rows differ in queue, fence or seal digest. */
  ghost predicate Keyed(rows: seq<ApplyRow>) {
    forall i, j :: 0 <= i < j < |rows| ==>
      rows[i].queue != rows[j].queue || rows[i].fence != rows[j].fence || rows[i].sealDigest != rows[j].sealDigest
  }

  lemma {:induction false} RecordAllKeyed(rows: seq<ApplyRow>, run: seq<ApplyRow>)
    requires Keyed(rows)
    ensures Keyed(RecordAll(rows, run))
    decreases run
  {
    if run != [] {
      var next := Record(rows, run[0]);
      forall i, j | 0 <= i < j < |next| ensures !SameKey(next[i], next[j]) {
        assert next[i] in rows;
      }
      RecordAllKeyed(next, run[1..]);
    }
  }

  /** Recording the rows of a keyed table one after the other refuses none. */
  lemma {:induction false} RecordAllRebuilds(rows: seq<ApplyRow>, more: seq<ApplyRow>)
    requires Keyed(rows + more)
    ensures RecordAll(rows, more) == rows + more
    decreases more
  {
    if more == [] {
      assert rows + more == rows;
    } else {
      var a := more[0];
      assert (rows + more)[|rows|] == a;
      forall b | b in rows ensures !SameKey(b, a) {
        var i :| 0 <= i < |rows| && rows[i] == b;
        assert (rows + more)[i] == b;
      }
      assert rows + [a] + more[1..] == rows + more;
      RecordAllRebuilds(rows + [a], more[1..]);
    }
  }

  /** The keyed tables are exactly those that runs of recordings leave. */
  lemma KeyedIff(rows: seq<ApplyRow>)
    ensures Keyed(rows) <==> exists run :: RecordAll([], run) == rows
  {
    if Keyed(rows) {
      assert [] + rows == rows;
      RecordAllRebuilds([], rows);
    }
    if exists run :: RecordAll([], run) == rows {
      var run :| RecordAll([], run) == rows;
      RecordAllKeyed([], run);
    }
  }

  lemma TwoRecorded(a: ApplyRow, b: ApplyRow)
    requires !SameKey(a, b)
    ensures Free([a], b) && Keyed([a, b]) && RecordAll([], [a, b]) == Record([a], b) == [a, b]
  {
    var rows := [a, b];
    assert Keyed(rows) && [] + rows == rows && [a] + [b] == rows;
    RecordAllRebuilds([], rows);
  }

  // -------------------------------------------------------------------------- lookups

  /** The rows a lookup finds are those that match. */
  lemma {:induction false} MatchingIff(req: Request, fence: int, rows: seq<ApplyRow>, a: ApplyRow)
    ensures a in Matching(req, fence, rows) <==> a in rows && RowMatches(req, fence, a)
  {
    if rows != [] {
      MatchingIff(req, fence, rows[1..], a);
      assert a in rows <==> a == rows[0] || a in rows[1..];
    }
  }

  lemma {:induction false} MatchingSnoc(req: Request, fence: int, rows: seq<ApplyRow>, a: ApplyRow)
    ensures Matching(req, fence, rows + [a])
            == Matching(req, fence, rows) + if RowMatches(req, fence, a) then [a] else []
  {
    if rows == [] {
      assert rows + [a] == [a];
    } else {
      assert (rows + [a])[0] == rows[0] && (rows + [a])[1..] == rows[1..] + [a];
      MatchingSnoc(req, fence, rows[1..], a);
    }
  }

  /**
   The lookup answers with a row if and only if that is the only one of the attempt, by the asked
   verifier, with the digests that are named.
   */
  lemma LookupIff(req: Request, fence: int, rows: seq<ApplyRow>, a: ApplyRow)
    requires Keyed(rows)
    ensures LoadApplyVerification(req, fence, rows) == Some(a) <==>
            a in rows && forall b :: b in rows ==>
              (b == a <==>
               && b.queue == req.queueId && b.artifact == req.artifactDigest && b.review == req.reviewId
               && b.findings == req.findings && b.fence == fence && b.verifier == req.verifier
               && (req.verdict.Some? ==> b.verdict == req.verdict.value)
               && (req.sealDigest.Some? ==> b.sealDigest == req.sealDigest.value))
  {
    var found := Matching(req, fence, rows);
    forall b ensures b in found <==> b in rows && RowMatches(req, fence, b) { MatchingIff(req, fence, rows, b); }
    if a in rows && RowMatches(req, fence, a) && forall b :: b in rows && RowMatches(req, fence, b) ==> b == a {
      SingleIff(req, fence, rows, a);
    } else if |found| == 1 {
      assert found[0] in found && forall b :: b in found ==> b == found[0];
    }
  }

  /** In a keyed table a lookup that names a seal finds at most one row. */
  lemma {:induction false} SealFindsOne(req: Request, fence: int, rows: seq<ApplyRow>)
    requires Keyed(rows) && req.sealDigest.Some?
    ensures |Matching(req, fence, rows)| <= 1
  {
    if rows != [] {
      var rest := Matching(req, fence, rows[1..]);
      SealFindsOne(req, fence, rows[1..]);
      if RowMatches(req, fence, rows[0]) && rest != [] {
        MatchingIff(req, fence, rows[1..], rest[0]);
      }
    }
  }

  /** All rows of the attempt have one seal digest. */
  ghost predicate OneSeal(req: Request, fence: int, rows: seq<ApplyRow>, seal: string) {
    forall b :: b in rows && RowMatches(req, fence, b) ==> b.sealDigest == seal
  }

  lemma {:induction false} OneSealMatching(req: Request, fence: int, rows: seq<ApplyRow>, seal: string)
    requires OneSeal(req, fence, rows, seal) && NoneOr(req.sealDigest, seal)
    ensures Matching(req, fence, rows) == Matching(req.(sealDigest := Some(seal)), fence, rows)
  {
    if rows != [] {
      assert rows[0] in rows && forall b :: b in rows[1..] ==> b in rows;
      OneSealMatching(req, fence, rows[1..], seal);
    }
  }

  /** In a keyed table a lookup finds one row if and only if all that match have one seal digest. */
  lemma SingleIff(req: Request, fence: int, rows: seq<ApplyRow>, a: ApplyRow)
    requires Keyed(rows) && a in rows && RowMatches(req, fence, a)
    ensures |Matching(req, fence, rows)| == 1 <==> OneSeal(req, fence, rows, a.sealDigest)
  {
    var found := Matching(req, fence, rows);
    MatchingIff(req, fence, rows, a);
    if OneSeal(req, fence, rows, a.sealDigest) {
      OneSealMatching(req, fence, rows, a.sealDigest);
      SealFindsOne(req.(sealDigest := Some(a.sealDigest)), fence, rows);
    }
    if |found| == 1 {
      forall b | b in rows && RowMatches(req, fence, b) ensures b.sealDigest == a.sealDigest {
        MatchingIff(req, fence, rows, b);
        assert found[0] == a && found[0] == b;
      }
    }
  }
}
