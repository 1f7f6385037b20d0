/**
 How a verdict depends on what a request asks for: requirements, trusted and forbidden
 issuers, named digests, and what a batch lays over its proofs.
 */
module ApplyPolicy {
  import opened Text
  import opened Lifecycle
  import opened CheckNames
  import opened ApplyChecks
  import opened ApplyRecords
  import opened ApplyProof
  import ReadyQueue

  // -------------------------------------------------------------------- monotonicity

  predicate Adds(wanted: Option<string>, more: Option<string>) { wanted.None? || more == wanted }

  /**
   The same request with some requirements turned on: process ids, host claims, run ids, the
   mission contract, a subject, a subtask, a packet where none was used, forbidden issuers.
   */
  predicate Stricter(req: Request, strict: Request) {
    && strict == req.(observed := strict.observed, hostSigned := strict.hostSigned, provider := strict.provider,
                      enforce := strict.enforce, forbidden := strict.forbidden, subject := strict.subject,
                      subtask := strict.subtask, missionFile := strict.missionFile)
    && (req.observed ==> strict.observed) && (req.hostSigned ==> strict.hostSigned)
    && (req.provider ==> strict.provider) && (req.enforce ==> strict.enforce) && req.forbidden <= strict.forbidden
    && (req.subject ==> strict.subject) && Adds(req.subtask, strict.subtask)
    && (UsesMission(req) ==> strict.missionFile == req.missionFile)
  }

  /** Two requests about one attempt, whatever else they ask for. */
  predicate SameAttempt(req: Request, other: Request) {
    && other.artifactDigest == req.artifactDigest && other.reviewId == req.reviewId && other.queueId == req.queueId
    && other.findings == req.findings && other.verifier == req.verifier
  }

  lemma {:induction false} SameRows(req: Request, other: Request, fence: int, rows: seq<ApplyRow>)
    requires SameAttempt(req, other) && other.verdict == req.verdict && other.sealDigest == req.sealDigest
    ensures Matching(req, fence, rows) == Matching(other, fence, rows)
  {
    if rows != [] { SameRows(req, other, fence, rows[1..]); }
  }

  lemma SameRow(req: Request, other: Request, ev: Evidence)
    requires SameAttempt(req, other) && other.verdict == req.verdict && other.sealDigest == req.sealDigest
    requires ReadyQueue.Parse(ev.queue).Ok?
    ensures RowOf(req, ev) == RowOf(other, ev)
  {
    if AppliedFence(ev).Some? { SameRows(req, other, AppliedFence(ev).value, ev.applyRows); }
  }

  lemma StricterLanded(req: Request, strict: Request, ev: Evidence)
    requires Stricter(req, strict) && Landed(strict, ev)
    ensures Landed(req, ev)
  {
    SameRow(req, strict, ev);
  }

  lemma StricterNeeds(req: Request, strict: Request, ev: Evidence)
    requires Stricter(req, strict)
    ensures Forbidden(req, ev) <= Forbidden(strict, ev)
    ensures NeedsProvider(req, ev) ==> NeedsProvider(strict, ev)
    ensures NeedsHost(req, ev) ==> NeedsHost(strict, ev)
  {
  }

  lemma StricterHost(req: Request, strict: Request, ev: Evidence, c: Trio<HostClaim>)
    requires Stricter(req, strict) && HostOk(strict, ev, c)
    ensures HostOk(req, ev, c)
  {
    StricterNeeds(req, strict, ev);
  }

  /** Turning on any of these requirements never turns rejection into acceptance. */
  lemma StricterNeverAccepts(req: Request, strict: Request, ev: Evidence)
    requires Stricter(req, strict) && Accepted(strict, ev)
    ensures Accepted(req, ev)
  {
    AcceptedIff(req, ev);
    AcceptedIff(strict, ev);
    StricterLanded(req, strict, ev);
    StricterNeeds(req, strict, ev);
    StricterHost(req, strict, ev, ClaimsOf(ev));
  }

  // ------------------------------------------------------------------ named digests

  /** The same request, naming digests of the apply verification it left open. */
  predicate Names(req: Request, named: Request) {
    && named == req.(verdict := named.verdict, sealDigest := named.sealDigest)
    && Adds(req.verdict, named.verdict) && Adds(req.sealDigest, named.sealDigest)
  }

  /** What is required depends neither on the named digests nor on the rows. */
  lemma NamedRequired(req: Request, named: Request, ev: Evidence, more: Evidence)
    requires Names(req, named) && more == ev.(applyRows := more.applyRows)
    ensures Required(named, more) <==> Required(req, ev)
  {
    NamedNeeds(req, named, ev, more);
    NamedHost(req, named, ev, more, ClaimsOf(ev));
    assert ClaimsOf(more) == ClaimsOf(ev);
  }

  lemma NamedNeeds(req: Request, named: Request, ev: Evidence, more: Evidence)
    requires Names(req, named) && more == ev.(applyRows := more.applyRows)
    ensures PacketOf(named, more) == PacketOf(req, ev) && Forbidden(named, more) == Forbidden(req, ev)
    ensures NeedsProvider(named, more) == NeedsProvider(req, ev) && NeedsHost(named, more) == NeedsHost(req, ev)
  {
  }

  lemma NamedHost(req: Request, named: Request, ev: Evidence, more: Evidence, c: Trio<HostClaim>)
    requires Names(req, named) && more == ev.(applyRows := more.applyRows)
    ensures HostOk(named, more, c) <==> HostOk(req, ev, c)
  {
    NamedNeeds(req, named, ev, more);
  }

  lemma NamedLanded(req: Request, named: Request, ev: Evidence)
    requires Names(req, named) && Landed(named, ev)
    ensures AppliedFence(ev).Some?
    ensures Landed(req, ev) <==> |Matching(req, AppliedFence(ev).value, ev.applyRows)| == 1
  {
    var fence, a := AppliedFence(ev).value, RowOf(named, ev).value;
    MatchingIff(named, fence, ev.applyRows, a);
    MatchingIff(req, fence, ev.applyRows, a);
  }

  /**
   Naming a digest is not monotone, because several rows count as none: a proof accepted with
   it is accepted without it if and only if the attempt has a single row.
   */
  lemma NamedDigestIff(req: Request, named: Request, ev: Evidence)
    requires Names(req, named) && Accepted(named, ev)
    ensures AppliedFence(ev).Some?
    ensures Accepted(req, ev) <==> |Matching(req, AppliedFence(ev).value, ev.applyRows)| == 1
  {
    AcceptedIff(req, ev);
    AcceptedIff(named, ev);
    NamedRequired(req, named, ev, ev);
    NamedLanded(req, named, ev);
  }

  /** A lookup that names digests filters what the open one finds. */
  lemma {:induction false} NamedFilters(req: Request, named: Request, fence: int, rows: seq<ApplyRow>)
    requires Names(req, named)
    ensures Matching(named, fence, rows) == Matching(named, fence, Matching(req, fence, rows))
  {
    if rows != [] {
      NamedFilters(req, named, fence, rows[1..]);
      var rest := Matching(req, fence, rows[1..]);
      if RowMatches(req, fence, rows[0]) {
        assert ([rows[0]] + rest)[0] == rows[0] && ([rows[0]] + rest)[1..] == rest;
      } else {
        assert [] + rest == rest;
      }
    }
  }

  /**
   On the tables that recording leaves, the single row is a single seal digest among the rows
   that match.
   */
  lemma RecordedDigestIff(req: Request, named: Request, ev: Evidence)
    requires Names(req, named) && Accepted(named, ev) && Keyed(ev.applyRows)
    ensures AppliedFence(ev).Some? && RowOf(named, ev).Some?
    ensures Accepted(req, ev) <==> OneSeal(req, AppliedFence(ev).value, ev.applyRows, RowOf(named, ev).value.sealDigest)
  {
    AcceptedIff(named, ev);
    NamedDigestIff(req, named, ev);
    var fence, a := AppliedFence(ev).value, RowOf(named, ev).value;
    MatchingIff(named, fence, ev.applyRows, a);
    SingleIff(req, fence, ev.applyRows, a);
  }

  /** So a request that names the seal needs no named verdict. */
  lemma NamedSealSuffices(req: Request, named: Request, ev: Evidence)
    requires Names(req, named) && Accepted(named, ev) && Keyed(ev.applyRows) && req.sealDigest.Some?
    ensures Accepted(req, ev)
  {
    RecordedDigestIff(req, named, ev);
    var a := RowOf(named, ev).value;
    MatchingIff(named, AppliedFence(ev).value, ev.applyRows, a);
  }

  /** The requests that name the verdict, the seal digest or both of a row. */
  predicate NamesRow(req: Request, named: Request, a: ApplyRow) {
    && Names(req, named) && (named.verdict.Some? || named.sealDigest.Some?)
    && NoneOr(named.verdict, a.verdict) && NoneOr(named.sealDigest, a.sealDigest)
  }

  /** With a second row of another verdict and seal the open lookup finds two rows, a named one just the first. */
  lemma SecondRow(req: Request, named: Request, fence: int, rows: seq<ApplyRow>, a: ApplyRow, b: ApplyRow)
    requires req.verdict.None? && req.sealDigest.None? && Matching(req, fence, rows) == [a] && NamesRow(req, named, a)
    requires b == a.(verdict := b.verdict, sealDigest := b.sealDigest)
    requires b.verdict != a.verdict && b.sealDigest != a.sealDigest
    ensures |Matching(req, fence, rows + [b])| == 2 && Matching(named, fence, rows + [b]) == [a]
  {
    assert a in Matching(req, fence, rows);
    MatchingIff(req, fence, rows, a);
    MatchingSnoc(req, fence, rows, b);
    MatchingSnoc(named, fence, rows, b);
    NamedFilters(req, named, fence, rows);
    assert [a][1..] == [];
  }

  /**
   Any accepted proof that names no digest: recording a second verification of the same attempt,
   with another verdict under a free seal, rejects it, and naming either digest lets it back in.
   */
  lemma NamingLetsIn(req: Request, named: Request, ev: Evidence, a: ApplyRow, b: ApplyRow)
    requires Accepted(req, ev) && RowOf(req, ev) == Some(a) && req.verdict.None? && req.sealDigest.None?
    requires NamesRow(req, named, a) && b == a.(verdict := b.verdict, sealDigest := b.sealDigest)
    requires b.verdict != a.verdict && Free(ev.applyRows, b)
    ensures var more := ev.(applyRows := Record(ev.applyRows, b)); !Accepted(req, more) && Accepted(named, more)
  {
    var more := ev.(applyRows := ev.applyRows + [b]);
    AcceptedIff(req, ev);
    AcceptedIff(req, more);
    AcceptedIff(named, more);
    NamedRequired(req, named, ev, more);
    SecondRowLookup(req, named, ev, more, a, b);
  }

  lemma SecondRowLookup(req: Request, named: Request, ev: Evidence, more: Evidence, a: ApplyRow, b: ApplyRow)
    requires ReadyQueue.Parse(ev.queue).Ok? && RowOf(req, ev) == Some(a) && req.verdict.None? && req.sealDigest.None?
    requires NamesRow(req, named, a) && b == a.(verdict := b.verdict, sealDigest := b.sealDigest)
    requires b.verdict != a.verdict && Free(ev.applyRows, b) && more == ev.(applyRows := ev.applyRows + [b])
    ensures RowOf(req, more).None? && RowOf(named, more) == Some(a)
  {
    var fence := AppliedFence(ev).value;
    assert Matching(req, fence, ev.applyRows) == [a];
    MatchingIff(req, fence, ev.applyRows, a);
    SecondRow(req, named, fence, ev.applyRows, a, b);
  }

  // ----------------------------------------------------------------- trusted issuers

  /** The narrower request trusts nobody and is not enforced, or trusts the three issuers. */
  predicate TrustSuffices(req: Request, c: Trio<HostClaim>) {
    if req.trusted == {} then !req.enforce
    else IssuerTrusted(req.trusted, c.worker) && IssuerTrusted(req.trusted, c.reviewer) && IssuerTrusted(req.trusted, c.gate)
  }

  /** Trusting more issuers can accept. When it does, this says if it was needed. */
  lemma TrustedExtensionIff(req: Request, extra: set<string>, ev: Evidence)
    requires Accepted(req.(trusted := req.trusted + extra), ev)
    ensures Accepted(req, ev) <==> TrustSuffices(req, ClaimsOf(ev))
  {
    var wider := req.(trusted := req.trusted + extra);
    AcceptedIff(req, ev);
    AcceptedIff(wider, ev);
    TrustedLanded(req, wider, ev);
    TrustedRequired(req, extra, ev);
  }

  lemma TrustedRequired(req: Request, extra: set<string>, ev: Evidence)
    requires Required(req.(trusted := req.trusted + extra), ev)
    ensures Required(req, ev) <==> TrustSuffices(req, ClaimsOf(ev))
  {
    TrustedHost(req, extra, ev, ClaimsOf(ev));
  }

  lemma TrustedLanded(req: Request, wider: Request, ev: Evidence)
    requires wider == req.(trusted := wider.trusted)
    ensures Landed(req, ev) <==> Landed(wider, ev)
  {
    if ReadyQueue.Parse(ev.queue).Ok? { SameRow(req, wider, ev); }
  }

  lemma TrustedHost(req: Request, extra: set<string>, ev: Evidence, c: Trio<HostClaim>)
    requires HostOk(req.(trusted := req.trusted + extra), ev, c)
    ensures NeedsHost(req, ev) ==> NeedsHost(req.(trusted := req.trusted + extra), ev)
    ensures HostOk(req, ev, c) <==>
              req.trusted != {} ==> IssuerTrusted(req.trusted, c.worker) && IssuerTrusted(req.trusted, c.reviewer)
                                    && IssuerTrusted(req.trusted, c.gate)
  {
    var wider := req.(trusted := req.trusted + extra);
    TrustedNeeds(req, extra, ev);
    TrustedRun(req, extra, ev, c.worker);
    TrustedRun(req, extra, ev, c.reviewer);
    TrustedRun(req, extra, ev, c.gate);
  }

  lemma TrustedNeeds(req: Request, extra: set<string>, ev: Evidence)
    ensures var wider := req.(trusted := req.trusted + extra);
            && Forbidden(req, ev) == Forbidden(wider, ev)
            && (NeedsProvider(req, ev) ==> NeedsProvider(wider, ev)) && (NeedsHost(req, ev) ==> NeedsHost(wider, ev))
            && (req.trusted != {} ==> wider.trusted != {} && NeedsProvider(req, ev))
  {
    assert req.trusted <= req.trusted + extra;
  }

  lemma TrustedRun(req: Request, extra: set<string>, ev: Evidence, c: HostClaim)
    ensures var wider := req.(trusted := req.trusted + extra);
            RunOk(wider, ev, c) ==> (RunOk(req, ev, c) <==> req.trusted != {} ==> IssuerTrusted(req.trusted, c))
    ensures RunOk(req, ev, c) && req.trusted != {} ==> RunOk(req.(trusted := req.trusted + extra), ev, c)
  {
    TrustedNeeds(req, extra, ev);
  }

  /** What a batch lays over each of its proofs. */
  datatype Batch = Batch(observed: bool, hostSigned: bool, provider: bool, enforce: bool, trusted: set<string>,
                         forbidden: set<string>)

  function Overridden(req: Request, b: Batch): Request {
    req.(observed := req.observed || b.observed, hostSigned := req.hostSigned || b.hostSigned,
         provider := req.provider || b.provider, enforce := req.enforce || b.enforce,
         trusted := req.trusted + b.trusted, forbidden := req.forbidden + b.forbidden)
  }

  /** A proof accepted in a batch stands on its own, but for issuers only the batch trusts. */
  lemma BatchOverrideIff(req: Request, b: Batch, ev: Evidence)
    requires Accepted(Overridden(req, b), ev)
    ensures Accepted(req, ev) <==> TrustSuffices(req, ClaimsOf(ev))
  {
    StricterNeverAccepts(req.(trusted := req.trusted + b.trusted), Overridden(req, b), ev);
    TrustedExtensionIff(req, b.trusted, ev);
  }

  /** Any accepted proof that trusts issuers: trusting others instead rejects it, and a batch lets it back in. */
  lemma BatchTrustLetsIn(req: Request, others: set<string>, ev: Evidence)
    requires Accepted(req, ev) && req.trusted != {} && others != {}
    requires !IssuerTrusted(others, ClaimsOf(ev).worker)
    ensures var child := req.(trusted := others);
            !Accepted(child, ev) && Accepted(Overridden(child, Batch(false, false, false, false, req.trusted, {})), ev)
  {
    var child, batch := req.(trusted := others), Batch(false, false, false, false, req.trusted, {});
    WiderTrustKeeps(req, others, ev);
    OverriddenTrust(req, others);
    BatchOverrideIff(child, batch, ev);
  }

  lemma OverriddenTrust(req: Request, others: set<string>)
    ensures Overridden(req.(trusted := others), Batch(false, false, false, false, req.trusted, {}))
            == req.(trusted := req.trusted + others)
  {
    assert others + req.trusted == req.trusted + others && req.forbidden + {} == req.forbidden;
  }

  lemma WiderTrustKeeps(req: Request, extra: set<string>, ev: Evidence)
    requires Accepted(req, ev) && req.trusted != {}
    ensures Accepted(req.(trusted := req.trusted + extra), ev)
  {
    var wider := req.(trusted := req.trusted + extra);
    AcceptedIff(req, ev);
    AcceptedIff(wider, ev);
    TrustedLanded(req, wider, ev);
    WiderRequired(req, extra, ev);
  }

  lemma WiderRequired(req: Request, extra: set<string>, ev: Evidence)
    requires Required(req, ev) && req.trusted != {}
    ensures Required(req.(trusted := req.trusted + extra), ev)
  {
    TrustedNeeds(req, extra, ev);
    TrustedRun(req, extra, ev, ClaimsOf(ev).worker);
    TrustedRun(req, extra, ev, ClaimsOf(ev).reviewer);
    TrustedRun(req, extra, ev, ClaimsOf(ev).gate);
  }

  /** Under enforcement every actor's run was issued by a trusted issuer that is not local. */
  lemma EnforcedExcludesLocalIssuers(req: Request, ev: Evidence, facts: MissionFacts, a: Actor)
    requires req.enforce && Accepted(req, ev) && PacketOf(req, ev) == ReadMission(facts)
    ensures ev.hostClaims.Some? && ev.hostClaims.value.Of(a).issuer.Some?
    ensures var issuer := ev.hostClaims.value.Of(a).issuer.value;
            issuer in req.trusted && issuer !in LOCAL_ISSUERS && issuer !in req.forbidden && issuer !in facts.forbidden
  {
    AcceptedIff(req, ev);
    assert PacketOf(req, ev).contract.forbidsLocal;
    assert LOCAL_ISSUERS <= facts.forbidden <= Forbidden(req, ev);
  }

  /** Without a readable packet nothing is accepted under enforcement. */
  lemma EnforcementNeedsPacket(req: Request, ev: Evidence)
    requires req.enforce && !PacketOf(req, ev).MissionRead?
    ensures !Accepted(req, ev)
  {
    AcceptedIff(req, ev);
  }

  // ------------------------------------------------------------------- an accepted proof

  function SampleSession(token: string, role: SessionRole): Session { Session(token, token, token, role) }

  function SampleAttestation(token: string, role: SessionRole): Attestation {
    Attestation(token, token, token, role, 0, 1, None, Some(token), token)
  }

  const SAMPLE_CLAIM := HostClaim(true, Some("r"), Some("i"), Some("k"))

  const SAMPLE_ROW := ApplyRow("q", "a", "v", "f", 1, "x", "3", "d", "e")

  const SAMPLE_REQUEST := Request("a", "v", "q", "f", Some("s"), "x", None, None, false, None, false, true, true, false,
                                  {"i"}, {})

  const SAMPLE_EVIDENCE := Evidence(
    "a", "s", "a", "s", true, Some("f"), ReadyQueue.Item("a", Id("s"), QueueApplied, None, Some(1), None, 0),
    [SAMPLE_ROW],
    Trio(SampleSession("1", Executor), SampleSession("2", Reviewer), SampleSession("3", ApplyGate)),
    Trio(SampleAttestation("1", Executor), SampleAttestation("2", Reviewer), SampleAttestation("3", ApplyGate)),
    Some("d"), "f", Some("a"), true, MissionMissing, map[], Some(Trio(SAMPLE_CLAIM, SAMPLE_CLAIM, SAMPLE_CLAIM)),
    "h", "h", "h", None, false, true)

  /** There are accepted proofs, so what is said of them is not empty. */
  lemma SomeProofIsAccepted()
    ensures Accepted(SAMPLE_REQUEST, SAMPLE_EVIDENCE) && RowOf(SAMPLE_REQUEST, SAMPLE_EVIDENCE) == Some(SAMPLE_ROW)
  {
    SampleLanded();
    SampleRequired();
    AcceptedIff(SAMPLE_REQUEST, SAMPLE_EVIDENCE);
  }

  lemma SampleLanded()
    ensures Landed(SAMPLE_REQUEST, SAMPLE_EVIDENCE) && RowOf(SAMPLE_REQUEST, SAMPLE_EVIDENCE) == Some(SAMPLE_ROW)
  {
    assert RowMatches(SAMPLE_REQUEST, 1, SAMPLE_ROW);
    assert Matching(SAMPLE_REQUEST, 1, [SAMPLE_ROW]) == [SAMPLE_ROW];
  }

  lemma SampleRequired()
    ensures Required(SAMPLE_REQUEST, SAMPLE_EVIDENCE)
  {
    assert Trim("r") == "r" && Trim("i") == "i";
    assert Signers(ClaimsOf(SAMPLE_EVIDENCE)) == {"k"};
  }

  /** And so a batch does accept a proof that is rejected alone. */
  lemma RejectionIsLetInByBatch()
    ensures exists child, batch, ev: Evidence ::
              Keyed(ev.applyRows) && !Accepted(child, ev) && Accepted(Overridden(child, batch), ev)
  {
    SomeProofIsAccepted();
    BatchTrustLetsIn(SAMPLE_REQUEST, {"j"}, SAMPLE_EVIDENCE);
    assert Keyed(SAMPLE_EVIDENCE.applyRows);
  }

  const SAMPLE_SECOND := SAMPLE_ROW.(verdict := "other", sealDigest := "second")

  /** And a named verdict or seal digest one that is rejected without, on a table that recording leaves. */
  lemma RejectionIsLetInByNaming(named: Request)
    requires NamesRow(SAMPLE_REQUEST, named, SAMPLE_ROW)
    ensures var ev := SAMPLE_EVIDENCE.(applyRows := RecordAll([], [SAMPLE_ROW, SAMPLE_SECOND]));
            Keyed(ev.applyRows) && !Accepted(SAMPLE_REQUEST, ev) && Accepted(named, ev)
  {
    TwoRecorded(SAMPLE_ROW, SAMPLE_SECOND);
    SomeProofIsAccepted();
    NamingLetsIn(SAMPLE_REQUEST, named, SAMPLE_EVIDENCE, SAMPLE_ROW, SAMPLE_SECOND);
  }
}
