/** The verdict on an apply proof and the landing authorization it emits. */
module ApplyProof {
  import opened Text
  import opened Lifecycle
  import opened CheckNames
  import opened ApplyChecks
  import opened ApplyRecords
  import ReadyQueue

  datatype Authorization = Authorization(queue: string, artifact: string, review: string, findings: string, fence: int,
                                         verifier: string, verdict: string, applySeal: string)

  datatype Report =
    | Unverifiable
    | Report(checks: map<string, bool>, blockers: seq<string>, authorization: Option<Authorization>)

  const NO_CLAIM := HostClaim(false, None, None, None)

  function ClaimsOf(ev: Evidence): Trio<HostClaim> {
    if ev.hostClaims.Some? then ev.hostClaims.value else Trio(NO_CLAIM, NO_CLAIM, NO_CLAIM)
  }

  /** The queue row parses, and the host claims can be read if they are needed. */
  predicate Verifiable(req: Request, ev: Evidence) {
    ReadyQueue.Parse(ev.queue).Ok? && (NeedsHost(req, ev) ==> ev.hostClaims.Some?)
  }

  function AppliedFence(ev: Evidence): Option<int>
    requires ReadyQueue.Parse(ev.queue).Ok?
  {
    ReadyQueue.AppliedFenceOf(ReadyQueue.Parse(ev.queue).value)
  }

  /** The apply verification is only looked up for an applied queue row. */
  function RowOf(req: Request, ev: Evidence): Option<ApplyRow>
    requires ReadyQueue.Parse(ev.queue).Ok?
  {
    if AppliedFence(ev).Some? then LoadApplyVerification(req, AppliedFence(ev).value, ev.applyRows) else None
  }

  function LogOf(req: Request, ev: Evidence): seq<Check>
    requires ReadyQueue.Parse(ev.queue).Ok?
  {
    Log(req, ev, AppliedFence(ev), RowOf(req, ev), ClaimsOf(ev))
  }

  ghost predicate AllPass(log: seq<Check>) { forall i :: 0 <= i < |log| ==> log[i].passed }

  /** Acceptance as a conjunction: every check that is made passes. */
  ghost predicate Accepted(req: Request, ev: Evidence) { Verifiable(req, ev) && AllPass(LogOf(req, ev)) }

  /** The map holds exactly the entries, each with its own verdict. */
  ghost predicate Holds(checks: map<string, bool>, entries: seq<Entry>) {
    && (forall n :: n in checks ==> exists i :: 0 <= i < |entries| && entries[i].text == n)
    && forall i :: 0 <= i < |entries| ==> entries[i].text in checks && checks[entries[i].text] == entries[i].passed
  }

  /** The map of checks after inserting them one by one. */
  method Accumulate(entries: seq<Entry>) returns (checks: map<string, bool>)
    ensures DistinctTexts(entries) ==> Holds(checks, entries)
  {
    checks := map[];
    for k := 0 to |entries|
      invariant forall n :: n in checks ==> exists i :: 0 <= i < k && entries[i].text == n
      invariant forall i :: 0 <= i < k ==> entries[i].text in checks
      invariant DistinctTexts(entries) ==> forall i :: 0 <= i < k ==> checks[entries[i].text] == entries[i].passed
    {
      checks := checks[entries[k].text := entries[k].passed];
    }
  }

  /** `check_blockers`: the failed checks, in the order of their names. */
  method CheckBlockers(checks: map<string, bool>) returns (blockers: seq<string>)
    ensures Ascending(blockers) && forall n :: n in blockers <==> n in checks && !checks[n]
  {
    blockers := [];
    var rest := checks.Keys;
    while rest != {}
      invariant rest <= checks.Keys && Ascending(blockers)
      invariant forall n :: n in blockers <==> n in checks && n !in rest && !checks[n]
      decreases |rest|
    {
      var n :| n in rest;
      if !checks[n] { blockers := InsertUnique(n, blockers); }
      rest := rest - {n};
    }
  }

  /**
   The verdict. It is accepting exactly when all checks pass, and it carries an
   authorization exactly when it is accepting.
   */
  method VerifyApplyRequest(req: Request, ev: Evidence) returns (r: Report)
    ensures r.Unverifiable? <==> !Verifiable(req, ev)
    ensures r.Report? ==> Holds(r.checks, Entries(LogOf(req, ev)))
    ensures r.Report? ==> Ascending(r.blockers) && forall n :: n in r.blockers <==> n in r.checks && !r.checks[n]
    ensures r.Report? ==> (r.blockers == [] <==> Accepted(req, ev))
    ensures r.Report? ==> (r.authorization.Some? <==> Accepted(req, ev))
    ensures r.Report? && r.authorization.Some? ==> Authorizes(req, ev, r.authorization.value)
  {
    if !ReadyQueue.Parse(ev.queue).Ok? { return Unverifiable; }
    if NeedsHost(req, ev) && ev.hostClaims.None? { return Unverifiable; }
    var log := LogOf(req, ev);
    NoNameTwice(req, ev, AppliedFence(ev), RowOf(req, ev), ClaimsOf(ev));
    var checks := Accumulate(Entries(log));
    var blockers := CheckBlockers(checks);
    BlockersIff(log, checks, blockers);
    var authorization := None;
    AcceptedAuthorizes(req, ev);
    if blockers == [] && RowOf(req, ev).Some? { authorization := Some(AuthorizationFor(req, RowOf(req, ev).value)); }
    r := Report(checks, blockers, authorization);
  }

  function AuthorizationFor(req: Request, a: ApplyRow): Authorization {
    Authorization(req.queueId, req.artifactDigest, req.reviewId, req.findings, a.fence, a.verifier, a.verdict, a.sealDigest)
  }

  lemma BlockersIff(log: seq<Check>, checks: map<string, bool>, blockers: seq<string>)
    requires Holds(checks, Entries(log)) && forall n :: n in blockers <==> n in checks && !checks[n]
    ensures blockers == [] <==> AllPass(log)
  {
    var es := Entries(log);
    forall i | 0 <= i < |log| ensures log[i].passed <==> es[i].text !in blockers {}
    if blockers != [] {
      assert blockers[0] in blockers;
      var i :| 0 <= i < |es| && es[i].text == blockers[0];
      assert !log[i].passed;
    }
  }

  // ----------------------------------------------------- what the sections amount to

  lemma AllPassJoin(s: seq<Check>, t: seq<Check>)
    ensures AllPass(s + t) <==> AllPass(s) && AllPass(t)
  {
    if AllPass(s + t) {
      forall i | 0 <= i < |s| ensures s[i].passed { assert (s + t)[i].passed; }
      forall i | 0 <= i < |t| ensures t[i].passed { assert (s + t)[|s| + i].passed; }
    }
  }

  lemma LogParts(req: Request, ev: Evidence)
    requires ReadyQueue.Parse(ev.queue).Ok?
    ensures AllPass(LogOf(req, ev)) <==>
              && AllPass(BindingChecks(req, ev, RowOf(req, ev)))
              && AllPass(ApplyVerificationChecks(req, ev, AppliedFence(ev), RowOf(req, ev)))
              && AllPass(IdentityChecks(ev.sessions, ev.attestations)) && AllPass(FileChecks(req, ev))
              && AllPass(MissionChecks(req, ev)) && AllPass(ObservedChecks(req, ev.attestations))
              && AllPass(HostChecks(req, ev, ClaimsOf(ev))) && AllPass(GitChecks(req, ev))
  {
    var b, v, i, f := BindingChecks(req, ev, RowOf(req, ev)),
                      ApplyVerificationChecks(req, ev, AppliedFence(ev), RowOf(req, ev)),
                      IdentityChecks(ev.sessions, ev.attestations), FileChecks(req, ev);
    var m, o, h := MissionChecks(req, ev), ObservedChecks(req, ev.attestations), HostChecks(req, ev, ClaimsOf(ev));
    AllPassJoin(b, v);
    AllPassJoin(b + v, i);
    AllPassJoin(b + v + i, f);
    AllPassJoin(b + v + i + f, m);
    AllPassJoin(b + v + i + f + m, o);
    AllPassJoin(b + v + i + f + m + o, h);
    AllPassJoin(b + v + i + f + m + o + h, GitChecks(req, ev));
  }

  lemma ActorsPass(kind: ActorKind, passed: Trio<bool>)
    ensures AllPass(ActorChecks(kind, passed)) <==> passed.worker && passed.reviewer && passed.gate
  {
    var s := ActorChecks(kind, passed);
    assert s[0].passed == passed.worker && s[1].passed == passed.reviewer && s[2].passed == passed.gate;
  }

  lemma PairsPass<T>(kind: PairKind, v: Trio<T>)
    ensures AllPass(PairChecks(kind, v)) <==> v.worker != v.reviewer && v.worker != v.gate && v.reviewer != v.gate
  {
    var s := PairChecks(kind, v);
    assert s[0].passed == (v.worker != v.reviewer) && s[1].passed == (v.worker != v.gate);
    assert s[2].passed == (v.reviewer != v.gate);
  }

  // ------------------------------------------------------------ what acceptance means

  /** Artifact, review, queue row and apply verification are about one attempt. */
  predicate OneAttempt(req: Request, ev: Evidence, a: ApplyRow) {
    && req.artifactDigest == ev.artifactDigest == ev.reviewArtifact == ev.queue.artifact == a.artifact
    && ev.artifactSubtask == ev.reviewSubtask == ev.queue.subtask.text
    && (req.subtask.Some? ==> req.subtask.value == ev.artifactSubtask)
    && ev.reviewApproved && ev.reviewFindings == Some(req.findings) && a.findings == req.findings
    && a.queue == req.queueId && a.review == req.reviewId
    && ev.queue.state == QueueApplied && ev.queue.fence == Some(a.fence)
    && a.verifier == req.verifier && a.recordedBy == ev.sessions.gate.token && ev.verdictFile == Some(a.verdict)
    && (req.verdict.Some? ==> req.verdict.value == a.verdict)
    && (req.sealDigest.Some? ==> req.sealDigest.value == a.sealDigest)
  }

  predicate AllDiffer<T(==)>(t: Trio<T>) { t.worker != t.reviewer && t.worker != t.gate && t.reviewer != t.gate }

  /** Three principals, runtimes and transcripts, in three roles, each with an attestation of its own. */
  predicate SeparateActors(s: Trio<Session>, a: Trio<Attestation>) {
    && AllDiffer(Trio(s.worker.principal, s.reviewer.principal, s.gate.principal))
    && AllDiffer(Trio(RefOf(a.worker), RefOf(a.reviewer), RefOf(a.gate)))
    && AllDiffer(Trio(a.worker.transcript, a.reviewer.transcript, a.gate.transcript))
    && s.worker.role == Executor && s.reviewer.role == Reviewer && s.gate.role == ApplyGate
    && Matches(s.worker, a.worker) && Matches(s.reviewer, a.reviewer) && Matches(s.gate, a.gate)
  }

  predicate FilesMatch(req: Request, ev: Evidence) {
    ev.findingsFile == req.findings && ev.artifactFile == Some(req.artifactDigest) && ev.successFound
  }

  predicate PacketOk(m: Mission) {
    && m.MissionRead? && m.boundary == Boundary(true, true, true, true, true)
    && m.contract == Contract(true, true, true, true, true, true, true, true, true, true, true, true)
  }

  predicate MissionOk(req: Request, ev: Evidence) {
    (UsesMission(req) ==> PacketOk(PacketOf(req, ev))) && (req.enforce ==> req.trusted != {})
  }

  predicate ObservedOk(req: Request, a: Trio<Attestation>) {
    req.observed ==> ObservedId(a.worker) && ObservedId(a.reviewer) && ObservedId(a.gate)
  }

  /** The claim names a provider run of an issuer that is not forbidden, and trusted if any is. */
  predicate RunOk(req: Request, ev: Evidence, c: HostClaim) {
    HasRunId(c) && c.issuer.value !in Forbidden(req, ev) && (req.trusted != {} ==> c.issuer.value in req.trusted)
  }

  predicate HostOk(req: Request, ev: Evidence, c: Trio<HostClaim>) {
    && (NeedsHost(req, ev) ==> c.worker.accepted && c.reviewer.accepted && c.gate.accepted && |Signers(c)| == 1)
    && (NeedsProvider(req, ev) ==> RunOk(req, ev, c.worker) && RunOk(req, ev, c.reviewer) && RunOk(req, ev, c.gate))
  }

  predicate GitOk(req: Request, ev: Evidence) {
    && ev.mergeBase == ev.head == ev.mainline && ev.clean && (req.subject ==> ev.subjectReachable)
    && (ev.landing.Some? && ev.landing.value.claimed ==>
          && ev.landing.value.hash.Some? && ev.landing.value.hash.value != ""
          && ev.landing.value.resolved == Some(ev.head))
  }

  lemma BindingsPass(req: Request, ev: Evidence, row: Option<ApplyRow>)
    ensures AllPass(BindingChecks(req, ev, row)) <==>
              && ev.artifactDigest == req.artifactDigest && ev.reviewArtifact == req.artifactDigest
              && ev.reviewSubtask == ev.artifactSubtask && NoneOr(req.subtask, ev.artifactSubtask)
              && ev.reviewApproved && ev.reviewFindings == Some(req.findings) && ev.queue.artifact == req.artifactDigest
              && ev.queue.subtask.text == ev.reviewSubtask && ev.queue.state == QueueApplied && row.Some?
  {
    var s := BindingChecks(req, ev, row);
    if AllPass(s) {
      assert s[0].passed && s[1].passed && s[2].passed && s[3].passed;
      assert s[6].passed && s[7].passed && s[8].passed && s[9].passed && s[10].passed && s[11].passed;
    }
  }

  lemma RowPasses(req: Request, ev: Evidence, applied: Option<int>, a: ApplyRow)
    ensures AllPass(ApplyRowChecks(req, ev, applied, a)) <==>
              && a.queue == req.queueId && a.artifact == req.artifactDigest && a.review == req.reviewId
              && a.findings == req.findings && Some(a.fence) == applied && a.verifier == req.verifier
              && a.recordedBy == ev.sessions.gate.token && ev.verdictFile == Some(a.verdict)
              && NoneOr(req.verdict, a.verdict) && NoneOr(req.sealDigest, a.sealDigest)
  {
    var s := ApplyRowChecks(req, ev, applied, a);
    if AllPass(s) {
      assert s[0].passed && s[1].passed && s[2].passed && s[3].passed && s[4].passed;
      assert s[5].passed && s[6].passed && s[7].passed && s[8].passed && s[9].passed;
    }
  }

  lemma AttemptPasses(req: Request, ev: Evidence)
    requires ReadyQueue.Parse(ev.queue).Ok?
    ensures AllPass(BindingChecks(req, ev, RowOf(req, ev)))
            && AllPass(ApplyVerificationChecks(req, ev, AppliedFence(ev), RowOf(req, ev)))
            <==> RowOf(req, ev).Some? && OneAttempt(req, ev, RowOf(req, ev).value)
  {
    BindingsPass(req, ev, RowOf(req, ev));
    ReadyQueue.ParseIff(ev.queue);
    if RowOf(req, ev).Some? { RowPasses(req, ev, AppliedFence(ev), RowOf(req, ev).value); }
  }

  lemma IdentityPasses(s: Trio<Session>, a: Trio<Attestation>)
    ensures AllPass(IdentityChecks(s, a)) <==> SeparateActors(s, a)
  {
    var roles, matches := ActorChecks(RoleVerified, RolesOk(s)), ActorChecks(AttestationMatches, AttestationsOk(s, a));
    var principals := Trio(s.worker.principal, s.reviewer.principal, s.gate.principal);
    var refs := Trio(RefOf(a.worker), RefOf(a.reviewer), RefOf(a.gate));
    var transcripts := Trio(a.worker.transcript, a.reviewer.transcript, a.gate.transcript);
    var p, r := PairChecks(PrincipalsDiffer, principals), PairChecks(RuntimeRefsDiffer, refs);
    AllPassJoin(roles + matches + p + r, PairChecks(TranscriptsDiffer, transcripts));
    AllPassJoin(roles + matches + p, r);
    AllPassJoin(roles + matches, p);
    AllPassJoin(roles, matches);
    ActorsPass(RoleVerified, RolesOk(s));
    ActorsPass(AttestationMatches, AttestationsOk(s, a));
    PairsPass(PrincipalsDiffer, principals);
    PairsPass(RuntimeRefsDiffer, refs);
    PairsPass(TranscriptsDiffer, transcripts);
  }

  lemma FilesPass(req: Request, ev: Evidence)
    ensures AllPass(FileChecks(req, ev)) <==> FilesMatch(req, ev)
  {
    var s := FileChecks(req, ev);
    if AllPass(s) { assert s[0].passed && s[1].passed && s[2].passed; }
  }

  lemma BoundaryPasses(b: Boundary)
    ensures AllPass(BoundaryChecks(b)) <==> b == Boundary(true, true, true, true, true)
  {
    var s := BoundaryChecks(b);
    if AllPass(s) { assert s[0].passed && s[1].passed && s[2].passed && s[3].passed && s[4].passed; }
  }

  lemma ContractPasses(c: Contract)
    ensures AllPass(ContractChecks(c)) <==>
              c == Contract(true, true, true, true, true, true, true, true, true, true, true, true)
  {
    var s := ContractChecks(c);
    if AllPass(s) {
      assert s[0].passed && s[1].passed && s[2].passed && s[3].passed && s[4].passed && s[5].passed;
      assert s[6].passed && s[7].passed && s[8].passed && s[9].passed && s[10].passed && s[11].passed;
    }
  }

  lemma PacketPasses(m: Mission)
    ensures AllPass(PacketChecks(m)) <==> PacketOk(m)
  {
    match m
    case MissionMissing => assert !PacketChecks(m)[0].passed;
    case MissionUnreadable => assert !PacketChecks(m)[1].passed;
    case MissionRead(boundary, contract, _) =>
      var start := [Check(MissionCheck(FilePresent), true), Check(MissionCheck(JsonReadable), true)];
      AllPassJoin(start, BoundaryChecks(boundary));
      AllPassJoin(start + BoundaryChecks(boundary), ContractChecks(contract));
      BoundaryPasses(boundary);
      ContractPasses(contract);
  }

  lemma MissionPasses(req: Request, ev: Evidence)
    ensures AllPass(MissionChecks(req, ev)) <==> MissionOk(req, ev)
  {
    var last := if req.enforce then [Check(MissionCheck(TrustedConfigured), req.trusted != {})] else [];
    AllPassJoin(if UsesMission(req) then PacketChecks(PacketOf(req, ev)) else [], last);
    PacketPasses(PacketOf(req, ev));
    if req.enforce { assert last[0].passed == (req.trusted != {}); }
  }

  lemma ObservedPass(req: Request, a: Trio<Attestation>)
    ensures AllPass(ObservedChecks(req, a)) <==> ObservedOk(req, a)
  {
    ActorsPass(ObservedProcessId, Trio(ObservedId(a.worker), ObservedId(a.reviewer), ObservedId(a.gate)));
  }

  lemma SignedPass(c: Trio<HostClaim>)
    ensures AllPass(SignedChecks(c)) <==>
              c.worker.accepted && c.reviewer.accepted && c.gate.accepted && |Signers(c)| == 1
  {
    var passed := Trio(c.worker.accepted, c.reviewer.accepted, c.gate.accepted);
    var share := [Check(ShareSigner, |Signers(c)| == 1)];
    AllPassJoin(ActorChecks(HostSigned, passed), share);
    ActorsPass(HostSigned, passed);
    assert share[0].passed == (|Signers(c)| == 1);
  }

  lemma ClaimsPass(trusted: set<string>, forbidden: set<string>, c: Trio<HostClaim>)
    ensures AllPass(RunIdChecks(c)) <==> HasRunId(c.worker) && HasRunId(c.reviewer) && HasRunId(c.gate)
    ensures AllPass(TrustedChecks(trusted, c)) <==>
              IssuerTrusted(trusted, c.worker) && IssuerTrusted(trusted, c.reviewer) && IssuerTrusted(trusted, c.gate)
    ensures AllPass(ForbiddenChecks(forbidden, c)) <==>
              && IssuerNotForbidden(forbidden, c.worker) && IssuerNotForbidden(forbidden, c.reviewer)
              && IssuerNotForbidden(forbidden, c.gate)
  {
    ActorsPass(ProviderRunId, Trio(HasRunId(c.worker), HasRunId(c.reviewer), HasRunId(c.gate)));
    ActorsPass(TrustedIssuer, Trio(IssuerTrusted(trusted, c.worker), IssuerTrusted(trusted, c.reviewer),
                                   IssuerTrusted(trusted, c.gate)));
    ActorsPass(ForbiddenIssuerAbsent,
               Trio(IssuerNotForbidden(forbidden, c.worker), IssuerNotForbidden(forbidden, c.reviewer),
                    IssuerNotForbidden(forbidden, c.gate)));
  }

  lemma HostPasses(req: Request, ev: Evidence, c: Trio<HostClaim>)
    ensures AllPass(HostChecks(req, ev, c)) <==> HostOk(req, ev, c)
  {
    var signed := if NeedsHost(req, ev) then SignedChecks(c) else [];
    var ids := if NeedsProvider(req, ev) then RunIdChecks(c) else [];
    var trusted := if req.trusted != {} then TrustedChecks(req.trusted, c) else [];
    var forbidden := if Forbidden(req, ev) != {} then ForbiddenChecks(Forbidden(req, ev), c) else [];
    AllPassJoin(signed, ids);
    AllPassJoin(signed + ids, trusted);
    AllPassJoin(signed + ids + trusted, forbidden);
    SignedPass(c);
    ClaimsPass(req.trusted, Forbidden(req, ev), c);
  }

  lemma GitPasses(req: Request, ev: Evidence)
    ensures AllPass(GitChecks(req, ev)) <==> GitOk(req, ev)
  {
    var start := [Check(GitCheck(HeadReachable), ev.mergeBase == ev.head),
                  Check(GitCheck(MainlineMatchesHead), ev.mainline == ev.head)];
    var l := LandingChecks(ev);
    var subject := if req.subject then [Check(GitCheck(SubjectReachable), ev.subjectReachable)] else [];
    var clean := [Check(GitCheck(WorktreeClean), ev.clean)];
    AllPassJoin(start, l);
    AllPassJoin(start + l, subject);
    AllPassJoin(start + l + subject, clean);
    if AllPass(start) { assert start[0].passed && start[1].passed; }
    if AllPass(l) && ev.landing.Some? { assert l[0].passed && l[1].passed && l[2].passed && l[3].passed; }
    if AllPass(subject) && req.subject { assert subject[0].passed; }
    assert clean[0].passed == ev.clean;
  }

  /** The part no requirement switches: one landed attempt, by separate actors, with its files. */
  predicate Landed(req: Request, ev: Evidence) {
    && ReadyQueue.Parse(ev.queue).Ok? && RowOf(req, ev).Some? && OneAttempt(req, ev, RowOf(req, ev).value)
    && SeparateActors(ev.sessions, ev.attestations)
    && FilesMatch(req, ev) && GitOk(req, ev)
  }

  /** The part the requirements switch: packet, processes and host claims. */
  predicate Required(req: Request, ev: Evidence) {
    && Verifiable(req, ev) && MissionOk(req, ev) && ObservedOk(req, ev.attestations) && HostOk(req, ev, ClaimsOf(ev))
  }

  /** Acceptance in terms of the evidence, without naming a check. */
  lemma AcceptedIff(req: Request, ev: Evidence)
    ensures Accepted(req, ev) <==> Required(req, ev) && Landed(req, ev)
  {
    if Verifiable(req, ev) {
      LogParts(req, ev);
      AttemptPasses(req, ev);
      IdentityPasses(ev.sessions, ev.attestations);
      FilesPass(req, ev);
      MissionPasses(req, ev);
      ObservedPass(req, ev.attestations);
      HostPasses(req, ev, ClaimsOf(ev));
      GitPasses(req, ev);
    }
  }

  /** What an authorization says is what was asked for, what was reviewed and what one recorded verification says. */
  ghost predicate Authorizes(req: Request, ev: Evidence, auth: Authorization) {
    && auth.queue == req.queueId && auth.artifact == req.artifactDigest && auth.review == req.reviewId
    && auth.artifact == ev.artifactDigest == ev.reviewArtifact == ev.queue.artifact
    && ev.reviewFindings == Some(auth.findings) && auth.findings == req.findings == ev.findingsFile
    && ev.queue.fence == Some(auth.fence) && auth.verifier == req.verifier && ev.verdictFile == Some(auth.verdict)
    && exists a :: a in ev.applyRows
         && a.queue == auth.queue && a.artifact == auth.artifact && a.review == auth.review
         && a.findings == auth.findings && a.fence == auth.fence && a.verifier == auth.verifier
         && a.verdict == auth.verdict && a.sealDigest == auth.applySeal
         && a.recordedBy == ev.sessions.gate.token
  }

  /** The session and its attestation are of the same run, in the given role. */
  predicate Attested(s: Session, a: Attestation, role: SessionRole) {
    && s.role == role && a.role == role && a.token == s.token && a.principal == s.principal && a.agent == s.agent
    && a.startedAt <= a.endedAt
  }

  /** Two runs in the same container, or in the same process outside any. */
  predicate SharesRuntime(a: Attestation, b: Attestation) {
    if a.container.Some? || b.container.Some? then a.container == b.container else a.process == b.process
  }

  /**
   An authorization is of one attempt by three separate actors, under the stored fence, and
   says nothing but what was requested, reviewed and recorded.
   */
  lemma AuthorizationIsSound(req: Request, ev: Evidence)
    requires Accepted(req, ev)
    ensures RowOf(req, ev).Some? && OneAttempt(req, ev, RowOf(req, ev).value)
    ensures Authorizes(req, ev, AuthorizationFor(req, RowOf(req, ev).value))
    ensures var s, a := ev.sessions, ev.attestations;
            && Attested(s.worker, a.worker, Executor) && Attested(s.reviewer, a.reviewer, Reviewer)
            && Attested(s.gate, a.gate, ApplyGate)
            && s.worker.principal != s.reviewer.principal && s.worker.principal != s.gate.principal
            && s.reviewer.principal != s.gate.principal
            && !SharesRuntime(a.worker, a.reviewer) && !SharesRuntime(a.worker, a.gate)
            && !SharesRuntime(a.reviewer, a.gate)
            && a.worker.transcript != a.reviewer.transcript && a.worker.transcript != a.gate.transcript
            && a.reviewer.transcript != a.gate.transcript
  {
    AcceptedIff(req, ev);
    var a := RowOf(req, ev).value;
    ReadyQueue.ParseIff(ev.queue);
    MatchingIff(req, AppliedFence(ev).value, ev.applyRows, a);
  }

  lemma AcceptedAuthorizes(req: Request, ev: Evidence)
    requires Verifiable(req, ev)
    ensures AllPass(LogOf(req, ev)) ==>
              RowOf(req, ev).Some? && Authorizes(req, ev, AuthorizationFor(req, RowOf(req, ev).value))
  {
    if AllPass(LogOf(req, ev)) { AuthorizationIsSound(req, ev); }
  }
}
