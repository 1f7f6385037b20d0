/** What the requirements of a request guarantee of the evidence it is accepted on, column by column. */
module ApplyRequirements {
  import opened Text
  import opened Lifecycle
  import opened CheckNames
  import opened ApplyChecks
  import opened ApplyProof
  import opened ApplyPolicy

  // ------------------------------------------------------------------- host claims

  /** Every claim is accepted and those that name a signer name this one. */
  predicate SignedBy(c: Trio<HostClaim>, k: string) {
    && c.worker.accepted && c.reviewer.accepted && c.gate.accepted
    && (c.worker.signer == Some(k) || c.reviewer.signer == Some(k) || c.gate.signer == Some(k))
    && c.worker.signer in {None, Some(k)} && c.reviewer.signer in {None, Some(k)} && c.gate.signer in {None, Some(k)}
  }

  lemma SignersMean(c: Trio<HostClaim>) returns (k: string)
    requires |Signers(c)| == 1 && c.worker.accepted && c.reviewer.accepted && c.gate.accepted
    ensures SignedBy(c, k)
  {
    k :| k in Signers(c);
    var rest := Signers(c) - {k};
    assert |rest| == 0 && Signers(c) == {k} + rest;
    assert forall x :: x in Signers(c) ==> x == k;
    assert SignerOf(c.worker) <= Signers(c) && SignerOf(c.reviewer) <= Signers(c) && SignerOf(c.gate) <= Signers(c);
    assert c.worker.signer.Some? ==> c.worker.signer.value in SignerOf(c.worker);
    assert c.reviewer.signer.Some? ==> c.reviewer.signer.value in SignerOf(c.reviewer);
    assert c.gate.signer.Some? ==> c.gate.signer.value in SignerOf(c.gate);
  }

  /** A request that asks for host claims in any way gets three accepted ones of one signer. */
  lemma HostClaimsMean(req: Request, ev: Evidence) returns (k: string)
    requires Accepted(req, ev)
    requires req.hostSigned || req.provider || req.trusted != {} || req.forbidden != {} || req.enforce
    ensures ev.hostClaims.Some? && SignedBy(ev.hostClaims.value, k)
  {
    AcceptedIff(req, ev);
    k := SignersMean(ev.hostClaims.value);
  }

  /** One that asks for provider runs gets, for each actor, a run id of an allowed issuer, neither of them blank. */
  lemma ProviderRunsMean(req: Request, ev: Evidence, a: Actor)
    requires Accepted(req, ev)
    requires req.provider || req.trusted != {} || req.forbidden != {} || req.enforce
    ensures ev.hostClaims.Some? &&
            var c := ev.hostClaims.value.Of(a);
            && c.runId.Some? && Trim(c.runId.value) != "" && c.issuer.Some? && Trim(c.issuer.value) != ""
            && c.issuer.value !in req.forbidden && (req.trusted != {} ==> c.issuer.value in req.trusted)
  {
    AcceptedIff(req, ev);
  }

  // ------------------------------------------------------------------ process ids

  /** The number a text of digits stands for, read from the left. */
  function NumberFrom(s: string, n: int): int {
    if s == "" then n else NumberFrom(s[1..], 10 * n + (s[0] as int - '0' as int))
  }

  lemma {:induction false} DigitsFrom(s: string, n: int)
    ensures NumberFrom(s, n) == n * Power(|s|) + Digits(s)
  {
    if s != "" {
      var init, last := s[..|s| - 1], s[|s| - 1] as int - '0' as int;
      DigitsFrom(init, n);
      NumberSnoc(s, n);
      assert 10 * (n * Power(|init|)) == n * Power(|s|);
    }
  }

  function Power(k: nat): int { if k == 0 then 1 else 10 * Power(k - 1) }

  lemma {:induction false} NumberSnoc(s: string, n: int)
    requires s != ""
    ensures NumberFrom(s, n) == 10 * NumberFrom(s[..|s| - 1], n) + (s[|s| - 1] as int - '0' as int)
  {
    if |s| > 1 {
      NumberSnoc(s[1..], 10 * n + (s[0] as int - '0' as int));
      assert s[1..][..|s| - 2] == s[..|s| - 1][1..] && s[1..][|s| - 2] == s[|s| - 1];
    }
  }

  /** A positive decimal number of 64 bits, perhaps with a plus sign. */
  predicate PositiveU64(s: string) {
    var digits := if "+" <= s then s[1..] else s;
    && digits != "" && AllDigits(digits) && 1 <= NumberFrom(digits, 0) <= 0xFFFF_FFFF_FFFF_FFFF
  }

  lemma ObservedIdIff(a: Attestation)
    ensures ObservedId(a) <==> a.process.Some? && PositiveU64(a.process.value)
  {
    if a.process.Some? {
      var s := a.process.value;
      var digits := if s != "" && s[0] == '+' then s[1..] else s;
      assert digits == if "+" <= s then s[1..] else s;
      DigitsFrom(digits, 0);
      assert NumberFrom(digits, 0) == Digits(digits);
    }
  }

  /** A request for observed processes gets one for each actor. */
  lemma ObservedMeans(req: Request, ev: Evidence, a: Actor)
    requires Accepted(req, ev) && req.observed
    ensures ev.attestations.Of(a).process.Some? && PositiveU64(ev.attestations.Of(a).process.value)
  {
    AcceptedIff(req, ev);
    ObservedIdIff(ev.attestations.Of(a));
  }

  // ---------------------------------------------------------------- mission packet

  predicate BoundaryHolds(f: MissionFacts) {
    && !f.boundaryEmpty && f.mayScheduleOrSettle == Some(false) && f.ownsLifecycle == Some(true)
    && f.singleAttempt == Some(true) && f.hooksEnforce == Some(true)
  }

  predicate ContractHolds(f: MissionFacts) {
    && !f.contractEmpty && f.schema == Some("mutai.runtime-identity-contract.v1") && f.trustedRequired == Some(true)
    && "landing" in f.requiredFor && "promoted_fleet_proof" in f.requiredFor
    && "mutai-local-proof-runner" in f.forbidden && "codex-env" in f.forbidden
    && {"executor", "reviewer", "apply_gate", "closer"} <= f.actorRoles
    && {"provider_run_id", "provider_run_id_issuer"} <= f.providerFields
    && {"session_token", "agent_principal_id", "agent_instance_id", "role", "provider", "model",
        "process_id_or_container_id", "command_transcript_digest", "started_at", "ended_at"} <= f.runtimeFields
    && {"queue_id", "artifact_digest", "review_id", "claim_fence_seq", "apply_verification_seal_digest"} <= f.bindings
    && SeparationHolds(f)
  }

  predicate SeparationHolds(f: MissionFacts) {
    {"executor.agent_principal_id != reviewer.agent_principal_id",
     "executor.agent_principal_id != apply_gate.agent_principal_id",
     "reviewer.agent_principal_id != apply_gate.agent_principal_id",
     "executor.provider_run_id != reviewer.provider_run_id",
     "executor.provider_run_id != apply_gate.provider_run_id",
     "reviewer.provider_run_id != apply_gate.provider_run_id"} <= f.separation
  }

  lemma PacketOkIff(f: MissionFacts)
    ensures PacketOk(ReadMission(f)) <==> BoundaryHolds(f) && ContractHolds(f)
  {
    assert SeparationHolds(f) <==> PRINCIPAL_SEPARATION <= f.separation && RUN_SEPARATION <= f.separation;
    assert LOCAL_ISSUERS <= f.forbidden <==> "mutai-local-proof-runner" in f.forbidden && "codex-env" in f.forbidden;
  }

  /** A request that names a packet or is enforced is accepted only on a packet that gives every guarantee. */
  lemma PacketMeans(req: Request, ev: Evidence, f: MissionFacts)
    requires Accepted(req, ev)
    requires match req.missionFile
             case Some(name) => name in ev.packets ==> ev.packets[name] == ReadMission(f)
             case None => req.enforce && ev.defaultPacket == ReadMission(f)
    ensures req.missionFile.Some? ==> req.missionFile.value in ev.packets
    ensures BoundaryHolds(f) && ContractHolds(f) && (req.enforce ==> req.trusted != {})
  {
    AcceptedIff(req, ev);
    PacketOkIff(f);
  }

  // ----------------------------------------------------------- which checks are made

  ghost predicate Made(log: seq<Check>, n: CheckName) { exists i :: 0 <= i < |log| && log[i].name == n }

  lemma MadeJoin(s: seq<Check>, t: seq<Check>, n: CheckName)
    ensures Made(s + t, n) <==> Made(s, n) || Made(t, n)
  {
    if i :| 0 <= i < |s| && s[i].name == n { assert (s + t)[i].name == n; }
    if i :| 0 <= i < |t| && t[i].name == n { assert (s + t)[|s| + i].name == n; }
    if i :| 0 <= i < |s + t| && (s + t)[i].name == n {
      if i < |s| { assert s[i].name == n; } else { assert t[i - |s|].name == n; }
    }
  }

  /** The optional checks have ranks of their own, so each is made where its part of the log makes it. */
  lemma MadeInPart(req: Request, ev: Evidence, applied: Option<int>, row: Option<ApplyRow>, c: Trio<HostClaim>, n: CheckName)
    requires Rank(n) >= 40
    ensures Made(Log(req, ev, applied, row, c), n) <==>
            || Made(MissionChecks(req, ev), n) || Made(ObservedChecks(req, ev.attestations), n)
            || Made(HostChecks(req, ev, c), n) || Made(GitChecks(req, ev), n)
    ensures Made(MissionChecks(req, ev), n) ==> Rank(n) < 60
    ensures Made(ObservedChecks(req, ev.attestations), n) ==> 60 <= Rank(n) < 63
    ensures Made(HostChecks(req, ev, c), n) ==> 63 <= Rank(n) < 76
    ensures Made(GitChecks(req, ev), n) ==> 76 <= Rank(n)
  {
    var b, v, i, f := BindingChecks(req, ev, row), ApplyVerificationChecks(req, ev, applied, row),
                      IdentityChecks(ev.sessions, ev.attestations), FileChecks(req, ev);
    var m, o, h := MissionChecks(req, ev), ObservedChecks(req, ev.attestations), HostChecks(req, ev, c);
    BindingBand(req, ev, row);
    ApplyVerificationBand(req, ev, applied, row);
    IdentityBand(ev.sessions, ev.attestations);
    ShortBands(req, ev);
    MissionBand(req, ev);
    HostBand(req, ev, c);
    GitBand(req, ev);
    MadeJoin(b, v, n);
    MadeJoin(b + v, i, n);
    MadeJoin(b + v + i, f, n);
    MadeJoin(b + v + i + f, m, n);
    MadeJoin(b + v + i + f + m, o, n);
    MadeJoin(b + v + i + f + m + o, h, n);
    MadeJoin(b + v + i + f + m + o + h, GitChecks(req, ev), n);
  }

  lemma ActorsMade(kind: ActorKind, passed: Trio<bool>, k: ActorKind)
    ensures Made(ActorChecks(kind, passed), ActorCheck(k, Worker)) <==> k == kind
  {
    assert ActorChecks(kind, passed)[0].name == ActorCheck(kind, Worker);
  }

  lemma ClaimsMade(c: Trio<HostClaim>, trusted: set<string>, forbidden: set<string>, k: ActorKind)
    ensures Made(SignedChecks(c), ActorCheck(k, Worker)) <==> k == HostSigned
    ensures Made(RunIdChecks(c), ActorCheck(k, Worker)) <==> k == ProviderRunId
    ensures Made(TrustedChecks(trusted, c), ActorCheck(k, Worker)) <==> k == TrustedIssuer
    ensures Made(ForbiddenChecks(forbidden, c), ActorCheck(k, Worker)) <==> k == ForbiddenIssuerAbsent
  {
    var accepted := Trio(c.worker.accepted, c.reviewer.accepted, c.gate.accepted);
    MadeJoin(ActorChecks(HostSigned, accepted), [Check(ShareSigner, |Signers(c)| == 1)], ActorCheck(k, Worker));
    ActorsMade(HostSigned, accepted, k);
    ActorsMade(ProviderRunId, Trio(HasRunId(c.worker), HasRunId(c.reviewer), HasRunId(c.gate)), k);
    ActorsMade(TrustedIssuer, Trio(IssuerTrusted(trusted, c.worker), IssuerTrusted(trusted, c.reviewer),
                                   IssuerTrusted(trusted, c.gate)), k);
    ActorsMade(ForbiddenIssuerAbsent, Trio(IssuerNotForbidden(forbidden, c.worker),
                                           IssuerNotForbidden(forbidden, c.reviewer),
                                           IssuerNotForbidden(forbidden, c.gate)), k);
  }

  lemma HostMade(req: Request, ev: Evidence, c: Trio<HostClaim>, k: ActorKind)
    ensures Made(HostChecks(req, ev, c), ActorCheck(k, Worker)) <==>
            || (k == HostSigned && NeedsHost(req, ev)) || (k == ProviderRunId && NeedsProvider(req, ev))
            || (k == TrustedIssuer && req.trusted != {}) || (k == ForbiddenIssuerAbsent && Forbidden(req, ev) != {})
  {
    var n := ActorCheck(k, Worker);
    var signed := if NeedsHost(req, ev) then SignedChecks(c) else [];
    var ids := if NeedsProvider(req, ev) then RunIdChecks(c) else [];
    var trusted := if req.trusted != {} then TrustedChecks(req.trusted, c) else [];
    var forbidden := if Forbidden(req, ev) != {} then ForbiddenChecks(Forbidden(req, ev), c) else [];
    MadeJoin(signed, ids, n);
    MadeJoin(signed + ids, trusted, n);
    MadeJoin(signed + ids + trusted, forbidden, n);
    ClaimsMade(c, req.trusted, Forbidden(req, ev), k);
  }

  /** Some issuer is forbidden, by the request or by the packet it uses. */
  predicate ForbidsSome(req: Request, ev: Evidence) {
    || req.forbidden != {}
    || (match req.missionFile
        case Some(name) => name in ev.packets && ev.packets[name].MissionRead? && ev.packets[name].forbidden != {}
        case None => req.enforce && ev.defaultPacket.MissionRead? && ev.defaultPacket.forbidden != {})
  }

  /** The checks on processes and host claims are made exactly when they are asked for, in one way or another. */
  lemma ActorCheckMadeIff(req: Request, ev: Evidence, applied: Option<int>, row: Option<ApplyRow>, c: Trio<HostClaim>,
                          k: ActorKind)
    requires k != RoleVerified && k != AttestationMatches
    ensures Made(Log(req, ev, applied, row, c), ActorCheck(k, Worker)) <==>
            match k
            case ObservedProcessId => req.observed
            case TrustedIssuer => req.trusted != {}
            case ForbiddenIssuerAbsent => ForbidsSome(req, ev)
            case ProviderRunId => req.provider || req.trusted != {} || ForbidsSome(req, ev) || req.enforce
            case HostSigned =>
              req.hostSigned || req.provider || req.trusted != {} || ForbidsSome(req, ev) || req.enforce
            case _ => true
  {
    var a := ev.attestations;
    MadeInPart(req, ev, applied, row, c, ActorCheck(k, Worker));
    ActorsMade(ObservedProcessId, Trio(ObservedId(a.worker), ObservedId(a.reviewer), ObservedId(a.gate)), k);
    HostMade(req, ev, c, k);
    assert ForbidsSome(req, ev) <==> Forbidden(req, ev) != {} by { ForbidsIff(req, ev); }
  }

  lemma ForbidsIff(req: Request, ev: Evidence)
    ensures ForbidsSome(req, ev) <==> Forbidden(req, ev) != {}
  {
    var packet := if UsesMission(req) && PacketOf(req, ev).MissionRead? then PacketOf(req, ev).forbidden else {};
    assert req.forbidden + packet == {} <==> req.forbidden == {} && packet == {} by {
      assert req.forbidden <= req.forbidden + packet && packet <= req.forbidden + packet;
    }
  }

  // ------------------------------------------------------------------------ batches

  /** What a batch asks of all its proofs holds for each accepted one, whatever the proof itself asks. */
  lemma BatchRequires(req: Request, b: Batch, ev: Evidence, a: Actor)
    requires Accepted(Overridden(req, b), ev)
    ensures b.observed ==> ev.attestations.Of(a).process.Some? && PositiveU64(ev.attestations.Of(a).process.value)
    ensures b.hostSigned || b.provider || b.trusted != {} || b.forbidden != {} || b.enforce ==> ev.hostClaims.Some?
    ensures b.provider || b.trusted != {} || b.forbidden != {} || b.enforce ==>
              var c := ev.hostClaims.value.Of(a);
              && c.runId.Some? && c.issuer.Some? && c.issuer.value !in b.forbidden
              && (b.trusted != {} ==> c.issuer.value in req.trusted + b.trusted)
    ensures b.enforce ==> PacketOf(req, ev).MissionRead? && req.trusted + b.trusted != {}
  {
    var all := Overridden(req, b);
    AcceptedIff(all, ev);
    assert b.trusted <= all.trusted && b.forbidden <= all.forbidden;
    if b.observed { ObservedMeans(all, ev, a); }
    if b.provider || b.trusted != {} || b.forbidden != {} || b.enforce { ProviderRunsMean(all, ev, a); }
    if b.hostSigned { var k := HostClaimsMean(all, ev); }
  }
}
