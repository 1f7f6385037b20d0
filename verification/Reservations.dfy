/**
 Requesting a reservation: normalise the scope, check its shape, look for
 overlaps and insert the rows. This is what keeps stored scopes well formed.
 */
module Reservations {
  import opened Text
  import opened Paths
  import opened Overlap

  const MAX_OBJECT_ID_LEN := 256
  const MAX_PATH_LEN := 4096
  const MAX_GENERATED_MEMBERS := 1024

  datatype Request = Request(owner: string, scopeClass: ScopeClass, scopeKey: string, members: seq<string>,
                             leaseDuration: int)

  function NormalizeScopeKey(scopeClass: ScopeClass, raw: string): (r: PathResult)
    ensures r.Ok? && scopeClass in {ExactPath, Subtree} ==> NormalPath(r.path)
    ensures r.InvalidPath? ==> r.raw == raw
  {
    match scopeClass
    case RepoGlobal => Ok("repo")
    case GeneratedSet => if Trim(raw) == "" then InvalidPath(raw) else Ok(Trim(raw))
    case _ =>
      if Normalize(raw).Ok? then NormalizedIsNormal(raw); Normalize(raw) else Normalize(raw)
  }

  datatype MembersResult = Members(paths: seq<string>) | BadMember(raw: string)

  /** All members normal, duplicate-free and in order, or the first bad one. */
  method NormalizeGeneratedMembers(members: seq<string>) returns (r: MembersResult)
    ensures r.Members? <==> forall m :: m in members ==> Normalize(m).Ok?
    ensures r.Members? ==> Ascending(r.paths)
    ensures r.Members? ==> forall p :: p in r.paths <==> exists m :: m in members && Normalize(m) == Ok(p)
    ensures r.BadMember? ==> r.raw in members && Normalize(r.raw).InvalidPath?
  {
    var normalized, i := [], 0;
    while i < |members|
      invariant 0 <= i <= |members|
      invariant forall j :: 0 <= j < i ==> Normalize(members[j]).Ok?
      invariant forall p :: p in normalized <==> exists j :: 0 <= j < i && Normalize(members[j]) == Ok(p)
    {
      var one := NormalizeRelativeRepoPath(members[i]);
      if one.InvalidPath? {
        assert members[i] in members;
        return BadMember(members[i]);
      }
      normalized := normalized + [one.path];
      i := i + 1;
    }
    r := Members(SortedUnique(normalized));
    forall p ensures p in r.paths <==> exists m :: m in members && Normalize(m) == Ok(p) {
      IndexedMember(members, p);
    }
  }

  lemma IndexedMember(members: seq<string>, p: string)
    ensures (exists j :: 0 <= j < |members| && Normalize(members[j]) == Ok(p)) <==>
            exists m :: m in members && Normalize(m) == Ok(p)
  {
    if m :| m in members && Normalize(m) == Ok(p) {
      var j :| 0 <= j < |members| && members[j] == m;
      assert Normalize(members[j]) == Ok(p);
    }
  }

  /** `ensure_reservation_scope_shape`. */
  predicate ScopeShapeOk(scopeClass: ScopeClass, key: string, members: seq<string>) {
    Trim(key) != "" && (scopeClass == GeneratedSet <==> members != [])
  }

  function Insert(t: Tables, id: string, owner: string, c: Candidate, deadline: int, now: int): Tables {
    var row := Reservation(id, owner, c.scopeClass, c.scopeKey, deadline, Active, now);
    t.(reservations := t.reservations + [row],
       members := t.members + seq(|c.members|, i requires 0 <= i < |c.members| => Member(id, c.members[i])))
  }

  /** A freshly made id: no reservation and no member row carries it. */
  ghost predicate FreshId(t: Tables, id: string) {
    && (forall r :: r in t.reservations ==> r.id != id)
    && (forall m :: m in t.members ==> m.reservationId != id)
  }

  lemma InsertKeepsWellFormed(t: Tables, id: string, owner: string, c: Candidate, deadline: int, now: int)
    requires WellFormed(t) && FreshId(t, id) && WellFormedScope(CandidateScope(c))
    ensures var t' := Insert(t, id, owner, c, deadline, now);
            && WellFormed(t')
            && ScopeOf(t', t'.reservations[|t.reservations|]) == CandidateScope(c)
            && forall r :: r in t.reservations ==> r in t'.reservations && ScopeOf(t', r) == ScopeOf(t, r)
  {
    var t' := Insert(t, id, owner, c, deadline, now);
    var added := t'.members[|t.members|..];
    assert t'.members == t.members + added;
    assert forall i :: 0 <= i < |added| ==> added[i] == Member(id, c.members[i]);
    forall r | r in t.reservations ensures ScopeOf(t', r) == ScopeOf(t, r) {
      assert MembersOf(t'.members, r.id) == MembersOf(t.members, r.id);
    }
    var row := t'.reservations[|t.reservations|];
    assert MembersOf(t'.members, id) == CandidateScope(c).members by {
      forall p | p in CandidateScope(c).members ensures p in MembersOf(t'.members, id) {
        var i :| 0 <= i < |c.members| && c.members[i] == p;
        assert t'.members[|t.members| + i] == Member(id, p);
      }
    }
    forall r | r in t'.reservations ensures WellFormedScope(ScopeOf(t', r)) {
      if r in t.reservations {} else { assert r == row; }
    }
  }

  predicate TooLong(text: string, max: nat) { Utf8Length(text) > max }

  /** Refused for its size: the owner id, the number of members, the key, or a member once normalised. */
  ghost predicate Oversized(req: Request) {
    || Utf8Length(req.owner) > 256 || |req.members| > 1024
    || (NormalizeScopeKey(req.scopeClass, req.scopeKey).Ok?
        && Utf8Length(NormalizeScopeKey(req.scopeClass, req.scopeKey).path) > 4096)
    || exists m :: m in req.members && Normalize(m).Ok? && Utf8Length(Normalize(m).path) > 4096
  }

  /** Not a scope: a bad key or member, a blank key, or members where there must be none or none where there must be some. */
  ghost predicate Misshapen(req: Request) {
    || NormalizeScopeKey(req.scopeClass, req.scopeKey).InvalidPath?
    || Trim(NormalizeScopeKey(req.scopeClass, req.scopeKey).path) == ""
    || (exists m :: m in req.members && Normalize(m).InvalidPath?)
    || (req.scopeClass == GeneratedSet <==> req.members == [])
  }

  /** The key as it was asked for: normalised for paths, trimmed for a generated set, fixed for the repository. */
  predicate KeyOf(req: Request, key: string) {
    match req.scopeClass
    case RepoGlobal => key == "repo"
    case GeneratedSet => key == Trim(req.scopeKey)
    case _ => Normalize(req.scopeKey) == Ok(key)
  }

  ghost predicate MemberOf(req: Request, path: string) { exists raw :: raw in req.members && Normalize(raw) == Ok(path) }

  /** The validation part: the normalised scope, unless the request is refused. */
  method ValidateScope(req: Request) returns (r: Option<Candidate>)
    ensures r.None? <==> Oversized(req) || Misshapen(req)
    ensures r.Some? ==>
              && r.value.scopeClass == req.scopeClass && KeyOf(req, r.value.scopeKey)
              && (forall p :: p in r.value.members <==> MemberOf(req, p))
              && WellFormedScope(CandidateScope(r.value))
  {
    if TooLong(req.owner, MAX_OBJECT_ID_LEN) || |req.members| > MAX_GENERATED_MEMBERS { return None; }
    var key := NormalizeScopeKey(req.scopeClass, req.scopeKey);
    if key.InvalidPath? || TooLong(key.path, MAX_PATH_LEN) { return None; }
    var members := NormalizeGeneratedMembers(req.members);
    if members.BadMember? { return None; }
    MembersEmptyIff(req, members.paths);
    if !ScopeShapeOk(req.scopeClass, key.path, members.paths) { return None; }
    var long := AnyTooLong(members.paths);
    MembersTooLong(req, members.paths);
    if long { return None; }
    var c := Candidate(req.scopeClass, key.path, members.paths);
    RequestedScopeWellFormed(c, req.members);
    return Some(c);
  }

  lemma MembersEmptyIff(req: Request, paths: seq<string>)
    requires forall m :: m in req.members ==> Normalize(m).Ok?
    requires forall p :: p in paths <==> MemberOf(req, p)
    ensures paths == [] <==> req.members == []
  {
    if paths != [] { assert paths[0] in paths; }
    if req.members != [] {
      assert req.members[0] in req.members;
      assert Normalize(req.members[0]).path in paths;
    }
  }

  lemma MembersTooLong(req: Request, paths: seq<string>)
    requires forall m :: m in req.members ==> Normalize(m).Ok?
    requires forall p :: p in paths <==> MemberOf(req, p)
    ensures (exists p :: p in paths && TooLong(p, MAX_PATH_LEN)) <==>
            exists m :: m in req.members && Normalize(m).Ok? && Utf8Length(Normalize(m).path) > 4096
  {
    if m :| m in req.members && Normalize(m).Ok? && Utf8Length(Normalize(m).path) > 4096 {
      assert Normalize(m).path in paths;
    }
  }

  datatype Reserved = Reserved(tables: Tables, row: Reservation, overlaps: seq<Reservation>) | Rejected

  /**
   The reservation part of `request_reservation`: on success the row and its members are those
   asked for, the table stays well formed and the reported overlaps are exactly the live
   reservations that share a path with the new one; a rejected request leaves nothing behind.
   Whether the session is an orchestrator's and the owner exists is read from other tables.
   */
  method RequestReservation(t: Tables, id: string, req: Request, permitted: bool, now: int) returns (r: Reserved)
    requires WellFormed(t) && FreshId(t, id) && req.leaseDuration > 0
    ensures r.Reserved? ==>
              && WellFormed(r.tables) && r.tables.reservations == t.reservations + [r.row]
              && r.row.id == id && r.row.owner == req.owner && r.row.scopeClass == req.scopeClass
              && r.row.state == Active && r.row.createdAt == now && KeyOf(req, r.row.scopeKey)
              && r.row.leaseDeadline == (if t.leaseClock.Some? then t.leaseClock.value else 0) + req.leaseDuration
    ensures r.Reserved? ==>
              forall m :: m in r.tables.members <==> m in t.members || (m.reservationId == id && MemberOf(req, m.path))
    ensures r.Reserved? ==>
              && UniqueIds(r.overlaps)
              && forall o :: o in r.overlaps <==>
                   && o in t.reservations && o.state == Active && o.leaseDeadline > CurrentLeaseTick(t)
                   && SharePath(ScopeOf(r.tables, o), ScopeOf(r.tables, r.row))
    ensures r.Rejected? <==> !permitted || Oversized(req) || Misshapen(req)
  {
    var scope := ValidateScope(req);
    if !permitted || scope.None? { return Rejected; }
    var c := scope.value;
    var overlaps := FindOverlappingReservations(t, c);
    var deadline := CurrentLeaseTick(t) + req.leaseDuration;
    InsertKeepsWellFormed(t, id, req.owner, c, deadline, now);
    InsertedMembers(t, id, req.owner, c, deadline, now);
    var t' := Insert(t, id, req.owner, c, deadline, now);
    return Reserved(t', t'.reservations[|t.reservations|], overlaps);
  }

  lemma InsertedMembers(t: Tables, id: string, owner: string, c: Candidate, deadline: int, now: int)
    ensures forall m :: m in Insert(t, id, owner, c, deadline, now).members <==>
              m in t.members || (m.reservationId == id && m.path in c.members)
  {
    var t' := Insert(t, id, owner, c, deadline, now);
    forall m: Member | m.reservationId == id && m.path in c.members ensures m in t'.members {
      var i :| 0 <= i < |c.members| && c.members[i] == m.path;
      assert t'.members[|t.members| + i] == m;
    }
  }

  method AnyTooLong(members: seq<string>) returns (long: bool)
    ensures long <==> exists p :: p in members && TooLong(p, MAX_PATH_LEN)
  {
    for i := 0 to |members|
      invariant forall j :: 0 <= j < i ==> !TooLong(members[j], MAX_PATH_LEN)
    {
      if TooLong(members[i], MAX_PATH_LEN) {
        assert members[i] in members;
        return true;
      }
    }
    return false;
  }

  lemma RequestedScopeWellFormed(c: Candidate, raw: seq<string>)
    requires ScopeShapeOk(c.scopeClass, c.scopeKey, c.members)
    requires c.scopeClass == RepoGlobal ==> c.scopeKey == "repo"
    requires c.scopeClass in {ExactPath, Subtree} ==> NormalPath(c.scopeKey)
    requires forall p :: p in c.members <==> exists m :: m in raw && Normalize(m) == Ok(p)
    ensures WellFormedScope(CandidateScope(c))
  {
    var s := CandidateScope(c);
    forall p | p in s.members ensures NormalPath(p) {
      var m :| m in raw && Normalize(m) == Ok(p);
      NormalizedIsNormal(m);
    }
    if c.members != [] { assert c.members[0] in s.members; }
  }
}
