/**
 The reservation overlap index. The simple form is SharePath: two scopes overlap
 when some path lies in both. The fast form is the code's: ancestor key lists,
 prefix ranges on sorted text, and IN lists cut into chunks.
 */
module Overlap {
  import opened Text
  import opened Paths

  datatype ScopeClass = RepoGlobal | ExactPath | Subtree | GeneratedSet
  datatype ReservationState = Active | Released | Expired

  datatype Reservation = Reservation(
    id: string, owner: string, scopeClass: ScopeClass, scopeKey: string,
    leaseDeadline: int, state: ReservationState, createdAt: int)

  datatype Member = Member(reservationId: string, path: string)

  /** `reservations`, `reservation_generated_members` and `lease_clock`. */
  datatype Tables = Tables(reservations: seq<Reservation>, members: seq<Member>, leaseClock: Option<int>)

  datatype Candidate = Candidate(scopeClass: ScopeClass, scopeKey: string, members: seq<string>)

  // ------------------------------------------------------- the simple form

  datatype Scope = Scope(scopeClass: ScopeClass, scopeKey: string, members: set<string>)

  /** The paths a scope stands for; a subtree is decided component by component. */
  predicate Covers(s: Scope, p: string) {
    match s.scopeClass
    case RepoGlobal => true
    case ExactPath => p == s.scopeKey
    case Subtree => Split(s.scopeKey) <= Split(p)
    case GeneratedSet => p in s.members
  }

  ghost predicate SharePath(a: Scope, b: Scope) {
    exists p :: NormalPath(p) && Covers(a, p) && Covers(b, p)
  }

  /** What `normalize_scope_key`, `normalize_generated_members` and the shape check leave. */
  predicate WellFormedScope(s: Scope) {
    match s.scopeClass
    case RepoGlobal => s.scopeKey == "repo" && s.members == {}
    case ExactPath => NormalPath(s.scopeKey) && s.members == {}
    case Subtree => NormalPath(s.scopeKey) && s.members == {}
    case GeneratedSet => s.members != {} && forall m :: m in s.members ==> NormalPath(m)
  }

  function MembersOf(members: seq<Member>, id: string): set<string> {
    set m | m in members && m.reservationId == id :: m.path
  }

  function ScopeOf(t: Tables, r: Reservation): Scope {
    Scope(r.scopeClass, r.scopeKey, MembersOf(t.members, r.id))
  }

  function CandidateScope(c: Candidate): Scope {
    Scope(c.scopeClass, c.scopeKey, set m | m in c.members)
  }

  predicate UniqueIds(rows: seq<Reservation>) {
    forall i, j :: 0 <= i < j < |rows| ==> rows[i].id != rows[j].id
  }

  ghost predicate WellFormed(t: Tables) {
    && UniqueIds(t.reservations)
    && forall r :: r in t.reservations ==> WellFormedScope(ScopeOf(t, r))
  }

  predicate Live(r: Reservation, now: int) { r.state == Active && r.leaseDeadline > now }

  /** `SELECT last_tick_ms ... .unwrap_or(0)`. */
  function CurrentLeaseTick(t: Tables): int {
    match t.leaseClock case Some(tick) => tick case None => 0
  }

  // -------------------------------------- each index probe decides SharePath

  /** Scope b is met by an exact path. */
  predicate ProbeExact(path: string, b: Scope) { Covers(b, path) }

  /** A key equal to the subtree root, or in the range of its descendants. */
  predicate UnderPath(root: string, key: string) {
    key == root
    || (UpperBound(root + "/").Some? && InRange(key, root + "/", UpperBound(root + "/").value))
  }

  /** The descendant range holds exactly the texts that go on after the slash. */
  lemma DescendantRange(root: string)
    ensures UpperBound(root + "/") == Some(root + ['0'])
    ensures forall x :: InRange(x, root + "/", root + ['0']) <==> root + "/" <= x
  {
    var prefix := root + "/";
    assert prefix[|prefix| - 1] == '/' && prefix[..|prefix| - 1] == root;
    assert UpperBound(prefix) == Some(root + ['0']);
    RangeExactIff(prefix);
    assert OnlyTopPassedOver(prefix);
  }

  lemma UnderPathIff(root: string, key: string)
    ensures UnderPath(root, key) <==> Split(root) <= Split(key)
    ensures UnderPath(root, key) <==> key == root || root + "/" <= key
  {
    DescendantRange(root);
    ComponentPrefixIff(root, key);
  }

  predicate ProbeSubtree(root: string, b: Scope) {
    match b.scopeClass
    case RepoGlobal => true
    case ExactPath => Split(root) <= Split(b.scopeKey)
    case Subtree => Split(root) <= Split(b.scopeKey) || Split(b.scopeKey) <= Split(root)
    case GeneratedSet => exists m :: m in b.members && Split(root) <= Split(m)
  }

  predicate ProbeGenerated(members: set<string>, b: Scope) {
    exists m :: m in members && Covers(b, m)
  }

  predicate Probe(a: Scope, b: Scope) {
    match a.scopeClass
    case RepoGlobal => true
    case ExactPath => ProbeExact(a.scopeKey, b)
    case Subtree => ProbeSubtree(a.scopeKey, b)
    case GeneratedSet => ProbeGenerated(a.members, b)
  }

  /** Every well-formed scope holds at least one path. */
  lemma ScopeInhabited(s: Scope) returns (p: string)
    requires WellFormedScope(s)
    ensures NormalPath(p) && Covers(s, p)
  {
    match s.scopeClass
    case RepoGlobal =>
      p := "a";
      SplitComponent(p);
    case ExactPath => p := s.scopeKey;
    case Subtree => p := s.scopeKey;
    case GeneratedSet => p :| p in s.members;
  }

  lemma ProbeFindsShared(a: Scope, b: Scope, p: string)
    requires WellFormedScope(a) && WellFormedScope(b)
    requires NormalPath(p) && Covers(a, p) && Covers(b, p)
    ensures Probe(a, b)
  {
  }

  lemma ProbeGivesShared(a: Scope, b: Scope)
    requires WellFormedScope(a) && WellFormedScope(b) && Probe(a, b)
    ensures SharePath(a, b)
  {
    if a.scopeClass == RepoGlobal {
      var p := ScopeInhabited(b);
    } else if b.scopeClass == RepoGlobal {
      var p := ScopeInhabited(a);
    } else if a.scopeClass == ExactPath {
      assert Covers(a, a.scopeKey);
    } else if a.scopeClass == GeneratedSet {
      var m :| m in a.members && Covers(b, m);
    } else if b.scopeClass == GeneratedSet {
      var m :| m in b.members && Split(a.scopeKey) <= Split(m);
    } else {
      var p := if Split(a.scopeKey) <= Split(b.scopeKey) then b.scopeKey else a.scopeKey;
      assert Covers(a, p) && Covers(b, p);
    }
  }

  /** The class-by-class test is the shared-path relation, so it is symmetric. */
  lemma ProbeIff(a: Scope, b: Scope)
    requires WellFormedScope(a) && WellFormedScope(b)
    ensures Probe(a, b) <==> SharePath(a, b)
    ensures Probe(a, b) <==> Probe(b, a)
  {
    if SharePath(a, b) {
      var p :| NormalPath(p) && Covers(a, p) && Covers(b, p);
      ProbeFindsShared(a, b, p);
      ProbeFindsShared(b, a, p);
    }
    if Probe(a, b) { ProbeGivesShared(a, b); }
    if Probe(b, a) { ProbeGivesShared(b, a); }
  }

  // ------------------------------------------------------- SELECT statements

  function IdsWhere(rows: seq<Reservation>, keep: Reservation -> bool): seq<string> {
    if rows == [] then []
    else (if keep(rows[0]) then [rows[0].id] else []) + IdsWhere(rows[1..], keep)
  }

  lemma {:induction false} IdsWhereOnlyRows(rows: seq<Reservation>, keep: Reservation -> bool, id: string)
    requires id in IdsWhere(rows, keep)
    ensures exists i :: 0 <= i < |rows| && rows[i].id == id && keep(rows[i])
  {
    if !(keep(rows[0]) && rows[0].id == id) {
      IdsWhereOnlyRows(rows[1..], keep, id);
      var i :| 0 <= i < |rows[1..]| && rows[1..][i].id == id && keep(rows[1..][i]);
      assert rows[i + 1].id == id && keep(rows[i + 1]);
    }
  }

  lemma {:induction false} IdsWhereExact(rows: seq<Reservation>, keep: Reservation -> bool)
    requires UniqueIds(rows)
    ensures forall r :: r in rows ==> (r.id in IdsWhere(rows, keep) <==> keep(r))
  {
    if rows != [] {
      var rest := rows[1..];
      IdsWhereExact(rest, keep);
      forall r | r in rows ensures r.id in IdsWhere(rows, keep) <==> keep(r) {
        if r == rows[0] {
          if r.id in IdsWhere(rest, keep) { IdsWhereOnlyRows(rest, keep, r.id); }
        } else {
          assert r in rest;
          var i :| 0 < i < |rows| && rows[i] == r;
          assert r.id != rows[0].id;
        }
      }
    }
  }

  /** `WHERE state = 'active' AND scope_class = ? AND lease_deadline > ? AND keep(scope_key)`. */
  function ScopeIds(t: Tables, now: int, scopeClass: ScopeClass, keep: string -> bool): (ids: seq<string>)
    requires WellFormed(t)
    ensures forall r :: r in t.reservations ==>
              (r.id in ids <==> Live(r, now) && r.scopeClass == scopeClass && keep(r.scopeKey))
  {
    var where := (r: Reservation) => Live(r, now) && r.scopeClass == scopeClass && keep(r.scopeKey);
    IdsWhereExact(t.reservations, where);
    IdsWhere(t.reservations, where)
  }

  predicate HasRow(rows: seq<Reservation>, id: string, keep: Reservation -> bool) {
    exists i :: 0 <= i < |rows| && rows[i].id == id && keep(rows[i])
  }

  /** The id column of `reservation_generated_members JOIN reservations`. */
  function JoinIds(members: seq<Member>, rows: seq<Reservation>, keepPath: string -> bool,
                   keep: Reservation -> bool): seq<string> {
    if members == [] then []
    else
      (if keepPath(members[0].path) && HasRow(rows, members[0].reservationId, keep)
       then [members[0].reservationId] else [])
      + JoinIds(members[1..], rows, keepPath, keep)
  }

  lemma {:induction false} JoinIdsExact(members: seq<Member>, rows: seq<Reservation>,
                                        keepPath: string -> bool, keep: Reservation -> bool, id: string)
    ensures id in JoinIds(members, rows, keepPath, keep) <==>
            HasRow(rows, id, keep) && exists m :: m in members && m.reservationId == id && keepPath(m.path)
  {
    if members != [] {
      JoinIdsExact(members[1..], rows, keepPath, keep, id);
      assert forall m :: m in members <==> m == members[0] || m in members[1..];
    }
  }

  /** The generated-member probes, with or without a test of the reservation's class. */
  function MemberIds(t: Tables, now: int, keepPath: string -> bool): (ids: seq<string>)
    requires WellFormed(t)
    ensures forall r :: r in t.reservations ==>
              (r.id in ids <==>
               Live(r, now) && r.scopeClass == GeneratedSet
               && exists m :: m in MembersOf(t.members, r.id) && keepPath(m))
  {
    var where := (r: Reservation) => Live(r, now) && r.scopeClass == GeneratedSet;
    MemberIdsExact(t, where, keepPath);
    JoinIds(t.members, t.reservations, keepPath, where)
  }

  lemma MemberIdsExact(t: Tables, keep: Reservation -> bool, keepPath: string -> bool)
    requires WellFormed(t)
    ensures forall r :: r in t.reservations ==>
              (r.id in JoinIds(t.members, t.reservations, keepPath, keep) <==>
               keep(r) && exists m :: m in MembersOf(t.members, r.id) && keepPath(m))
  {
    forall r | r in t.reservations
      ensures r.id in JoinIds(t.members, t.reservations, keepPath, keep) <==>
              keep(r) && exists m :: m in MembersOf(t.members, r.id) && keepPath(m)
    {
      JoinIdsExact(t.members, t.reservations, keepPath, keep, r.id);
      var i :| 0 <= i < |t.reservations| && t.reservations[i] == r;
      if HasRow(t.reservations, r.id, keep) {
        var j :| 0 <= j < |t.reservations| && t.reservations[j].id == r.id && keep(t.reservations[j]);
        assert i == j;
      }
      if exists m :: m in t.members && m.reservationId == r.id && keepPath(m.path) {
        var m :| m in t.members && m.reservationId == r.id && keepPath(m.path);
        assert m.path in MembersOf(t.members, r.id);
      }
    }
  }

  // ------------------------------------------------------- ancestor keys

  method PathAncestorScopeKeys(path: string) returns (ancestors: seq<string>)
    requires NormalPath(path)
    ensures forall k :: k in ancestors <==> Split(k) <= Split(path)
  {
    ancestors := [];
    var current, comps, i := "", Split(path), 0;
    while i < |comps|
      invariant 0 <= i <= |comps| == |Split(path)| && comps == Split(path)
      invariant current == Join(comps[..i]) && (current == "" <==> i == 0)
      invariant |ancestors| == i
      invariant forall j :: 0 <= j < i ==> ancestors[j] == Join(comps[..j + 1])
    {
      var component := comps[i];
      JoinSnoc(comps, i);
      if current != "" { current := current + "/"; }
      current := current + component;
      ancestors := ancestors + [current];
      i := i + 1;
    }
    forall k ensures k in ancestors <==> Split(k) <= Split(path) { AncestorIff(path, k, ancestors); }
  }

  lemma JoinSnoc(comps: seq<string>, i: nat)
    requires i < |comps|
    ensures Join(comps[..i + 1]) == if i == 0 then comps[0] else Join(comps[..i]) + "/" + comps[i]
  {
    assert comps[..i + 1] == comps[..i] + [comps[i]];
    if i > 0 { JoinConcat(comps[..i], [comps[i]]); }
  }

  lemma AncestorIff(path: string, k: string, ancestors: seq<string>)
    requires |ancestors| == |Split(path)|
    requires forall j :: 0 <= j < |ancestors| ==> ancestors[j] == Join(Split(path)[..j + 1])
    ensures k in ancestors <==> Split(k) <= Split(path)
  {
    var comps := Split(path);
    SplitAvoids(path, '/');
    if k in ancestors {
      var j :| 0 <= j < |ancestors| && ancestors[j] == k;
      SplitJoin(comps[..j + 1]);
    }
    if Split(k) <= comps {
      JoinSplit(k);
      var j := |Split(k)| - 1;
      assert comps[..j + 1] == Split(k);
      assert ancestors[j] == k;
    }
  }

  // ------------------------------------------------------ chunked IN lists

  const SQL_IN_CHUNK_SIZE: nat := 500

  method QueryReservationScopeIdsForKeysAt(t: Tables, now: int, scopeClass: ScopeClass,
                                           keys: seq<string>, chunkSize: nat)
    returns (ids: seq<string>)
    requires WellFormed(t) && chunkSize > 0
    ensures forall r :: r in t.reservations ==>
              (r.id in ids <==> Live(r, now) && r.scopeClass == scopeClass && r.scopeKey in keys)
  {
    ids := [];
    var i := 0;
    while i < |keys|
      invariant 0 <= i <= |keys|
      invariant forall r :: r in t.reservations ==>
                  (r.id in ids <==> Live(r, now) && r.scopeClass == scopeClass && r.scopeKey in keys[..i])
    {
      var end := if i + chunkSize <= |keys| then i + chunkSize else |keys|;
      var chunk := keys[i..end];
      ids := ids + ScopeIds(t, now, scopeClass, k => k in chunk);
      assert keys[..end] == keys[..i] + chunk;
      i := end;
    }
    assert keys[..i] == keys;
  }

  method QueryGeneratedMemberIdsForMembers(t: Tables, now: int, members: seq<string>, chunkSize: nat)
    returns (ids: seq<string>)
    requires WellFormed(t) && chunkSize > 0
    ensures forall r :: r in t.reservations ==>
              (r.id in ids <==>
               Live(r, now) && r.scopeClass == GeneratedSet
               && exists m :: m in MembersOf(t.members, r.id) && m in members)
  {
    ids := [];
    var i := 0;
    while i < |members|
      invariant 0 <= i <= |members|
      invariant forall r :: r in t.reservations ==>
                  (r.id in ids <==>
                   Live(r, now) && r.scopeClass == GeneratedSet
                   && exists m :: m in MembersOf(t.members, r.id) && m in members[..i])
    {
      var end := if i + chunkSize <= |members| then i + chunkSize else |members|;
      var chunk := members[i..end];
      ids := ids + MemberIds(t, now, m => m in chunk);
      assert members[..end] == members[..i] + chunk;
      i := end;
    }
    assert members[..i] == members;
  }

  // ------------------------------------------------------------- overlap ids

  /** The ids a probe for scope a must return. */
  ghost predicate ExactlyOverlapping(t: Tables, now: int, a: Scope, ids: seq<string>) {
    forall r :: r in t.reservations ==> (r.id in ids <==> Live(r, now) && SharePath(ScopeOf(t, r), a))
  }

  lemma OverlapFromProbe(t: Tables, now: int, a: Scope, ids: seq<string>)
    requires WellFormed(t) && WellFormedScope(a)
    requires forall r :: r in t.reservations ==> (r.id in ids <==> Live(r, now) && Probe(a, ScopeOf(t, r)))
    ensures ExactlyOverlapping(t, now, a, ids)
  {
    forall r | r in t.reservations ensures r.id in ids <==> Live(r, now) && SharePath(ScopeOf(t, r), a) {
      ProbeIff(a, ScopeOf(t, r));
      ProbeIff(ScopeOf(t, r), a);
    }
  }

  method QueryOverlapIdsForExact(t: Tables, path: string) returns (ids: seq<string>)
    requires WellFormed(t) && NormalPath(path)
    ensures ExactlyOverlapping(t, CurrentLeaseTick(t), Scope(ExactPath, path, {}), ids)
    ensures Ascending(ids)
  {
    var now := CurrentLeaseTick(t);
    ids := ScopeIds(t, now, RepoGlobal, k => true);
    ids := ids + ScopeIds(t, now, ExactPath, k => k == path);
    var ancestors := PathAncestorScopeKeys(path);
    ids := ids + ScopeIds(t, now, Subtree, k => k in ancestors);
    ids := ids + MemberIds(t, now, m => m == path);
    ids := SortedUnique(ids);
    OverlapFromProbe(t, now, Scope(ExactPath, path, {}), ids);
  }

  method QueryOverlapIdsForSubtree(t: Tables, root: string) returns (ids: seq<string>)
    requires WellFormed(t) && NormalPath(root)
    ensures ExactlyOverlapping(t, CurrentLeaseTick(t), Scope(Subtree, root, {}), ids)
    ensures Ascending(ids)
  {
    var now := CurrentLeaseTick(t);
    ids := ScopeIds(t, now, RepoGlobal, k => true);
    var exact := QueryExactPathIdsUnderSubtreeAt(t, now, root);
    var ancestors := PathAncestorScopeKeys(root);
    var subtree := QueryIdsUnderPathAt(t, now, Subtree, root);
    var generated := QueryGeneratedMemberIdsUnderSubtreeAt(t, now, root);
    ids := ids + exact + ScopeIds(t, now, Subtree, k => k in ancestors) + subtree + generated;
    ids := SortedUnique(ids);
    forall r | r in t.reservations
      ensures r.id in ids <==> Live(r, now) && Probe(Scope(Subtree, root, {}), ScopeOf(t, r))
    {
      UnderPathIff(root, r.scopeKey);
      forall m ensures UnderPath(root, m) <==> Split(root) <= Split(m) { UnderPathIff(root, m); }
    }
    OverlapFromProbe(t, now, Scope(Subtree, root, {}), ids);
  }

  method QueryExactPathIdsUnderSubtreeAt(t: Tables, now: int, root: string) returns (ids: seq<string>)
    requires WellFormed(t)
    ensures forall r :: r in t.reservations ==>
              (r.id in ids <==> Live(r, now) && r.scopeClass == ExactPath && Split(root) <= Split(r.scopeKey))
  {
    var under := QueryIdsUnderPathAt(t, now, ExactPath, root);
    ids := ScopeIds(t, now, ExactPath, k => k == root) + under;
    forall r | r in t.reservations
      ensures Split(root) <= Split(r.scopeKey) <==> r.scopeKey == root || root + "/" <= r.scopeKey
    {
      UnderPathIff(root, r.scopeKey);
    }
  }

  method QueryGeneratedMemberIdsUnderSubtreeAt(t: Tables, now: int, root: string) returns (ids: seq<string>)
    requires WellFormed(t)
    ensures forall r :: r in t.reservations ==>
              (r.id in ids <==>
               Live(r, now) && r.scopeClass == GeneratedSet
               && exists m :: m in MembersOf(t.members, r.id) && Split(root) <= Split(m))
  {
    var under := QueryMemberIdsUnderPathAt(t, now, root);
    ids := MemberIds(t, now, m => m == root) + under;
    forall m ensures Split(root) <= Split(m) <==> m == root || root + "/" <= m { UnderPathIff(root, m); }
  }

  /** The descendant range of a scope class; together with equality, UnderPath. */
  method QueryIdsUnderPathAt(t: Tables, now: int, scopeClass: ScopeClass, path: string) returns (ids: seq<string>)
    requires WellFormed(t)
    ensures forall r :: r in t.reservations ==>
              (r.id in ids <==> Live(r, now) && r.scopeClass == scopeClass && path + "/" <= r.scopeKey)
  {
    var prefix := path + "/";
    DescendantRange(path);
    var bound := LexicographicPrefixUpperBound(prefix);
    if bound.None? { return []; }
    ids := ScopeIds(t, now, scopeClass, k => InRange(k, prefix, bound.value));
  }

  method QueryMemberIdsUnderPathAt(t: Tables, now: int, path: string) returns (ids: seq<string>)
    requires WellFormed(t)
    ensures forall r :: r in t.reservations ==>
              (r.id in ids <==>
               Live(r, now) && r.scopeClass == GeneratedSet
               && exists m :: m in MembersOf(t.members, r.id) && path + "/" <= m)
  {
    var prefix := path + "/";
    DescendantRange(path);
    var bound := LexicographicPrefixUpperBound(prefix);
    if bound.None? { return []; }
    ids := MemberIds(t, now, m => InRange(m, prefix, bound.value));
  }

  method QueryOverlapIdsForGenerated(t: Tables, key: string, members: seq<string>) returns (ids: seq<string>)
    requires WellFormed(t) && WellFormedScope(CandidateScope(Candidate(GeneratedSet, key, members)))
    ensures ExactlyOverlapping(t, CurrentLeaseTick(t), CandidateScope(Candidate(GeneratedSet, key, members)), ids)
    ensures Ascending(ids)
  {
    var now := CurrentLeaseTick(t);
    ids := ScopeIds(t, now, RepoGlobal, k => true);
    var exact := QueryReservationScopeIdsForKeysAt(t, now, ExactPath, members, SQL_IN_CHUNK_SIZE);
    var ancestors := AncestorKeysOfAll(members);
    var subtree := QueryReservationScopeIdsForKeysAt(t, now, Subtree, ancestors, SQL_IN_CHUNK_SIZE);
    ids := ids + exact + subtree;
    if members != [] {
      var generated := QueryGeneratedMemberIdsForMembers(t, now, members, SQL_IN_CHUNK_SIZE);
      ids := ids + generated;
    }
    ids := SortedUnique(ids);
    var a := CandidateScope(Candidate(GeneratedSet, key, members));
    forall r | r in t.reservations ensures r.id in ids <==> Live(r, now) && Probe(a, ScopeOf(t, r)) {
      GeneratedProbeIff(members, a.members, ScopeOf(t, r));
    }
    OverlapFromProbe(t, now, a, ids);
  }

  /** Some listed path lies at or below k. */
  predicate HasDescendant(members: seq<string>, k: string) {
    exists m :: m in members && Split(k) <= Split(m)
  }

  lemma GeneratedProbeIff(members: seq<string>, ms: set<string>, b: Scope)
    requires members != [] && forall m :: m in ms <==> m in members
    ensures ProbeGenerated(ms, b) <==>
            match b.scopeClass
            case RepoGlobal => true
            case ExactPath => b.scopeKey in members
            case Subtree => HasDescendant(members, b.scopeKey)
            case GeneratedSet => exists m :: m in b.members && m in members
  {
    match b.scopeClass
    case RepoGlobal => assert members[0] in ms && Covers(b, members[0]);
    case ExactPath => assert b.scopeKey in members ==> Covers(b, b.scopeKey);
    case Subtree =>
      if HasDescendant(members, b.scopeKey) {
        var m :| m in members && Split(b.scopeKey) <= Split(m);
        assert m in ms && Covers(b, m);
      }
    case GeneratedSet =>
      if ProbeGenerated(ms, b) {
        var m :| m in ms && Covers(b, m);
      }
      if exists m :: m in b.members && m in members {
        var m :| m in b.members && m in members;
        assert m in ms && Covers(b, m);
      }
  }

  method AncestorKeysOfAll(members: seq<string>) returns (keys: seq<string>)
    requires forall m :: m in members ==> NormalPath(m)
    ensures forall k :: k in keys <==> HasDescendant(members, k)
  {
    keys := [];
    var i := 0;
    while i < |members|
      invariant 0 <= i <= |members|
      invariant forall k :: k in keys <==> HasDescendant(members[..i], k)
    {
      var ancestors := PathAncestorScopeKeys(members[i]);
      keys := keys + ancestors;
      forall k ensures HasDescendant(members[..i + 1], k) <==> HasDescendant(members[..i], k) || k in ancestors {
        HasDescendantSnoc(members, i, k);
      }
      i := i + 1;
    }
    assert members[..i] == members;
    keys := SortedUnique(keys);
  }

  lemma HasDescendantSnoc(members: seq<string>, i: nat, k: string)
    requires i < |members|
    ensures HasDescendant(members[..i + 1], k) <==>
            HasDescendant(members[..i], k) || Split(k) <= Split(members[i])
  {
    assert members[..i + 1] == members[..i] + [members[i]];
    assert members[i] in members[..i + 1];
    assert forall m :: m in members[..i + 1] <==> m in members[..i] || m == members[i];
  }

  // ------------------------------------------------------------ row loading

  predicate ByCreated(rows: seq<Reservation>) {
    forall i, j :: 0 <= i < j < |rows| ==> rows[i].createdAt <= rows[j].createdAt
  }

  function RowsWhere(rows: seq<Reservation>, keep: Reservation -> bool): (r: seq<Reservation>)
    ensures forall x :: x in r <==> x in rows && keep(x)
    ensures UniqueIds(rows) ==> UniqueIds(r)
  {
    if rows == [] then []
    else
      var r := RowsWhere(rows[1..], keep);
      assert forall x :: x in rows <==> x == rows[0] || x in rows[1..];
      assert UniqueIds(rows) ==> forall x :: x in rows[1..] ==> x.id != rows[0].id;
      assert forall i :: 0 <= i < |r| ==> r[i] in r;
      (if keep(rows[0]) then [rows[0]] else []) + r
  }

  function InsertByCreated(x: Reservation, rows: seq<Reservation>): (r: seq<Reservation>)
    requires ByCreated(rows)
    ensures ByCreated(r)
    ensures forall y :: y in r <==> y == x || y in rows
  {
    if rows == [] then [x]
    else if x.createdAt <= rows[0].createdAt then [x] + rows
    else
      assert forall y :: y in rows <==> y == rows[0] || y in rows[1..];
      var r := InsertByCreated(x, rows[1..]);
      assert forall i :: 0 <= i < |r| ==> r[i] in r;
      [rows[0]] + r
  }

  /** `ORDER BY created_at ASC`. */
  lemma {:induction false} InsertKeepsIds(x: Reservation, rows: seq<Reservation>)
    requires ByCreated(rows) && UniqueIds(rows) && forall y :: y in rows ==> y.id != x.id
    ensures UniqueIds(InsertByCreated(x, rows))
  {
    if rows != [] && x.createdAt > rows[0].createdAt {
      InsertKeepsIds(x, rows[1..]);
      var r := InsertByCreated(x, rows[1..]);
      forall i | 0 <= i < |r| ensures r[i].id != rows[0].id { assert r[i] in r; }
    }
  }

  function OrderByCreated(rows: seq<Reservation>): (r: seq<Reservation>)
    requires UniqueIds(rows)
    ensures ByCreated(r) && UniqueIds(r)
    ensures forall y :: y in r <==> y in rows
  {
    if rows == [] then []
    else
      assert forall y :: y in rows <==> y == rows[0] || y in rows[1..];
      InsertKeepsIds(rows[0], OrderByCreated(rows[1..]));
      InsertByCreated(rows[0], OrderByCreated(rows[1..]))
  }

  method LoadReservationsByIds(t: Tables, ids: seq<string>) returns (rows: seq<Reservation>)
    requires UniqueIds(t.reservations)
    ensures ByCreated(rows) && UniqueIds(rows)
    ensures forall r :: r in rows <==> r in t.reservations && r.id in ids
  {
    if ids == [] { return []; }
    if |ids| == 1 {
      var id := ids[0];
      rows := RowsWhere(t.reservations, (r: Reservation) => r.id == id);
      assert forall i :: 0 <= i < |rows| ==> rows[i] in rows;
      return;
    }
    rows := OrderByCreated(RowsWhere(t.reservations, (r: Reservation) => r.id in ids));
  }

  method LoadActiveReservations(t: Tables) returns (rows: seq<Reservation>)
    requires UniqueIds(t.reservations)
    ensures ByCreated(rows) && UniqueIds(rows)
    ensures forall r :: r in rows <==> r in t.reservations && Live(r, CurrentLeaseTick(t))
  {
    var now := CurrentLeaseTick(t);
    rows := OrderByCreated(RowsWhere(t.reservations, (r: Reservation) => Live(r, now)));
  }

  // --------------------------------------------------------------- the result

  /** The indexed query returns exactly the live reservations that share a path with the candidate. */
  method FindOverlappingReservations(t: Tables, candidate: Candidate) returns (rows: seq<Reservation>)
    requires WellFormed(t) && WellFormedScope(CandidateScope(candidate))
    ensures forall r :: r in rows <==>
              && r in t.reservations && r.state == Active && r.leaseDeadline > CurrentLeaseTick(t)
              && SharePath(ScopeOf(t, r), CandidateScope(candidate))
    ensures ByCreated(rows) && UniqueIds(rows)
  {
    ghost var a := CandidateScope(candidate);
    if candidate.scopeClass == RepoGlobal {
      rows := LoadActiveReservations(t);
      forall r | r in t.reservations ensures SharePath(ScopeOf(t, r), a) {
        ProbeIff(a, ScopeOf(t, r));
        ProbeIff(ScopeOf(t, r), a);
      }
      return;
    }
    var ids;
    match candidate.scopeClass {
      case ExactPath => ids := QueryOverlapIdsForExact(t, candidate.scopeKey);
      case Subtree => ids := QueryOverlapIdsForSubtree(t, candidate.scopeKey);
      case GeneratedSet => ids := QueryOverlapIdsForGenerated(t, candidate.scopeKey, candidate.members);
    }
    assert ExactlyOverlapping(t, CurrentLeaseTick(t), a, ids);
    rows := LoadReservationsByIds(t, ids);
  }
}
