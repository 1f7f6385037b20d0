/** The reservations relevant to a repoops snapshot: the owner's, and those over the requested paths. */
module RepoopsLookup {
  import opened Text
  import opened Paths
  import opened Overlap

  const CHUNK_SIZE: nat := 256

  /** `collect_active_scope_key_reservation_ids`: one key is compared, several are listed. */
  method CollectScopeKeyIds(t: Tables, now: int, scopeClass: ScopeClass, keys: seq<string>)
    returns (ids: seq<string>)
    requires WellFormed(t)
    ensures forall r :: r in t.reservations ==>
              (r.id in ids <==> Live(r, now) && r.scopeClass == scopeClass && r.scopeKey in keys)
  {
    ids := [];
    var i := 0;
    while i < |keys|
      invariant 0 <= i <= |keys|
      invariant forall r :: r in t.reservations ==>
                  (r.id in ids <==> Live(r, now) && r.scopeClass == scopeClass && r.scopeKey in keys[..i])
    {
      var end := if i + CHUNK_SIZE <= |keys| then i + CHUNK_SIZE else |keys|;
      var chunk := keys[i..end];
      if |chunk| == 1 {
        var key := chunk[0];
        ids := ids + ScopeIds(t, now, scopeClass, k => k == key);
      } else {
        ids := ids + ScopeIds(t, now, scopeClass, k => k in chunk);
      }
      assert keys[..end] == keys[..i] + chunk;
      i := end;
    }
    assert keys[..i] == keys;
  }

  /** The member probe without a class test: only generated sets have member rows. */
  function LiveMemberIds(t: Tables, now: int, keepPath: string -> bool): (ids: seq<string>)
    requires WellFormed(t)
    ensures forall r :: r in t.reservations ==>
              (r.id in ids <==>
               Live(r, now) && r.scopeClass == GeneratedSet
               && exists m :: m in MembersOf(t.members, r.id) && keepPath(m))
  {
    var where := (r: Reservation) => Live(r, now);
    MemberIdsExact(t, where, keepPath);
    JoinIds(t.members, t.reservations, keepPath, where)
  }

  method CollectGeneratedMemberIds(t: Tables, now: int, paths: seq<string>) returns (ids: seq<string>)
    requires WellFormed(t)
    ensures forall r :: r in t.reservations ==>
              (r.id in ids <==>
               Live(r, now) && r.scopeClass == GeneratedSet
               && exists m :: m in MembersOf(t.members, r.id) && m in paths)
  {
    ids := [];
    var i := 0;
    while i < |paths|
      invariant 0 <= i <= |paths|
      invariant forall r :: r in t.reservations ==>
                  (r.id in ids <==>
                   Live(r, now) && r.scopeClass == GeneratedSet
                   && exists m :: m in MembersOf(t.members, r.id) && m in paths[..i])
    {
      var end := if i + CHUNK_SIZE <= |paths| then i + CHUNK_SIZE else |paths|;
      var chunk := paths[i..end];
      if |chunk| == 1 {
        var path := chunk[0];
        ids := ids + LiveMemberIds(t, now, m => m == path);
      } else {
        ids := ids + LiveMemberIds(t, now, m => m in chunk);
      }
      assert paths[..end] == paths[..i] + chunk;
      i := end;
    }
    assert paths[..i] == paths;
  }

  lemma FlatAncestor(path: string, k: string)
    requires '/' !in path
    ensures Split(k) <= Split(path) <==> k == path
  {
    ComponentPrefixIff(k, path);
    assert (k + "/")[|k|] == '/';
  }

  method SinglePathAncestors(path: string) returns (keys: seq<string>)
    requires NormalPath(path)
    ensures forall k :: k in keys <==> Split(k) <= Split(path)
  {
    if '/' !in path {
      keys := [path];
      forall k ensures k in keys <==> Split(k) <= Split(path) { FlatAncestor(path, k); }
      return;
    }
    keys := PathAncestorScopeKeys(path);
  }

  lemma SingleDescendant(paths: seq<string>, k: string)
    requires |paths| == 1
    ensures HasDescendant(paths, k) <==> Split(k) <= Split(paths[0])
  {
    assert paths[0] in paths;
  }

  /** `repoops_path_ancestor_scope_keys` with its two fast paths for a single path. */
  method PathAncestors(paths: seq<string>) returns (keys: seq<string>)
    requires forall p :: p in paths ==> NormalPath(p)
    ensures forall k :: k in keys <==> HasDescendant(paths, k)
  {
    if |paths| == 1 {
      keys := SinglePathAncestors(paths[0]);
      forall k ensures k in keys <==> HasDescendant(paths, k) { SingleDescendant(paths, k); }
    } else {
      keys := AncestorKeysOfAll(paths);
    }
  }

  /** The union of the exact-path overlap results, plus the owner's own reservations. */
  ghost predicate Relevant(t: Tables, now: int, owner: string, paths: seq<string>, r: Reservation) {
    Live(r, now) &&
    (r.owner == owner || exists p :: p in paths && SharePath(ScopeOf(t, r), Scope(ExactPath, p, {})))
  }

  method LoadRepoopsRelevantReservations(t: Tables, now: int, owner: string, paths: seq<string>)
    returns (rows: seq<Reservation>)
    requires WellFormed(t) && forall p :: p in paths ==> NormalPath(p)
    ensures forall r :: r in rows <==>
              && r in t.reservations && r.state == Active && r.leaseDeadline > now
              && (r.owner == owner || exists p :: p in paths && SharePath(ScopeOf(t, r), Scope(ExactPath, p, {})))
    ensures ByCreated(rows) && UniqueIds(rows)
  {
    var where := (r: Reservation) => Live(r, now) && r.owner == owner;
    IdsWhereExact(t.reservations, where);
    var ids := IdsWhere(t.reservations, where);
    if paths != [] {
      var global := CollectScopeKeyIds(t, now, RepoGlobal, ["repo"]);
      var exact := CollectScopeKeyIds(t, now, ExactPath, paths);
      var ancestors := PathAncestors(paths);
      var subtree := CollectScopeKeyIds(t, now, Subtree, ancestors);
      var generated := CollectGeneratedMemberIds(t, now, paths);
      ids := ids + global + exact + subtree + generated;
    }
    ids := SortedUnique(ids);
    forall r | r in t.reservations ensures r.id in ids <==> Relevant(t, now, owner, paths, r) {
      if paths != [] { AnyPathProbe(paths, ScopeOf(t, r)); }
    }
    rows := LoadReservationsByIds(t, ids);
  }

  /** Several exact paths are probed together as a generated set would be. */
  lemma AnyPathProbe(paths: seq<string>, b: Scope)
    requires paths != [] && (forall p :: p in paths ==> NormalPath(p)) && WellFormedScope(b)
    ensures (exists p :: p in paths && SharePath(b, Scope(ExactPath, p, {}))) <==>
            match b.scopeClass
            case RepoGlobal => true
            case ExactPath => b.scopeKey in paths
            case Subtree => HasDescendant(paths, b.scopeKey)
            case GeneratedSet => exists m :: m in b.members && m in paths
  {
    var ps := set p | p in paths;
    GeneratedProbeIff(paths, ps, b);
    forall p | p in paths ensures SharePath(b, Scope(ExactPath, p, {})) <==> Covers(b, p) {
      ProbeIff(b, Scope(ExactPath, p, {}));
    }
    if exists p :: p in paths && SharePath(b, Scope(ExactPath, p, {})) {
      var p :| p in paths && SharePath(b, Scope(ExactPath, p, {}));
      assert p in ps && Covers(b, p);
    }
    if ProbeGenerated(ps, b) {
      var p :| p in ps && Covers(b, p);
      assert SharePath(b, Scope(ExactPath, p, {}));
    }
  }
}
