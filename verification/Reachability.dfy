/** Reachability in a finite edge set: what a recursive UNION query computes, and acyclicity. */
module Reachability {
  import opened Lifecycle

  type Edges = set<(Id, Id)>

  /** Consecutive nodes are joined by edges. */
  ghost predicate IsWalk(edges: Edges, p: seq<Id>) {
    |p| >= 1 && forall i :: 0 <= i < |p| - 1 ==> (p[i], p[i + 1]) in edges
  }

  /** There is a walk of one edge or more. */
  ghost predicate Reaches(edges: Edges, a: Id, b: Id) {
    exists p :: IsWalk(edges, p) && |p| >= 2 && p[0] == a && p[|p| - 1] == b
  }

  function Targets(edges: Edges): set<Id> { set e | e in edges :: e.1 }

  function Successors(edges: Edges, s: set<Id>): set<Id> { set e | e in edges && e.0 in s :: e.1 }

  /** Add successors until nothing new appears; the undiscovered targets shrink, cycles or not. */
  function Close(edges: Edges, seen: set<Id>): set<Id>
    decreases Targets(edges) - seen
  {
    var found := Successors(edges, seen) - seen;
    if found == {} then seen
    else
      assert Targets(edges) - (seen + found) < Targets(edges) - seen by {
        var x :| x in found;
        assert x in Targets(edges) - seen;
      }
      Close(edges, seen + found)
  }

  /** `WITH RECURSIVE chain AS (successors of src UNION successors of chain)`. */
  function Chain(edges: Edges, src: Id): set<Id> { Close(edges, Successors(edges, {src})) }

  lemma {:induction false} CloseClosed(edges: Edges, seen: set<Id>)
    ensures seen <= Close(edges, seen)
    ensures Successors(edges, Close(edges, seen)) <= Close(edges, seen)
    decreases Targets(edges) - seen
  {
    var found := Successors(edges, seen) - seen;
    if found != {} {
      assert Targets(edges) - (seen + found) < Targets(edges) - seen by {
        var x :| x in found;
        assert x in Targets(edges) - seen;
      }
      CloseClosed(edges, seen + found);
    } else {
      assert forall x :: x in Successors(edges, seen) ==> x in seen || x in found;
    }
  }

  lemma {:induction false} CloseSound(edges: Edges, src: Id, seen: set<Id>)
    requires forall x :: x in seen ==> Reaches(edges, src, x)
    ensures forall x :: x in Close(edges, seen) ==> Reaches(edges, src, x)
    decreases Targets(edges) - seen
  {
    var found := Successors(edges, seen) - seen;
    if found != {} {
      forall y | y in found ensures Reaches(edges, src, y) {
        var e :| e in edges && e.0 in seen && e.1 == y;
        ReachesStep(edges, src, e.0, y);
      }
      assert Targets(edges) - (seen + found) < Targets(edges) - seen by {
        var x :| x in found;
        assert x in Targets(edges) - seen;
      }
      CloseSound(edges, src, seen + found);
    }
  }

  lemma ReachesStep(edges: Edges, a: Id, b: Id, c: Id)
    requires Reaches(edges, a, b) && (b, c) in edges
    ensures Reaches(edges, a, c)
  {
    var p :| IsWalk(edges, p) && |p| >= 2 && p[0] == a && p[|p| - 1] == b;
    assert IsWalk(edges, p + [c]);
  }

  lemma ReachesPrepend(edges: Edges, a: Id, b: Id, c: Id)
    requires (a, b) in edges && Reaches(edges, b, c)
    ensures Reaches(edges, a, c)
  {
    var p :| IsWalk(edges, p) && |p| >= 2 && p[0] == b && p[|p| - 1] == c;
    assert IsWalk(edges, [a] + p);
  }

  lemma ReachesEdge(edges: Edges, a: Id, b: Id)
    requires (a, b) in edges
    ensures Reaches(edges, a, b)
  {
    assert IsWalk(edges, [a, b]);
  }

  lemma {:induction false} WalkStaysInside(edges: Edges, src: Id, p: seq<Id>, k: nat)
    requires IsWalk(edges, p) && p[0] == src && 1 <= k < |p|
    ensures p[k] in Chain(edges, src)
  {
    CloseClosed(edges, Successors(edges, {src}));
    assert (p[k - 1], p[k]) in edges;
    if k == 1 {
      assert p[k] in Successors(edges, {src});
    } else {
      WalkStaysInside(edges, src, p, k - 1);
      assert p[k] in Successors(edges, Chain(edges, src));
    }
  }

  /** The recursive query returns exactly what is reachable by one edge or more, on every finite graph. */
  lemma ChainIff(edges: Edges, src: Id, x: Id)
    ensures x in Chain(edges, src) <==> Reaches(edges, src, x)
  {
    if Reaches(edges, src, x) {
      var p :| IsWalk(edges, p) && |p| >= 2 && p[0] == src && p[|p| - 1] == x;
      WalkStaysInside(edges, src, p, |p| - 1);
    }
    forall y | y in Successors(edges, {src}) ensures Reaches(edges, src, y) {
      var e :| e in edges && e.0 in {src} && e.1 == y;
      ReachesEdge(edges, src, y);
    }
    CloseSound(edges, src, Successors(edges, {src}));
  }

  lemma ReachesMonotone(edges: Edges, more: Edges, a: Id, b: Id)
    requires edges <= more && Reaches(edges, a, b)
    ensures Reaches(more, a, b)
  {
    var p :| IsWalk(edges, p) && |p| >= 2 && p[0] == a && p[|p| - 1] == b;
    assert IsWalk(more, p);
  }

  // -------------------------------------------------------------- acyclicity

  ghost predicate Acyclic(edges: Edges) { forall x :: !Reaches(edges, x, x) }

  lemma CycleAvoidsSource(edges: Edges, added: Edges, t: Id, x: Id)
    requires forall e :: e in edges ==> e.1 != t
    requires forall e :: e in added ==> e.0 == t && e.1 != t
    requires Reaches(edges + added, x, x)
    ensures Reaches(edges, x, x)
  {
    var p :| IsWalk(edges + added, p) && |p| >= 2 && p[0] == x && p[|p| - 1] == x;
    forall i | 0 <= i < |p| - 1 ensures (p[i], p[i + 1]) in edges {
      assert (p[i], p[i + 1]) in edges + added;
      if i == 0 {
        assert (p[|p| - 2], p[|p| - 2 + 1]) in edges + added;
      } else {
        assert (p[i - 1], p[i - 1 + 1]) in edges + added;
      }
    }
    assert IsWalk(edges, p);
  }

  /** New edges that all leave one node nothing points at cannot close a cycle. */
  lemma AddSourceAcyclic(edges: Edges, added: Edges, t: Id)
    requires Acyclic(edges)
    requires forall e :: e in edges ==> e.1 != t
    requires forall e :: e in added ==> e.0 == t && e.1 != t
    ensures Acyclic(edges + added)
  {
    forall x ensures !Reaches(edges + added, x, x) {
      if Reaches(edges + added, x, x) { CycleAvoidsSource(edges, added, t, x); }
    }
  }

  ghost predicate NoRepeat(p: seq<Id>) { forall i, j :: 0 <= i < j < |p| ==> p[i] != p[j] }

  lemma {:induction false} NoRepeatBound(p: seq<Id>, s: set<Id>)
    requires NoRepeat(p) && forall i :: 0 <= i < |p| ==> p[i] in s
    ensures |p| <= |s|
  {
    if p != [] {
      var last := p[|p| - 1];
      NoRepeatBound(p[..|p| - 1], s - {last});
    }
  }

  /** In an acyclic graph a walk inside a finite set runs into a node with no edge back into the set. */
  lemma {:induction false} FindSink(edges: Edges, s: set<Id>, p: seq<Id>) returns (x: Id)
    requires Acyclic(edges) && IsWalk(edges, p) && NoRepeat(p)
    requires forall i :: 0 <= i < |p| ==> p[i] in s
    ensures x in s && forall y :: y in s ==> (x, y) !in edges
    decreases |s| - |p|
  {
    NoRepeatBound(p, s);
    var last := p[|p| - 1];
    if y :| y in s && (last, y) in edges {
      if i :| 0 <= i < |p| && p[i] == y {
        var cycle := p[i..] + [y];
        assert IsWalk(edges, cycle) by {
          forall j | 0 <= j < |cycle| - 1 ensures (cycle[j], cycle[j + 1]) in edges {
            if j < |cycle| - 2 { assert (p[i + j], p[i + j + 1]) in edges; }
          }
        }
        assert Reaches(edges, y, y);
        x := y;
      } else {
        NoRepeatBound(p + [y], s);
        x := FindSink(edges, s, p + [y]);
      }
    } else {
      x := last;
    }
  }
}
