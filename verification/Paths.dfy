/**
 Repository paths: splitting and joining on '/', the component-stack walk of
 `normalize_relative_repo_path`, and the second normaliser, `RepoopsPath`.
 */
module Paths {
  import opened Text

  // ------------------------------------------------------- split and join

  /** `s.split('/')`. */
  function Split(s: string): (r: seq<string>)
    ensures |r| >= 1
  {
    if s == [] then [""]
    else
      var r := Split(s[1..]);
      if s[0] == '/' then [""] + r else [[s[0]] + r[0]] + r[1..]
  }

  /** `parts.join("/")`. */
  function Join(parts: seq<string>): string {
    if parts == [] then ""
    else if |parts| == 1 then parts[0]
    else parts[0] + "/" + Join(parts[1..])
  }

  lemma {:induction false} SplitAvoids(s: string, x: char)
    requires x == '/' || x !in s
    ensures forall i :: 0 <= i < |Split(s)| ==> x !in Split(s)[i]
  {
    if s != [] { SplitAvoids(s[1..], x); }
  }

  lemma {:induction false} JoinSplit(s: string)
    ensures Join(Split(s)) == s
  {
    if s != [] {
      JoinSplit(s[1..]);
      var r := Split(s[1..]);
      if s[0] == '/' {
        assert Split(s)[1..] == r;
        assert s == "" + "/" + s[1..];
      } else {
        assert Split(s)[1..] == r[1..];
        assert s == [s[0]] + s[1..];
        if |r| == 1 { assert Join(r) == r[0]; }
      }
    }
  }

  /** A component is split off whole. */
  lemma {:induction false} SplitComponent(c: string)
    requires '/' !in c
    ensures Split(c) == [c]
  {
    if c != [] {
      SplitComponent(c[1..]);
      assert c == [c[0]] + c[1..];
    }
  }

  lemma SplitCons(c: char, s: string)
    ensures Split([c] + s) == if c == '/' then [""] + Split(s) else [[c] + Split(s)[0]] + Split(s)[1..]
  {
    assert ([c] + s)[1..] == s;
  }

  lemma {:induction false} SplitConcat(a: string, b: string)
    ensures Split(a + "/" + b) == Split(a) + Split(b)
  {
    if a == [] {
      assert a + "/" + b == ['/'] + b;
      SplitCons('/', b);
    } else {
      var c, t := a[0], a[1..];
      SplitConcat(t, b);
      SplitCons(c, t);
      SplitCons(c, t + "/" + b);
      assert a == [c] + t;
      assert a + "/" + b == [c] + (t + "/" + b);
      SplitConcatStep(c, Split(t), Split(b));
    }
  }

  lemma SplitConcatStep(c: char, r: seq<string>, q: seq<string>)
    requires r != []
    ensures [""] + (r + q) == [""] + r + q
    ensures [[c] + (r + q)[0]] + (r + q)[1..] == [[c] + r[0]] + r[1..] + q
  {
  }

  lemma HeadComponent(c: string, p: string)
    requires '/' !in c && c + "/" <= p
    ensures Split(p) == [c] + Split(p[|c| + 1..])
  {
    assert p == c + "/" + p[|c| + 1..];
    SplitConcat(c, p[|c| + 1..]);
    SplitComponent(c);
  }

  lemma {:induction false} SplitJoin(parts: seq<string>)
    requires parts != [] && forall i :: 0 <= i < |parts| ==> '/' !in parts[i]
    ensures Split(Join(parts)) == parts
  {
    SplitComponent(parts[0]);
    if |parts| > 1 {
      SplitConcat(parts[0], Join(parts[1..]));
      SplitJoin(parts[1..]);
    }
  }

  lemma {:induction false} JoinConcat(a: seq<string>, b: seq<string>)
    requires a != [] && b != []
    ensures Join(a + b) == Join(a) + "/" + Join(b)
  {
    assert (a + b)[1..] == a[1..] + b;
    if |a| > 1 {
      JoinConcat(a[1..], b);
      assert Join(a + b) == a[0] + "/" + (Join(a[1..]) + "/" + Join(b));
    }
  }

  /** Component-wise containment is what the text tests `p == k` and `k/` decide. */
  lemma ComponentPrefixIff(k: string, p: string)
    ensures Split(k) <= Split(p) <==> p == k || k + "/" <= p
  {
    if k + "/" <= p {
      var rest := p[|k| + 1..];
      assert p == k + "/" + rest;
      SplitConcat(k, rest);
    } else if Split(k) <= Split(p) {
      ComponentPrefixText(k, p);
    }
  }

  lemma ComponentPrefixText(k: string, p: string)
    requires Split(k) <= Split(p)
    ensures p == k || k + "/" <= p
  {
    JoinSplit(k);
    JoinSplit(p);
    var rest := Split(p)[|Split(k)|..];
    assert Split(p) == Split(k) + rest;
    if rest != [] {
      JoinConcat(Split(k), rest);
    } else {
      assert Split(p) == Split(k);
    }
  }

  // ------------------------------------------------------------ the walk

  predicate Skips(c: string) { c == "" || c == "." }
  predicate Pops(c: string) { c == ".." }
  predicate Pushes(c: string) { !Skips(c) && !Pops(c) }

  /** Depth below the repository root after the first k components. */
  function Depth(comps: seq<string>, k: nat): int
    requires k <= |comps|
  {
    if k == 0 then 0
    else
      var c := comps[k - 1];
      Depth(comps, k - 1) + (if Skips(c) then 0 else if Pops(c) then -1 else 1)
  }

  /** Some prefix of the path climbs above the root. */
  ghost predicate Escapes(comps: seq<string>) {
    exists k :: 0 <= k <= |comps| && Depth(comps, k) < 0
  }

  /** Component i was entered at depth d and not left again up to k. */
  ghost predicate OpenAt(comps: seq<string>, i: int, k: nat, d: int) {
    && 0 <= i < k <= |comps| && Pushes(comps[i])
    && Depth(comps, i) == d
    && forall j :: i < j <= k ==> Depth(comps, j) > d
  }

  ghost predicate OpenComponent(comps: seq<string>, k: nat, d: int, c: string) {
    exists i :: OpenAt(comps, i, k, d) && comps[i] == c
  }

  /** The stack holds, at each depth, the component entered there and still open. */
  ghost predicate IsOpenStack(comps: seq<string>, k: nat, stack: seq<string>)
    requires k <= |comps|
  {
    && |stack| == Depth(comps, k)
    && forall d :: 0 <= d < |stack| ==> OpenComponent(comps, k, d, stack[d])
  }

  /** The component stack after the first k components; None once it underflows. */
  function Walk(comps: seq<string>, k: nat): (r: Option<seq<string>>)
    requires k <= |comps|
  {
    if k == 0 then Some([])
    else
      match Walk(comps, k - 1)
      case None => None
      case Some(st) =>
        var c := comps[k - 1];
        if Skips(c) then Some(st)
        else if Pops(c) then (if st == [] then None else Some(st[..|st| - 1]))
        else Some(st + [c])
  }

  lemma {:induction false} WalkIsOpenStack(comps: seq<string>, k: nat)
    requires k <= |comps|
    ensures Walk(comps, k).None? <==> exists j :: 0 <= j <= k && Depth(comps, j) < 0
    ensures Walk(comps, k).Some? ==> IsOpenStack(comps, k, Walk(comps, k).value)
  {
    if k > 0 {
      WalkIsOpenStack(comps, k - 1);
      if Walk(comps, k - 1).Some? {
        var st := Walk(comps, k - 1).value;
        if Walk(comps, k).Some? {
          var st' := Walk(comps, k).value;
          forall d | 0 <= d < |st'|
            ensures OpenComponent(comps, k, d, st'[d])
          {
            if d < |st| {
              assert OpenComponent(comps, k - 1, d, st[d]);
              var i :| OpenAt(comps, i, k - 1, d) && comps[i] == st[d];
              assert OpenAt(comps, i, k, d);
            } else {
              assert OpenAt(comps, k - 1, k, d);
            }
          }
        } else {
          assert Depth(comps, k) < 0;
        }
      }
    }
  }

  lemma WalkFailsAt(comps: seq<string>, k: nat)
    requires k <= |comps| && Depth(comps, k) < 0
    ensures Walk(comps, k).None?
  {
    WalkIsOpenStack(comps, k);
  }

  /** The open components determine the stack. */
  lemma OpenStackUnique(comps: seq<string>, k: nat, a: seq<string>, b: seq<string>)
    requires k <= |comps| && IsOpenStack(comps, k, a) && IsOpenStack(comps, k, b)
    ensures a == b
  {
    forall d | 0 <= d < |a| ensures a[d] == b[d] {
      assert OpenComponent(comps, k, d, a[d]) && OpenComponent(comps, k, d, b[d]);
      var i :| OpenAt(comps, i, k, d) && comps[i] == a[d];
      var j :| OpenAt(comps, j, k, d) && comps[j] == b[d];
      assert i == j;
    }
  }

  // ---------------------------------------------------------- normaliser

  datatype PathResult = Ok(path: string) | InvalidPath(raw: string)

  function Slashes(s: string): (r: string)
    ensures |r| == |s| && '\\' !in r
    ensures '\\' !in s ==> r == s
    ensures forall i :: 0 <= i < |s| ==> r[i] == if s[i] == '\\' then '/' else s[i]
  {
    if s == [] then [] else [if s[0] == '\\' then '/' else s[0]] + Slashes(s[1..])
  }

  /** Byte 1 is ':' : an ASCII character followed by a colon. */
  predicate DriveColon(s: string) { |s| >= 2 && s[0] as int < 0x80 && s[1] == ':' }

  predicate Refused(path: string) {
    || path == [] || "/" <= path || "./../" <= path || path == ".." || DriveColon(path)
  }

  function Normalize(raw: string): PathResult {
    var path := Slashes(Trim(raw));
    if Refused(path) then InvalidPath(raw)
    else
      var comps := Split(path);
      match Walk(comps, |comps|)
      case None => InvalidPath(raw)
      case Some(st) => if st == [] then InvalidPath(raw) else Ok(Join(st))
  }

  method NormalizeRelativeRepoPath(raw: string) returns (r: PathResult)
    ensures r == Normalize(raw)
  {
    var trimmed := Trim(raw);
    if trimmed == "" { return InvalidPath(raw); }
    var path := if '\\' in trimmed then Slashes(trimmed) else trimmed;
    if "/" <= path || "./../" <= path || path == ".." { return InvalidPath(raw); }
    if DriveColon(path) { return InvalidPath(raw); }
    var comps, components, i := Split(path), [], 0;
    while i < |comps|
      invariant 0 <= i <= |comps|
      invariant Walk(comps, i) == Some(components)
    {
      var component := comps[i];
      i := i + 1;
      if component == "" || component == "." { continue; }
      if component == ".." {
        if components == [] {
          WalkStaysNone(comps, i, |comps|);
          return InvalidPath(raw);
        }
        components := components[..|components| - 1];
        continue;
      }
      components := components + [component];
    }
    if components == [] { return InvalidPath(raw); }
    return Ok(Join(components));
  }

  lemma {:induction false} WalkStaysNone(comps: seq<string>, i: nat, k: nat)
    requires i <= k <= |comps| && Walk(comps, i).None?
    ensures Walk(comps, k).None?
  {
    if i < k { WalkStaysNone(comps, i, k - 1); }
  }

  /** What normalisation accepts, and which components it keeps, in terms of depth alone. */
  lemma NormalizeMeansOpenComponents(raw: string)
    ensures var path := Slashes(Trim(raw)); var comps := Split(path);
            Normalize(raw).InvalidPath? <==> Refused(path) || Escapes(comps) || Depth(comps, |comps|) == 0
    ensures var comps := Split(Slashes(Trim(raw)));
            Normalize(raw).Ok? ==> exists st :: IsOpenStack(comps, |comps|, st) && Normalize(raw) == Ok(Join(st))
  {
    var comps := Split(Slashes(Trim(raw)));
    WalkIsOpenStack(comps, |comps|);
    if Escapes(comps) {
      var k :| 0 <= k <= |comps| && Depth(comps, k) < 0;
      WalkFailsAt(comps, k);
      WalkStaysNone(comps, k, |comps|);
    } else if Walk(comps, |comps|).Some? {
      assert IsOpenStack(comps, |comps|, Walk(comps, |comps|).value);
    }
  }

  // ------------------------------------------------------ normal results

  /** A stored key: no empty, `.` or `..` component and no backslash. */
  predicate NormalPath(p: string) {
    && (forall i :: 0 <= i < |Split(p)| ==> Pushes(Split(p)[i]))
    && '\\' !in p
  }

  predicate AllPush(comps: seq<string>) { forall i :: 0 <= i < |comps| ==> Pushes(comps[i]) }

  lemma {:induction false} WalkKeepsNames(comps: seq<string>, k: nat)
    requires k <= |comps|
    ensures Walk(comps, k).Some? ==> forall c :: c in Walk(comps, k).value ==> c in comps && Pushes(c)
  {
    if k > 0 { WalkKeepsNames(comps, k - 1); }
  }

  lemma {:induction false} JoinAvoids(parts: seq<string>, x: char)
    requires x != '/' && forall c :: c in parts ==> x !in c
    ensures x !in Join(parts)
  {
    if |parts| > 1 {
      assert forall c :: c in parts[1..] ==> c in parts;
      JoinAvoids(parts[1..], x);
    } else if |parts| == 1 {
      assert parts[0] in parts;
    }
  }

  lemma NormalizedIsNormal(raw: string)
    requires Normalize(raw).Ok?
    ensures NormalPath(Normalize(raw).path)
  {
    var comps := Split(Slashes(Trim(raw)));
    var st := Walk(comps, |comps|).value;
    WalkKeepsNames(comps, |comps|);
    SplitAvoids(Slashes(Trim(raw)), '\\');
    SplitAvoids(Slashes(Trim(raw)), '/');
    forall i | 0 <= i < |st| ensures '/' !in st[i] && Pushes(st[i]) { assert st[i] in st; }
    SplitJoin(st);
    JoinAvoids(st, '\\');
  }

  // -------------------------------------------------------- fixed points

  function Weight(parts: seq<string>): nat {
    if parts == [] then 0 else |parts[0]| + 1 + Weight(parts[1..])
  }

  lemma {:induction false} WeightAppend(a: seq<string>, b: seq<string>)
    ensures Weight(a + b) == Weight(a) + Weight(b)
  {
    if a == [] {
      assert a + b == b;
    } else {
      assert (a + b)[1..] == a[1..] + b;
      WeightAppend(a[1..], b);
    }
  }

  lemma {:induction false} JoinWeight(parts: seq<string>)
    requires parts != []
    ensures |Join(parts)| + 1 == Weight(parts)
  {
    if |parts| > 1 { JoinWeight(parts[1..]); }
  }

  lemma {:induction false} WalkWeight(comps: seq<string>, k: nat)
    requires k <= |comps|
    ensures Walk(comps, k).Some? ==> Weight(Walk(comps, k).value) <= Weight(comps[..k])
  {
    if k > 0 && Walk(comps, k).Some? {
      WalkWeight(comps, k - 1);
      var st, c := Walk(comps, k - 1).value, comps[k - 1];
      assert comps[..k] == comps[..k - 1] + [c];
      WeightAppend(comps[..k - 1], [c]);
      WeightAppend(st, [c]);
      if Pops(c) {
        assert st == st[..|st| - 1] + [st[|st| - 1]];
        WeightAppend(st[..|st| - 1], [st[|st| - 1]]);
      }
    }
  }

  lemma NormalizeNotLonger(raw: string)
    requires Normalize(raw).Ok?
    ensures |Normalize(raw).path| <= |Trim(raw)|
  {
    var path := Slashes(Trim(raw));
    var comps := Split(path);
    WalkWeight(comps, |comps|);
    assert comps[..|comps|] == comps;
    JoinWeight(comps);
    JoinSplit(path);
    JoinWeight(Walk(comps, |comps|).value);
  }

  lemma {:induction false} WalkAllPush(comps: seq<string>, k: nat)
    requires k <= |comps| && AllPush(comps)
    ensures Walk(comps, k) == Some(comps[..k])
  {
    if k > 0 {
      WalkAllPush(comps, k - 1);
      assert comps[..k] == comps[..k - 1] + [comps[k - 1]];
    }
  }

  lemma NormalPathNotRefused(p: string)
    requires NormalPath(p) && !DriveColon(p)
    ensures !Refused(p)
  {
    assert Pushes(Split(p)[0]);
    if "/" <= p { HeadComponent("", p); }
    if "./../" <= p {
      assert "." + "/" <= p;
      HeadComponent(".", p);
    }
    if p == ".." { SplitComponent(p); }
  }

  /** Normalising a normal path changes it, or fails, exactly in these two cases. */
  lemma NormalFixedPointIff(p: string)
    requires NormalPath(p)
    ensures Normalize(p) == Ok(p) <==> Trim(p) == p && !DriveColon(p)
  {
    if Trim(p) == p {
      if !DriveColon(p) {
        NormalPathNotRefused(p);
        WalkAllPush(Split(p), |Split(p)|);
        assert Split(p)[..|Split(p)|] == Split(p);
        JoinSplit(p);
      }
    } else {
      TrimShorter(p);
      if Normalize(p).Ok? { NormalizeNotLonger(p); }
    }
  }

  /** So a second normalisation is the identity exactly when the first result is trimmed and drive-free. */
  lemma NormalizeTwice(raw: string)
    requires Normalize(raw).Ok?
    ensures var p := Normalize(raw).path;
            && (Normalize(p) == Ok(p) <==> Trim(p) == p && !DriveColon(p))
            && (Trim(p) == p && DriveColon(p) ==> Normalize(p) == InvalidPath(p))
            && (Trim(p) != p && Normalize(p).Ok? ==> |Normalize(p).path| < |p|)
  {
    var p := Normalize(raw).path;
    NormalizedIsNormal(raw);
    NormalFixedPointIff(p);
    TrimShorter(p);
    if Normalize(p).Ok? { NormalizeNotLonger(p); }
    assert '\\' !in p;
  }

  // ---------------------------------------------------------- RepoopsPath

  function StripDotSlash(s: string): string {
    if "./" <= s then StripDotSlash(s[2..]) else s
  }

  function StripSlash(s: string): string {
    if "/" <= s then StripSlash(s[1..]) else s
  }

  /** The components that are kept when none climbs. */
  function Names(comps: seq<string>): seq<string> {
    if comps == [] then []
    else (if Skips(comps[0]) then [] else [comps[0]]) + Names(comps[1..])
  }

  predicate Climbs(comps: seq<string>) { ".." in comps }

  function Repoops(value: string): PathResult {
    var comps := Split(StripSlash(StripDotSlash(Slashes(Trim(value)))));
    if (exists i :: 0 <= i < |value| && IsControl(value[i])) || Climbs(comps) || Names(comps) == [] then
      InvalidPath(value)
    else Ok(Join(Names(comps)))
  }

  method RepoopsTryFrom(value: string) returns (r: PathResult)
    ensures r == Repoops(value)
  {
    if exists i :: 0 <= i < |value| && IsControl(value[i]) { return InvalidPath(value); }
    var normalized := Slashes(Trim(value));
    ghost var path := normalized;
    while "./" <= normalized
      invariant StripDotSlash(normalized) == StripDotSlash(path)
      decreases |normalized|
    {
      normalized := normalized[2..];
    }
    while "/" <= normalized
      invariant StripSlash(normalized) == StripSlash(StripDotSlash(path))
      decreases |normalized|
    {
      normalized := normalized[1..];
    }
    var parts := CollectParts(Split(normalized));
    if parts.None? || parts.value == [] { return InvalidPath(value); }
    return Ok(Join(parts.value));
  }

  /** The loop over the split path: None at the first `..`. */
  method CollectParts(comps: seq<string>) returns (r: Option<seq<string>>)
    ensures r == if Climbs(comps) then None else Some(Names(comps))
  {
    var parts, i := [], 0;
    while i < |comps|
      invariant 0 <= i <= |comps|
      invariant !Climbs(comps[..i])
      invariant parts == Names(comps[..i])
    {
      var part := comps[i];
      assert comps[..i + 1] == comps[..i] + [part];
      NamesAppend(comps[..i], part);
      if part == ".." { return None; }
      if part != "" && part != "." { parts := parts + [part]; }
      i := i + 1;
    }
    assert comps[..i] == comps;
    return Some(parts);
  }

  /** Stripping `./` and `/` removes only components that are skipped anyway. */
  lemma {:induction false} StripDotSlashNames(s: string)
    ensures Names(Split(StripDotSlash(s))) == Names(Split(s))
    ensures Climbs(Split(StripDotSlash(s))) == Climbs(Split(s))
  {
    if "./" <= s {
      assert s == "." + "/" + s[2..];
      SplitConcat(".", s[2..]);
      SplitComponent(".");
      StripDotSlashNames(s[2..]);
      assert Split(s)[1..] == Split(s[2..]);
    }
  }

  lemma {:induction false} StripSlashNames(s: string)
    ensures Names(Split(StripSlash(s))) == Names(Split(s))
    ensures Climbs(Split(StripSlash(s))) == Climbs(Split(s))
  {
    if "/" <= s {
      StripSlashNames(s[1..]);
      assert Split(s)[1..] == Split(s[1..]);
    }
  }

  lemma {:induction false} NamesAppend(a: seq<string>, c: string)
    ensures Names(a + [c]) == Names(a) + (if Skips(c) then [] else [c])
  {
    if a == [] {
      assert a + [c] == [c];
    } else {
      assert (a + [c])[1..] == a[1..] + [c];
      NamesAppend(a[1..], c);
    }
  }

  lemma {:induction false} WalkWithoutClimb(comps: seq<string>, k: nat)
    requires k <= |comps| && !Climbs(comps)
    ensures Walk(comps, k) == Some(Names(comps[..k]))
  {
    if k > 0 {
      WalkWithoutClimb(comps, k - 1);
      assert comps[..k] == comps[..k - 1] + [comps[k - 1]];
      NamesAppend(comps[..k - 1], comps[k - 1]);
      assert comps[k - 1] in comps;
      assert Names(comps[..k - 1]) + [] == Names(comps[..k - 1]);
    }
  }

  lemma WithoutClimbNotDotDot(path: string)
    requires !Climbs(Split(path))
    ensures !("./../" <= path) && path != ".."
  {
    if path == ".." {
      SplitComponent(path);
    } else if "./../" <= path {
      assert "." + "/" <= path;
      HeadComponent(".", path);
      assert ".." + "/" <= path[2..];
      HeadComponent("..", path[2..]);
    }
  }

  lemma NormalizeWithoutClimb(raw: string)
    requires var path := Slashes(Trim(raw)); !("/" <= path) && !DriveColon(path) && !Climbs(Split(path))
    ensures var names := Names(Split(Slashes(Trim(raw))));
            Normalize(raw) == if names == [] then InvalidPath(raw) else Ok(Join(names))
  {
    var path := Slashes(Trim(raw));
    var comps := Split(path);
    WithoutClimbNotDotDot(path);
    WalkWithoutClimb(comps, |comps|);
    assert comps[..|comps|] == comps;
    if path == "" { assert Names(comps) == []; }
  }

  /**
   On what `RepoopsPath` accepts, the overlap normaliser refuses exactly the
   absolute and drive-letter forms, and otherwise gives the same path.
   */
  lemma NormalisersAgree(raw: string)
    requires Repoops(raw).Ok?
    ensures var path := Slashes(Trim(raw));
            Normalize(raw) == if "/" <= path || DriveColon(path) then InvalidPath(raw) else Repoops(raw)
  {
    var path := Slashes(Trim(raw));
    StripDotSlashNames(path);
    StripSlashNames(StripDotSlash(path));
    if !("/" <= path) && !DriveColon(path) { NormalizeWithoutClimb(raw); }
  }

  /**
   `RepoopsPath` accepts exactly the texts without control characters and without a climbing
   component in which some component names something, and keeps just the naming ones.
   */
  lemma RepoopsMeans(value: string)
    ensures var comps := Split(Slashes(Trim(value)));
            && (Repoops(value).Ok? <==>
                && (forall c :: c in value ==> !IsControl(c)) && ".." !in comps
                && exists c :: c in comps && c != "" && c != ".")
            && (Repoops(value).Ok? ==> Split(Repoops(value).path) == Names(comps))
  {
    var path := Slashes(Trim(value));
    var comps := Split(path);
    StripDotSlashNames(path);
    StripSlashNames(StripDotSlash(path));
    assert (exists i :: 0 <= i < |value| && IsControl(value[i])) <==> exists c :: c in value && IsControl(c) by {
      if c :| c in value && IsControl(c) { var i :| 0 <= i < |value| && value[i] == c; }
    }
    NamesEmptyIff(comps);
    SplitAvoids(path, '/');
    forall c | c in Names(comps) ensures '/' !in c { NamesAreComponents(comps, c); }
    if Names(comps) != [] {
      assert forall i :: 0 <= i < |Names(comps)| ==> Names(comps)[i] in Names(comps);
      SplitJoin(Names(comps));
    }
  }

  lemma NamesEmptyIff(comps: seq<string>)
    ensures Names(comps) != [] <==> exists c :: c in comps && c != "" && c != "."
  {
    if Names(comps) != [] { NamesAreComponents(comps, Names(comps)[0]); }
    if c :| c in comps && c != "" && c != "." { NamesAreComponents(comps, c); }
  }

  lemma {:induction false} NamesAreComponents(comps: seq<string>, c: string)
    ensures c in Names(comps) <==> c in comps && c != "" && c != "."
  {
    if comps != [] {
      NamesAreComponents(comps[1..], c);
      assert c in comps <==> c == comps[0] || c in comps[1..];
    }
  }

  lemma {:induction false} NamesArePushed(comps: seq<string>, c: string)
    requires c in Names(comps) && !Climbs(comps)
    ensures c in comps && Pushes(c)
  {
    assert forall x :: x in comps <==> x == comps[0] || x in comps[1..];
    if c in Names(comps[1..]) { NamesArePushed(comps[1..], c); }
  }

  /** What `RepoopsPath` accepts is a normal path, so it can be looked up as one. */
  lemma RepoopsIsNormal(value: string)
    requires Repoops(value).Ok?
    ensures NormalPath(Repoops(value).path)
  {
    var path := Slashes(Trim(value));
    var s := StripSlash(StripDotSlash(path));
    var names := Names(Split(s));
    StripDotSlashAvoids(path, '\\');
    StripSlashAvoids(StripDotSlash(path), '\\');
    SplitAvoids(s, '\\');
    SplitAvoids(s, '/');
    forall c | c in names ensures Pushes(c) && '/' !in c && '\\' !in c {
      NamesArePushed(Split(s), c);
    }
    assert forall i :: 0 <= i < |names| ==> names[i] in names;
    SplitJoin(names);
    JoinAvoids(names, '\\');
  }

  lemma {:induction false} StripDotSlashAvoids(s: string, x: char)
    requires x !in s
    ensures x !in StripDotSlash(s)
  {
    if "./" <= s { StripDotSlashAvoids(s[2..], x); }
  }

  lemma {:induction false} StripSlashAvoids(s: string, x: char)
    requires x !in s
    ensures x !in StripSlash(s)
  {
    if "/" <= s { StripSlashAvoids(s[1..], x); }
  }

  // ------------------------------------------------------- non-idempotence

  lemma {:induction false} NamesOfNames(comps: seq<string>)
    requires AllPush(comps)
    ensures Names(comps) == comps && !Climbs(comps)
  {
    if comps != [] {
      NamesOfNames(comps[1..]);
      assert comps == [comps[0]] + comps[1..];
      assert forall c :: c in comps ==> c == comps[0] || c in comps[1..];
    }
  }

  lemma DotSlashSplit(p: string)
    requires NormalPath(p)
    ensures var comps := Split("./" + p); Names(comps) == Split(p) && !Climbs(comps)
  {
    var path := "./" + p;
    assert "." + "/" == "./" && path[2..] == p;
    HeadComponent(".", path);
    NamesOfNames(Split(p));
    assert Split(path)[1..] == Split(p);
  }

  lemma DotSlashTrim(p: string)
    requires p != [] && !IsWhitespace(p[|p| - 1])
    ensures Trim("./" + p) == "./" + p
  {
    var path := "./" + p;
    assert path[0] == '.' && path[|path| - 1] == p[|p| - 1];
  }

  /** Every normal path whose last character is not blank is the result of some input. */
  lemma DotSlashProduces(p: string)
    requires NormalPath(p) && p != [] && !IsWhitespace(p[|p| - 1])
    ensures Normalize("./" + p) == Ok(p)
  {
    var path := "./" + p;
    DotSlashTrim(p);
    assert '\\' !in path;
    assert Slashes(Trim(path)) == path;
    assert path[0] == '.' && path[1] == '/';
    DotSlashSplit(p);
    NormalizeWithoutClimb(path);
    JoinSplit(p);
  }

  /** Ending in a component that is climbed out of again keeps even a trailing blank from the trim. */
  lemma ClimbOutSplit(p: string)
    requires NormalPath(p)
    ensures Split("./" + p + "/x/..") == ["."] + Split(p) + ["x", ".."]
  {
    SplitComponent(".");
    SplitComponent("x");
    SplitComponent("..");
    SplitConcat("x", "..");
    assert "x" + "/" + ".." == "x/..";
    SplitConcat(p, "x/..");
    SplitConcat(".", p + "/" + "x/..");
    assert "." + "/" + (p + "/" + "x/..") == "./" + p + "/x/..";
  }

  lemma {:induction false} WalkAfterDot(comps: seq<string>, names: seq<string>, k: nat)
    requires AllPush(names) && |comps| >= 1 + |names| && comps[0] == "." && comps[1..1 + |names|] == names && k <= |names|
    ensures Walk(comps, 1 + k) == Some(names[..k])
  {
    if k > 0 {
      WalkAfterDot(comps, names, k - 1);
      assert comps[k] == names[k - 1];
      assert names[..k] == names[..k - 1] + [names[k - 1]];
    }
  }

  lemma ClimbOutText(p: string)
    requires '\\' !in p
    ensures var path := "./" + p + "/x/.."; Slashes(Trim(path)) == path
  {
    var path := "./" + p + "/x/..";
    assert path[0] == '.' && path[|path| - 1] == '.';
    assert Trim(path) == path;
    assert '\\' !in path;
  }

  lemma ClimbOutNotRefused(p: string)
    requires NormalPath(p)
    ensures !Refused("./" + p + "/x/..")
  {
    var path := "./" + p + "/x/..";
    ClimbOutSplit(p);
    assert path[0] == '.' && path[1] == '/';
    assert Pushes(Split(p)[0]) && Split(path)[1] == Split(p)[0];
    if "./../" <= path {
      assert "." + "/" <= path;
      HeadComponent(".", path);
      assert ".." + "/" <= path[2..];
      HeadComponent("..", path[2..]);
    }
  }

  lemma ClimbOutWalk(names: seq<string>)
    requires AllPush(names)
    ensures var comps := ["."] + names + ["x", ".."]; Walk(comps, |comps|) == Some(names)
  {
    var comps, n := ["."] + names + ["x", ".."], |names|;
    assert comps[1..1 + n] == names;
    WalkAfterDot(comps, names, n);
    assert names[..n] == names;
    assert comps[1 + n] == "x" && comps[2 + n] == "..";
    assert Walk(comps, 2 + n) == Some(names + ["x"]);
    assert (names + ["x"])[..n] == names;
  }

  /** Every normal path is a result, so each case of a second normalisation is reached. */
  lemma EveryNormalPathIsAResult(p: string)
    requires NormalPath(p)
    ensures Normalize("./" + p + "/x/..") == Ok(p)
  {
    ClimbOutText(p);
    ClimbOutNotRefused(p);
    ClimbOutSplit(p);
    ClimbOutWalk(Split(p));
    JoinSplit(p);
  }

  /** Two inputs on which normalisation is not idempotent. */
  lemma NotIdempotent()
    ensures Normalize("./" + " a") == Ok(" a") && Normalize(" a") != Ok(" a")
    ensures Normalize("./" + "c:") == Ok("c:") && Normalize("c:") != Ok("c:")
  {
    SplitComponent(" a");
    SplitComponent("c:");
    DotSlashProduces(" a");
    DotSlashProduces("c:");
    assert TrimStart(" a") == TrimStart("a");
    NormalFixedPointIff(" a");
    NormalFixedPointIff("c:");
  }
}
