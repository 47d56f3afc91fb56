// What a program sees at the managed names when links stand above them, as a
// tree of its own: calls at managed names act on this tree as they act on the
// tree behind it, as long as the links lead to places apart from each other
// and no way there runs through one of them.
module Mirror {
  import opened FileTree
  import opened Snapshots

  // ---------------------------------------------------------------------
  // Ways and places
  // ---------------------------------------------------------------------

  // The nodes that a resolution looks at before its last segment.
  ghost function Visits(t: Tree, at: Path, rest: Path, hops: nat): set<Path>
    decreases hops, |rest|
  {
    if |rest| <= 1 then {}
    else
      var next := at + [rest[0]];
      if next in t && t[next].Link? then
        if hops == 0 then {next}
        else
          var target := t[next].target;
          var base := if target.absolute then [] else Climb(at, target.ups);
          {next} + Visits(t, base, target.segments + rest[1..], hops - 1)
      else if next in t && t[next].Dir? then {next} + Visits(t, next, rest[1..], hops)
      else {next}
  }

  ghost predicate SameAt(t: Tree, u: Tree, p: Path) {
    (p in t <==> p in u) && (p in t ==> u[p] == t[p])
  }

  // A resolution depends only on the nodes it looks at.
  lemma {:induction false} SameVisits(t: Tree, u: Tree, at: Path, rest: Path, hops: nat)
    requires forall x :: x in Visits(t, at, rest, hops) ==> SameAt(t, u, x)
    ensures Locate(u, at, rest, false, hops) == Locate(t, at, rest, false, hops)
    ensures Visits(u, at, rest, hops) == Visits(t, at, rest, hops)
    decreases hops, |rest|
  {
    if |rest| > 1 {
      var next := at + [rest[0]];
      assert next in Visits(t, at, rest, hops);
      if next in t && t[next].Link? {
        if hops > 0 {
          var target := t[next].target;
          var base := if target.absolute then [] else Climb(at, target.ups);
          SameVisits(t, u, base, target.segments + rest[1..], hops - 1);
        }
      } else if next in t && t[next].Dir? {
        SameVisits(t, u, next, rest[1..], hops);
      }
    }
  }

  ghost predicate Leads(t: Tree, m: Path) {
    Here(t, m).At?
  }

  // The place that the name m leads to.
  ghost function Place(t: Tree, m: Path): Path {
    if Leads(t, m) then Here(t, m).path else []
  }

  ghost predicate OffPlaces(paths: seq<Path>, t: Tree, p: Path) {
    forall n :: n in paths && Leads(t, n) ==> !(Place(t, n) <= p)
  }

  // The managed names lead to places none of which lies inside another, and no
  // way to a place runs through a place.
  ghost predicate Apart(paths: seq<Path>, t: Tree) {
    && (forall m, n :: m in paths && n in paths && Leads(t, m) && Leads(t, n) && m != n ==>
          !(Place(t, m) <= Place(t, n)))
    && (forall m, x :: m in paths && x in Visits(t, [], m, MAX_LINKS) ==> OffPlaces(paths, t, x))
  }

  // Nothing changed but at the places and below them.
  ghost predicate SameOffPlaces(paths: seq<Path>, t: Tree, u: Tree) {
    forall p :: OffPlaces(paths, t, p) ==> SameAt(t, u, p)
  }

  ghost predicate SamePlaces(paths: seq<Path>, t: Tree, u: Tree) {
    forall m :: m in paths ==> Here(u, m) == Here(t, m)
  }

  lemma PlacesStay(paths: seq<Path>, t: Tree, u: Tree)
    requires Apart(paths, t) && SameOffPlaces(paths, t, u)
    ensures Apart(paths, u) && SamePlaces(paths, t, u)
    ensures forall p :: OffPlaces(paths, u, p) <==> OffPlaces(paths, t, p)
  {
    hide Locate, Visits, SameAt;
    forall m | m in paths
      ensures Here(u, m) == Here(t, m) && Visits(u, [], m, MAX_LINKS) == Visits(t, [], m, MAX_LINKS)
    {
      SameVisits(t, u, [], m, MAX_LINKS);
    }
    SamePlacesOff(paths, t, u);
  }

  lemma SamePlacesOff(paths: seq<Path>, t: Tree, u: Tree)
    requires SamePlaces(paths, t, u)
    ensures forall p :: OffPlaces(paths, u, p) <==> OffPlaces(paths, t, p)
    ensures forall m :: m in paths ==> (Leads(u, m) <==> Leads(t, m)) && Place(u, m) == Place(t, m)
  {
    hide Locate;
  }

  // ---------------------------------------------------------------------
  // The tree of the managed names
  // ---------------------------------------------------------------------

  ghost predicate Above(paths: seq<Path>, a: Path) {
    exists m :: m in paths && a < m
  }

  ghost function NamesAbove(paths: seq<Path>): set<Path> {
    set m, n | m in paths && 0 <= n < |m| :: m[..n]
  }

  // What the managed names show, below directories.
  ghost function Seen(paths: seq<Path>, t: Tree): Tree {
    (map a | a in NamesAbove(paths) :: Dir(NEW_DIRECTORY_MODE)) + View(t, paths)
  }

  // The node behind the managed name k.
  ghost predicate Shows(t: Tree, m: Path, v: Tree, k: Path)
    requires m <= k
  {
    var x := Place(t, m) + k[|m|..];
    (k in v <==> Leads(t, m) && x in t) && (k in v && Leads(t, m) && x in t ==> v[k] == t[x])
  }

  ghost predicate Mirrors(paths: seq<Path>, t: Tree, v: Tree) {
    && (forall m, k :: m in paths && m <= k ==> Shows(t, m, v, k))
    && (forall a :: Above(paths, a) ==> a in v && v[a] == Dir(NEW_DIRECTORY_MODE))
    && (forall p :: p in v ==> Managed(paths, p) || Above(paths, p))
  }

  lemma SeenMirrors(paths: seq<Path>, t: Tree)
    requires Wf(t) && Separate(paths)
    ensures Mirrors(paths, t, Seen(paths, t))
  {
    hide Locate, Separate, View, Wf;
    var v := Seen(paths, t);
    forall m, k | m in paths && m <= k ensures Shows(t, m, v, k) {
      SeenAt(paths, t, m, k);
    }
    forall a | Above(paths, a) ensures a in v && v[a] == Dir(NEW_DIRECTORY_MODE) {
      var m :| m in paths && a < m;
      assert a == m[..|a|];
      assert a in NamesAbove(paths);
      if a in View(t, paths) {
        var n := ViewIsManaged(paths, t, a);
        NotAbove(paths, n, m, a);
      }
    }
    forall p | p in v ensures Managed(paths, p) || Above(paths, p) {
      if p in View(t, paths) {
        var n := ViewIsManaged(paths, t, p);
      } else {
        var m, n :| m in paths && 0 <= n < |m| && p == m[..n];
        assert p < m;
      }
    }
  }

  lemma ViewIsManaged(paths: seq<Path>, t: Tree, p: Path) returns (m: Path)
    requires Wf(t) && Separate(paths) && p in View(t, paths)
    ensures m in paths && m <= p
  {
    hide Wf, Locate, Walk, Lstat;
    m :| m in paths && p in Walk(t, m);
    SeparateIsProper(paths, m);
    WalkIsShown(t, m);
  }

  lemma SeenAt(paths: seq<Path>, t: Tree, m: Path, k: Path)
    requires Wf(t) && Separate(paths) && m in paths && m <= k
    ensures Shows(t, m, Seen(paths, t), k)
  {
    hide Locate, Separate, View, Wf, Lstat;
    SeparateIsProper(paths, m);
    ViewBelow(t, paths, m);
    var q := Place(t, m);
    var y := q + k[|m|..];
    if Leads(t, m) && y in t {
      assert q <= y && y[|q|..] == k[|m|..] && k == m + y[|q|..];
      if q != y { AncestorIsDir(t, q, y); }
      assert k in Walk(t, m);
    }
    if k in Walk(t, m) { WalkShows(t, m, q, k); }
    BelowIsNotAbove(paths, m, k);
  }

  lemma NotAbove(paths: seq<Path>, m: Path, n: Path, k: Path)
    requires Separate(paths) && m in paths && n in paths && m <= k
    ensures !(k < n)
  {
    assert k < n ==> m <= n;
  }

  lemma BelowIsNotAbove(paths: seq<Path>, m: Path, k: Path)
    requires Separate(paths) && m in paths && m <= k
    ensures k !in NamesAbove(paths)
  {
    hide Separate;
    forall n, i | n in paths && 0 <= i < |n| ensures n[..i] != k {
      NotAbove(paths, m, n, k);
      assert n[..i] < n;
    }
  }

  // A mirror is the tree of the managed names.
  lemma MirrorIsSeen(paths: seq<Path>, t: Tree, v: Tree)
    requires Wf(t) && Separate(paths) && Mirrors(paths, t, v)
    ensures v == Seen(paths, t)
  {
    hide Locate, Separate, Seen, Shows, Wf;
    var w := Seen(paths, t);
    SeenMirrors(paths, t);
    forall p ensures SameAt(v, w, p) {
      if Managed(paths, p) {
        var m :| m in paths && m <= p;
        assert Shows(t, m, v, p) && Shows(t, m, w, p);
        SameShown(t, m, v, w, p);
      } else if Above(paths, p) {
      } else {
        assert p !in v && p !in w;
      }
    }
    assert v.Keys == w.Keys by {
      forall p ensures p in v <==> p in w { assert SameAt(v, w, p); }
    }
    assert forall p :: p in v ==> SameAt(v, w, p);
  }

  lemma SameShown(t: Tree, m: Path, v: Tree, w: Tree, p: Path)
    requires m <= p && Shows(t, m, v, p) && Shows(t, m, w, p)
    ensures SameAt(v, w, p)
  {
  }

  lemma SeenIsTree(paths: seq<Path>, t: Tree)
    requires Wf(t) && Separate(paths) && paths != []
    ensures Wf(Seen(paths, t)) && AllStraight(Seen(paths, t), paths)
    ensures forall m :: m in paths ==> Reachable(Seen(paths, t), m) && !Blocked(Seen(paths, t), m)
  {
    hide Locate, Seen, Shows;
    var v := Seen(paths, t);
    SeenMirrors(paths, t);
    SeparateIsProper(paths, paths[0]);
    assert [] < paths[0] && Above(paths, []);
    forall p, n: nat | p in v && n < |p| ensures p[..n] in v && v[p[..n]].Dir? {
      if Above(paths, p) { AboveBelow(paths, p, n); }
      if !Above(paths, p[..n]) {
        var m :| m in paths && m <= p;
        assert m <= p[..n] by { PrefixBetween(paths, m, p, n); }
        assert Shows(t, m, v, p) && Shows(t, m, v, p[..n]);
        DirBehind(t, m, v, p, n);
      }
    }
    forall m, a | m in paths && a < m ensures a in v && v[a].Dir? { assert Above(paths, a); }
    forall m, n: nat | m in paths && n < |m| ensures m[..n] in v && v[m[..n]].Dir? { assert m[..n] < m; }
  }

  lemma AboveBelow(paths: seq<Path>, p: Path, n: nat)
    requires Above(paths, p) && n < |p|
    ensures Above(paths, p[..n])
  {
    var m :| m in paths && p < m;
    assert p[..n] < m;
  }

  lemma PrefixBetween(paths: seq<Path>, m: Path, p: Path, n: nat)
    requires m in paths && m <= p && n < |p| && !Above(paths, p[..n])
    ensures m <= p[..n]
  {
    PrefixOf(m, p, n);
  }

  lemma PrefixOf(m: Path, p: Path, n: nat)
    requires m <= p && n <= |p|
    ensures n < |m| ==> p[..n] < m && p[..n] == m[..n]
    ensures n >= |m| ==> m <= p[..n] && p[..n][|m|..] == p[|m|..][..n - |m|]
    ensures n == |m| ==> p[..n] == m
  {
  }

  lemma DirBehind(t: Tree, m: Path, v: Tree, p: Path, n: nat)
    requires Wf(t) && m <= p && n < |p| && m <= p[..n] && p in v
    requires Shows(t, m, v, p) && Shows(t, m, v, p[..n])
    ensures p[..n] in v && v[p[..n]].Dir?
  {
    var q := Place(t, m);
    var y := q + p[|m|..];
    var i := |q| + n - |m|;
    assert y[..i] == q + p[..n][|m|..];
  }

  // ---------------------------------------------------------------------
  // The way to a managed name
  // ---------------------------------------------------------------------

  lemma {:induction false} LocateOn(t: Tree, at: Path, rest: Path, more: Path, follow: bool, hops: nat, q: Path)
    returns (left: nat)
    requires rest != [] && more != [] && Locate(t, at, rest, false, hops) == At(q) && q in t && t[q].Dir?
    ensures Locate(t, at, rest + more, follow, hops) == Locate(t, q, more, follow, left)
    decreases hops, |rest|
  {
    var next := at + [rest[0]];
    assert (rest + more)[1..] == rest[1..] + more;
    if |rest| == 1 {
      assert (rest + more)[1..] == more;
      left := hops;
    } else if next in t && t[next].Link? {
      var target := t[next].target;
      var base := if target.absolute then [] else Climb(at, target.ups);
      assert target.segments + (rest[1..] + more) == (target.segments + rest[1..]) + more;
      left := LocateOn(t, base, target.segments + rest[1..], more, follow, hops - 1, q);
    } else {
      left := LocateOn(t, next, rest[1..], more, follow, hops, q);
    }
  }

  lemma {:induction false} LocateOff(t: Tree, at: Path, rest: Path, more: Path, follow: bool, hops: nat, q: Path)
    requires rest != [] && more != [] && Locate(t, at, rest, false, hops) == At(q)
    requires q !in t || t[q].File?
    ensures Locate(t, at, rest + more, follow, hops) == Failed(if q in t then ENOTDIR else ENOENT)
    decreases hops, |rest|
  {
    var next := at + [rest[0]];
    assert (rest + more)[1..] == rest[1..] + more;
    if |rest| > 1 {
      if next in t && t[next].Link? {
        var target := t[next].target;
        var base := if target.absolute then [] else Climb(at, target.ups);
        assert target.segments + (rest[1..] + more) == (target.segments + rest[1..]) + more;
        LocateOff(t, base, target.segments + rest[1..], more, follow, hops - 1, q);
      } else {
        LocateOff(t, next, rest[1..], more, follow, hops, q);
      }
    }
  }

  lemma {:induction false} LocateLast(t: Tree, at: Path, rest: Path, hops: nat, q: Path)
    requires Locate(t, at, rest, false, hops) == At(q) && (q in t ==> !t[q].Link?)
    ensures Locate(t, at, rest, true, hops) == At(q)
    decreases hops, |rest|
  {
    if |rest| > 1 {
      var next := at + [rest[0]];
      if next in t && t[next].Link? {
        var target := t[next].target;
        var base := if target.absolute then [] else Climb(at, target.ups);
        LocateLast(t, base, target.segments + rest[1..], hops - 1, q);
      } else {
        LocateLast(t, next, rest[1..], hops, q);
      }
    }
  }

  // What stands between the tree and its mirror at and below the name m.
  ghost predicate Reflects(t: Tree, v: Tree, m: Path) {
    && Wf(t) && Wf(v) && m != [] && Leads(t, m) && Reachable(v, m)
    && forall k :: m <= k ==> Shows(t, m, v, k)
  }

  // A managed name with no link above it in the mirror leads below its place
  // as it leads in the mirror.
  lemma Through(t: Tree, v: Tree, m: Path, k: Path, follow: bool)
    requires Reflects(t, v, m) && m <= k && Straight(v, k) && (follow && k in v ==> !v[k].Link?)
    ensures
      var there := Locate(v, [], k, follow, MAX_LINKS);
      && (there.At? ==> there.path == k)
      && Locate(t, [], k, follow, MAX_LINKS) == if there.At? then At(Place(t, m) + k[|m|..]) else there
  {
    hide Locate, Wf;
    var q, x := Place(t, m), k[|m|..];
    assert m + x == k && [] + k == k && q + [] == q;
    assert Shows(t, m, v, k) && Shows(t, m, v, m);
    if x == [] {
      assert k == m;
      LocateReachable(v, [], k, follow, MAX_LINKS);
      if follow { LocateLast(t, [], m, MAX_LINKS, q); }
    } else if q in t && t[q].Dir? {
      var left := LocateOn(t, [], m, x, follow, MAX_LINKS, q);
      ThroughDirectory(t, v, m, k, follow, left);
    } else {
      assert m == k[..|m|];
      LocateOff(t, [], m, x, follow, MAX_LINKS, q);
      forall i: nat | i < |m| ensures k[..i] in v && v[k[..i]].Dir? { assert k[..i] == m[..i]; }
      LocateStops(v, [], k, follow, MAX_LINKS, |m|);
    }
  }

  lemma ThroughDirectory(t: Tree, v: Tree, m: Path, k: Path, follow: bool, left: nat)
    requires Reflects(t, v, m) && m < k && Straight(v, k) && (follow && k in v ==> !v[k].Link?)
    requires Place(t, m) in t && t[Place(t, m)].Dir?
    ensures
      var there := Locate(v, [], k, follow, MAX_LINKS);
      && (there.At? ==> there.path == k)
      && Locate(t, Place(t, m), k[|m|..], follow, left) ==
           if there.At? then At(Place(t, m) + k[|m|..]) else there
  {
    hide Locate, Wf, Reachable, Straight, Shows;
    var q, x := Place(t, m), k[|m|..];
    assert [] + k == k && k[..|k|] == k && (q + x)[..|q + x|] == q + x;
    NodeBehind(t, v, m, k, |k|);
    if Reachable(v, k) {
      assert forall l: nat :: l < |k| ==> k[..l] in v && v[k[..l]].Dir? by { AncestorDirs(v, k); }
      DirsBehind(t, v, m, k, |k|);
      assert Reachable(t, q + x) by { DirsAreReachable(t, q + x); }
      LocateReachable(v, [], k, follow, MAX_LINKS);
      LocateReachable(t, q, x, follow, left);
    } else {
      var n := Obstacle(v, k);
      ObstacleIsBelow(t, v, m, k, n);
      LocateStops(v, [], k, follow, MAX_LINKS, n);
      DirsBehind(t, v, m, k, n);
      NodeBehind(t, v, m, k, n);
      LocateStops(t, q, x, follow, left, |q| + n - |m|);
    }
  }

  lemma AncestorDirs(v: Tree, k: Path)
    requires Reachable(v, k)
    ensures forall l: nat :: l < |k| ==> k[..l] in v && v[k[..l]].Dir?
  {
  }

  lemma DirsAreReachable(t: Tree, p: Path)
    requires forall l: nat :: l < |p| ==> p[..l] in t && t[p[..l]].Dir?
    ensures Reachable(t, p)
  {
  }

  lemma Obstacle(v: Tree, k: Path) returns (n: nat)
    requires Wf(v) && Straight(v, k) && !Reachable(v, k)
    ensures 0 < n < |k| && (k[..n] !in v || v[k[..n]].File?)
    ensures forall l: nat :: l < n ==> k[..l] in v && v[k[..l]].Dir?
  {
    hide Wf;
    var i: nat :| i < |k| && (k[..i] !in v || !v[k[..i]].Dir?);
    n := FirstObstacle(v, k, i);
    assert k[..n] < k;
  }

  // The node behind a prefix of k.
  lemma NodeBehind(t: Tree, v: Tree, m: Path, k: Path, n: nat)
    requires Reflects(t, v, m) && m <= k && |m| <= n <= |k|
    ensures var y := (Place(t, m) + k[|m|..])[..|Place(t, m)| + n - |m|];
            SameNode(v, k[..n], t, y)
  {
    hide Locate, Wf;
    PrefixOf(m, k, n);
    var q := Place(t, m);
    assert Shows(t, m, v, k[..n]);
    assert (q + k[|m|..])[..|q| + n - |m|] == q + k[..n][|m|..];
  }

  ghost predicate SameNode(v: Tree, k: Path, t: Tree, y: Path) {
    (k in v <==> y in t) && (k in v && y in t ==> v[k] == t[y])
  }

  lemma DirsBehind(t: Tree, v: Tree, m: Path, k: Path, n: nat)
    requires Reflects(t, v, m) && m <= k && |m| <= n <= |k|
    requires forall l: nat :: l < n ==> k[..l] in v && v[k[..l]].Dir?
    ensures
      var y := Place(t, m) + k[|m|..];
      forall j: nat :: j < |Place(t, m)| + n - |m| ==> y[..j] in t && t[y[..j]].Dir?
  {
    hide Locate, Wf;
    var q := Place(t, m);
    var y := q + k[|m|..];
    PlaceIsReachable(t, m);
    forall j: nat | j < |q| + n - |m| ensures y[..j] in t && t[y[..j]].Dir? {
      if j < |q| {
        assert y[..j] == q[..j];
      } else {
        NodeBehind(t, v, m, k, j - |q| + |m|);
      }
    }
  }

  lemma PlaceIsReachable(t: Tree, m: Path)
    requires Wf(t) && Leads(t, m)
    ensures Reachable(t, Place(t, m))
  {
    LocateLands(t, [], m, false, MAX_LINKS);
  }

  lemma ObstacleIsBelow(t: Tree, v: Tree, m: Path, k: Path, n: nat)
    requires Reflects(t, v, m) && m <= k && n <= |k| && Place(t, m) in t && t[Place(t, m)].Dir?
    requires k[..n] !in v || !v[k[..n]].Dir?
    ensures |m| < n
  {
    hide Locate, Wf;
    PrefixOf(m, k, n);
    var q := Place(t, m);
    assert Shows(t, m, v, m) && q + m[|m|..] == q;
  }
}
