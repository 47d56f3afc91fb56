// The snapshot of the paths that the project generators manage
// (internal/command/development.go).
module Snapshots {
  import opened FileTree

  datatype Result<T> = Ok(value: T) | Err

  datatype SavedFile = SavedFile(contents: Bytes, mode: nat)

  datatype Snapshot = Snapshot(
    paths: seq<Path>,
    existed: set<Path>,
    files: map<Path, SavedFile>,
    links: map<Path, Target>,
    dirs: map<Path, nat>)

  // Links are tolerated only below this directory.
  const SERVICE: Path := ["internal", "service"]

  const PATHS: seq<Path> := [
    ["go.mod"], ["go.sum"], ["api", "http", "openapi.yaml"],
    ["gen", "http"], ["gen", "pb"],
    SERVICE, [".jgo", "rpc.json"],
    ["internal", "transport", "http", "routes.gen.go"],
    ["internal", "transport", "grpc", "register.gen.go"],
    ["internal", "transport", "grpc", "external.gen.go"],
    ["internal", "rpcclient", "clients.gen.go"]]

  // No managed path is the project root or lies inside another one.
  ghost predicate Separate(paths: seq<Path>) {
    && (forall m :: m in paths ==> m != [])
    && (forall m, n :: m in paths && n in paths && m <= n ==> m == n)
  }

  ghost predicate Managed(paths: seq<Path>, p: Path) {
    exists m :: m in paths && m <= p
  }

  // ---------------------------------------------------------------------
  // What a snapshot records
  // ---------------------------------------------------------------------

  ghost function Region(paths: seq<Path>, t: Tree): set<Path> {
    set p | p in t && Managed(paths, p)
  }

  ghost function FilesOf(t: Tree, ps: set<Path>): map<Path, SavedFile> {
    map p | p in ps && p in t && t[p].File? :: SavedFile(t[p].contents, t[p].mode)
  }

  ghost function LinksOf(t: Tree, ps: set<Path>): map<Path, Target> {
    map p | p in ps && p in t && t[p].Link? :: t[p].target
  }

  ghost function DirsOf(t: Tree, ps: set<Path>): map<Path, nat> {
    map p | p in ps && p in t && t[p].Dir? :: t[p].mode
  }

  // The snapshot describes the managed region of t exactly: nothing missing,
  // nothing extra, with contents, modes and link targets.
  ghost predicate Captures(s: Snapshot, t: Tree) {
    && s.existed == (set m | m in s.paths && m in t)
    && s.files == FilesOf(t, Region(s.paths, t))
    && s.links == LinksOf(t, Region(s.paths, t))
    && s.dirs == DirsOf(t, Region(s.paths, t))
  }

  ghost predicate SameRegion(paths: seq<Path>, t: Tree, u: Tree) {
    forall p :: Managed(paths, p) ==> (p in t <==> p in u) && (p in t ==> u[p] == t[p])
  }

  // Two trees captured by one snapshot agree on the whole managed region.
  lemma CapturedRegionsAgree(s: Snapshot, t: Tree, u: Tree)
    requires Captures(s, t)
    ensures Captures(s, u) <==> SameRegion(s.paths, t, u)
  {
    if Captures(s, u) {
      forall p | Managed(s.paths, p)
        ensures (p in t <==> p in u) && (p in t ==> u[p] == t[p])
      {
        RecordedOnce(s, t, p);
        RecordedOnce(s, u, p);
      }
    }
    if SameRegion(s.paths, t, u) {
      SameRegionSameRecord(s, t, u);
    }
  }

  lemma SameRegionSameRecord(s: Snapshot, t: Tree, u: Tree)
    requires SameRegion(s.paths, t, u)
    ensures Captures(s, t) ==> Captures(s, u)
  {
    forall m | m in s.paths ensures m in t <==> m in u {
      assert Managed(s.paths, m);
    }
    var region := Region(s.paths, t);
    assert region == Region(s.paths, u);
    assert forall p :: p in region ==> p in t && p in u && t[p] == u[p];
    assert FilesOf(u, region) == FilesOf(t, region);
    assert LinksOf(u, region) == LinksOf(t, region);
    assert DirsOf(u, region) == DirsOf(t, region);
  }

  lemma RecordedOnce(s: Snapshot, t: Tree, p: Path)
    requires Captures(s, t) && Managed(s.paths, p)
    ensures p in s.files <==> p in t && t[p].File?
    ensures p in s.links <==> p in t && t[p].Link?
    ensures p in s.dirs <==> p in t && t[p].Dir?
    ensures p in s.files ==> t[p] == File(s.files[p].contents, s.files[p].mode)
    ensures p in s.links ==> t[p] == Link(s.links[p])
    ensures p in s.dirs ==> t[p] == Dir(s.dirs[p])
  {
  }

  // ---------------------------------------------------------------------
  // What a program sees under the managed names
  // ---------------------------------------------------------------------

  ghost function Shown(t: Tree, paths: seq<Path>): set<Path> {
    set m, p | m in paths && p in Walk(t, m) :: p
  }

  // Every name that a walk of a managed path visits, with the node it shows,
  // also when a link above the path leads the walk elsewhere.
  ghost function View(t: Tree, paths: seq<Path>): Tree {
    map p | p in Shown(t, paths) && Lstat(t, p).Found? :: Lstat(t, p).node
  }

  ghost predicate AllStraight(t: Tree, paths: seq<Path>) {
    forall m :: m in paths ==> Straight(t, m)
  }

  lemma {:induction false} LocateExtends(t: Tree, at: Path, rest: Path, more: Path, hops: nat, q: Path)
    requires Wf(t) && rest != [] && more != [] && q + more in t
    requires Locate(t, at, rest, false, hops) == At(q)
    ensures Locate(t, at, rest + more, false, hops) == At(q + more)
    decreases hops, |rest|
  {
    hide Wf;
    var next := at + [rest[0]];
    assert (rest + more)[1..] == rest[1..] + more;
    assert q < q + more;
    AncestorIsDir(t, q, q + more);
    if |rest| == 1 {
      AncestorsAreDirs(t, q + more);
      LocateReachable(t, next, more, false, hops);
      assert (rest + more)[1..] == more;
    } else if next in t && t[next].Link? {
      var target := t[next].target;
      assert target.segments + (rest[1..] + more) == (target.segments + rest[1..]) + more;
      LocateExtends(t, if target.absolute then [] else Climb(at, target.ups), target.segments + rest[1..], more,
          hops - 1, q);
    } else {
      LocateExtends(t, next, rest[1..], more, hops, q);
    }
  }

  // A walk shows each entry below its starting place under the starting name.
  lemma WalkShows(t: Tree, m: Path, q: Path, p: Path)
    requires Wf(t) && m != [] && Here(t, m) == At(q) && p in Walk(t, m)
    ensures m <= p && q + p[|m|..] in t && Lstat(t, p) == Found(t[q + p[|m|..]])
  {
    hide Wf, Locate;
    var x :| x in t && q <= x && p == m + x[|q|..];
    var more := x[|q|..];
    assert p[|m|..] == more && q + more == x;
    if more == [] {
      assert p == m && q + more == q;
    } else {
      LocateExtends(t, [], m, more, MAX_LINKS, q);
    }
  }

  lemma WalkIsShown(t: Tree, m: Path)
    requires Wf(t) && m != []
    ensures forall p :: p in Walk(t, m) ==> m <= p && Lstat(t, p).Found?
    ensures m in Walk(t, m) <==> Lstat(t, m).Found?
    ensures Lstat(t, m).Found? && !Lstat(t, m).node.Dir? ==> Walk(t, m) == {m}
    ensures !Lstat(t, m).Found? ==> Walk(t, m) == {}
  {
    hide Wf, Locate;
    if Here(t, m).At? {
      var q := Here(t, m).path;
      forall p | p in Walk(t, m) ensures m <= p && Lstat(t, p).Found? { WalkShows(t, m, q, p); }
      if q in t {
        assert m + q[|q|..] == m;
        if !t[q].Dir? {
          LeafHasNoChildren(t, q);
          assert forall x :: x in t && q <= x ==> x == q;
        }
      }
    }
  }

  // The part of the view under one managed name is what its walk visits.
  lemma ViewBelow(t: Tree, paths: seq<Path>, m: Path)
    requires Wf(t) && Separate(paths) && m in paths
    ensures (set p | p in View(t, paths) && m <= p) == Walk(t, m)
    ensures forall p :: p in Walk(t, m) ==> p in View(t, paths) && Lstat(t, p) == Found(View(t, paths)[p])
    ensures m in View(t, paths) <==> Lstat(t, m).Found?
  {
    hide Wf, Locate, Walk, Lstat;
    WalkIsShown(t, m);
    forall p | p in View(t, paths) && m <= p ensures p in Walk(t, m) {
      var n :| n in paths && p in Walk(t, n);
      WalkIsShown(t, n);
      assert m == p[..|m|] && n == p[..|n|];
      assert if |m| <= |n| then m <= n else n <= m;
    }
  }

  // Without links above the managed paths the view is the region itself.
  lemma ViewIsRegion(t: Tree, paths: seq<Path>)
    requires Wf(t) && Separate(paths) && AllStraight(t, paths)
    ensures SameRegion(paths, t, View(t, paths))
    ensures Region(paths, View(t, paths)) == Region(paths, t)
  {
    hide Wf, Locate, Walk, Lstat, Separate;
    forall p | Managed(paths, p)
      ensures (p in t <==> p in View(t, paths)) && (p in t ==> View(t, paths)[p] == t[p])
    {
      var m :| m in paths && m <= p;
      ViewBelow(t, paths, m);
      WalkStraight(t, m);
      assert p in View(t, paths) <==> p in Walk(t, m);
      if p in t { AncestorsAreDirs(t, p); LstatStraight(t, p); }
    }
  }

  // In the managed region, whatever lies above a node is a directory of the
  // region.
  ghost predicate RegionClosed(paths: seq<Path>, t: Tree) {
    forall k, a :: k in t && a < k && Managed(paths, a) ==> a in t && t[a].Dir?
  }

  lemma TreeIsClosed(t: Tree, paths: seq<Path>)
    requires Wf(t)
    ensures RegionClosed(paths, t)
  {
    forall k, a | k in t && a < k ensures a in t && t[a].Dir? { AncestorIsDir(t, a, k); }
  }

  lemma ViewIsClosed(t: Tree, paths: seq<Path>)
    requires Wf(t) && Separate(paths)
    ensures RegionClosed(paths, View(t, paths))
  {
    hide Wf, Locate, Lstat, View;
    var v := View(t, paths);
    forall k, a | k in v && a < k && Managed(paths, a) ensures a in v && v[a].Dir? {
      var m :| m in paths && m <= a;
      assert m <= k;
      ViewBelow(t, paths, m);
      assert k in Walk(t, m);
      var q := Here(t, m).path;
      WalkShows(t, m, q, k);
      var x, y := q + k[|m|..], q + a[|m|..];
      assert a == k[..|a|] && y == x[..|y|];
      assert y < x;
      AncestorIsDir(t, y, x);
      assert a == m + y[|q|..];
      assert a in Walk(t, m);
      WalkShows(t, m, q, a);
    }
  }

  // ---------------------------------------------------------------------
  // Taking the snapshot
  // ---------------------------------------------------------------------

  // The trees a snapshot accepts.
  ghost predicate AcceptableAt(t: Tree, m: Path) {
    && !Lstat(t, m).Unreadable?
    && (Lstat(t, m).Found? ==> !Lstat(t, m).node.Link?)
    && (forall p :: p in Walk(t, m) && Lstat(t, p).Found? && Lstat(t, p).node.Link? ==> SERVICE <= p)
  }

  ghost predicate Acceptable(t: Tree, paths: seq<Path>) {
    forall m :: m in paths ==> AcceptableAt(t, m)
  }

  // Without links above it, a managed path is acceptable when it is not below
  // a regular file, is not a link, and holds links only below SERVICE.
  lemma AcceptableStraight(t: Tree, m: Path)
    requires Wf(t) && Straight(t, m) && m != []
    ensures AcceptableAt(t, m) <==>
      && !Blocked(t, m)
      && (m in t ==> !t[m].Link?)
      && (forall p :: p in t && m <= p && t[p].Link? ==> SERVICE <= p)
  {
    hide Wf, Locate;
    LstatStraight(t, m);
    WalkStraight(t, m);
    forall p | p in t && m <= p ensures Lstat(t, p) == Found(t[p]) {
      AncestorsAreDirs(t, p);
      LstatStraight(t, p);
    }
  }

  // The snapshot records exactly what is seen under the managed names.
  method TakeSnapshot(t: Tree, paths: seq<Path>) returns (r: Result<Snapshot>)
    requires Wf(t) && Separate(paths)
    ensures r.Ok? <==> Acceptable(t, paths)
    ensures r.Ok? ==> r.value.paths == paths && Captures(r.value, View(t, paths))
    ensures r.Ok? && AllStraight(t, paths) ==> Captures(r.value, t)
  {
    hide Wf, Walk, Lstat, View, Separate;
    ghost var v := View(t, paths);
    var existed: set<Path> := {};
    var files: map<Path, SavedFile> := map[];
    var links: map<Path, Target> := map[];
    var dirs: map<Path, nat> := map[];
    for i := 0 to |paths|
      invariant existed == set m | m in paths[..i] && m in v
      invariant files == FilesOf(v, Region(paths[..i], v))
      invariant links == LinksOf(v, Region(paths[..i], v))
      invariant dirs == DirsOf(v, Region(paths[..i], v))
      invariant forall j :: 0 <= j < i ==> AcceptableAt(t, paths[j])
    {
      var m := paths[i];
      ghost var seen := Region(paths[..i], v);
      SeparateIsProper(paths, m);
      NextRegion(v, paths, i);
      ViewBelow(t, paths, m);
      WalkIsShown(t, m);
      match Lstat(t, m) {
        case Missing =>
          assert Region(paths[..i + 1], v) == seen;
        case Unreadable(_) =>
          assert !AcceptableAt(t, m);
          return Err;
        case Found(node) =>
          existed := existed + {m};
          if node.Link? {
            assert !AcceptableAt(t, m);
            return Err;
          }
          if node.File? {
            assert Region(paths[..i + 1], v) == seen + {m};
            AddSeen(v, seen, m);
            files := files[m := SavedFile(node.contents, node.mode)];
          } else {
            var ok, f, l, d := CaptureDirectory(t, v, m, files, links, dirs, seen);
            assert ok <==> AcceptableAt(t, m);
            if !ok { return Err; }
            files, links, dirs := f, l, d;
          }
      }
    }
    assert paths[..|paths|] == paths;
    r := Ok(Snapshot(paths, existed, files, links, dirs));
    if AllStraight(t, paths) {
      ViewIsRegion(t, paths);
      SameRegionBack(paths, t, v);
      SameRegionSameRecord(r.value, v, t);
    }
  }

  lemma SeparateIsProper(paths: seq<Path>, m: Path)
    requires Separate(paths) && m in paths
    ensures m != []
  {
  }

  lemma SameRegionBack(paths: seq<Path>, t: Tree, u: Tree)
    requires SameRegion(paths, t, u)
    ensures SameRegion(paths, u, t)
  {
  }

  method CaptureDirectory(
      t: Tree, ghost v: Tree, m: Path, files: map<Path, SavedFile>, links: map<Path, Target>, dirs: map<Path, nat>,
      ghost seen: set<Path>)
    returns (ok: bool, f: map<Path, SavedFile>, l: map<Path, Target>, d: map<Path, nat>)
    requires forall p :: p in Walk(t, m) ==> p in v && Lstat(t, p) == Found(v[p])
    requires files == FilesOf(v, seen) && links == LinksOf(v, seen) && dirs == DirsOf(v, seen)
    ensures ok <==> forall p :: p in Walk(t, m) && Lstat(t, p).Found? && Lstat(t, p).node.Link? ==> SERVICE <= p
    ensures ok ==>
      var all := seen + Walk(t, m);
      f == FilesOf(v, all) && l == LinksOf(v, all) && d == DirsOf(v, all)
  {
    hide Walk, Lstat;
    f, l, d := files, links, dirs;
    ok := true;
    ghost var all := seen + Walk(t, m);
    ghost var done := seen;
    var todo := Walk(t, m);
    while todo != {}
      invariant todo <= Walk(t, m) && done + todo == all
      invariant forall p :: p in Walk(t, m) - todo && Lstat(t, p).node.Link? ==> SERVICE <= p
      invariant f == FilesOf(v, done) && l == LinksOf(v, done) && d == DirsOf(v, done)
      decreases |todo|
    {
      var p :| p in todo;
      var entry := Lstat(t, p).node;
      AddSeen(v, done, p);
      if entry.Link? {
        if !(SERVICE <= p) { return false, f, l, d; }
        l := l[p := entry.target];
      } else if entry.Dir? {
        d := d[p := entry.mode];
      } else {
        f := f[p := SavedFile(entry.contents, entry.mode)];
      }
      todo := todo - {p};
      done := done + {p};
    }
    assert done == all;
  }

  lemma AddSeen(t: Tree, seen: set<Path>, p: Path)
    requires p in t
    ensures FilesOf(t, seen + {p}) ==
      if t[p].File? then FilesOf(t, seen)[p := SavedFile(t[p].contents, t[p].mode)] else FilesOf(t, seen)
    ensures LinksOf(t, seen + {p}) ==
      if t[p].Link? then LinksOf(t, seen)[p := t[p].target] else LinksOf(t, seen)
    ensures DirsOf(t, seen + {p}) ==
      if t[p].Dir? then DirsOf(t, seen)[p := t[p].mode] else DirsOf(t, seen)
  {
  }

  lemma NextRegion(t: Tree, paths: seq<Path>, i: nat)
    requires i < |paths|
    ensures Region(paths[..i + 1], t) == Region(paths[..i], t) + set p | p in t && paths[i] <= p
    ensures forall m :: m in paths[..i + 1] <==> m in paths[..i] || m == paths[i]
  {
    assert paths[..i + 1] == paths[..i] + [paths[i]];
    assert paths[i] in paths[..i + 1];
    forall p | p in t && Managed(paths[..i], p) ensures Managed(paths[..i + 1], p) {
      var m :| m in paths[..i] && m <= p;
      assert m in paths[..i + 1];
    }
  }

  // A managed path that is not a directory is all there is below itself.
  lemma LeafOnly(t: Tree, m: Path)
    requires Wf(t)
    ensures m !in t || !t[m].Dir? ==> forall p :: p in t && m <= p ==> p == m
  {
    forall p | p in t && m < p ensures m in t && t[m].Dir? { AncestorIsDir(t, m, p); }
  }

  // ---------------------------------------------------------------------
  // Coherence: what every snapshot of a well-formed tree satisfies
  // ---------------------------------------------------------------------

  ghost function Keys(s: Snapshot): set<Path> {
    s.files.Keys + s.links.Keys + s.dirs.Keys
  }

  ghost predicate Coherent(s: Snapshot) {
    && Separate(s.paths)
    && s.files.Keys !! s.links.Keys !! s.dirs.Keys
    && (forall k :: k in Keys(s) ==> Managed(s.paths, k))
    && (forall k, a :: k in Keys(s) && a < k && Managed(s.paths, a) ==> a in s.dirs)
    && (forall m :: m in s.existed <==> m in s.paths && m in Keys(s))
    && (forall k, m :: k in Keys(s) && m in s.paths && m <= k ==> m in s.existed)
  }

  lemma KeysAreTheRegion(s: Snapshot, t: Tree)
    requires Captures(s, t)
    ensures Keys(s) == Region(s.paths, t)
    ensures s.files.Keys !! s.links.Keys !! s.dirs.Keys
  {
    forall p | Managed(s.paths, p) ensures p in Keys(s) <==> p in t { RecordedOnce(s, t, p); }
  }

  lemma CapturesIsCoherent(s: Snapshot, t: Tree)
    requires RegionClosed(s.paths, t) && Separate(s.paths) && Captures(s, t)
    ensures Coherent(s)
  {
    KeysAreTheRegion(s, t);
    forall k, a | k in Keys(s) && a < k && Managed(s.paths, a) ensures a in s.dirs {
      RecordedOnce(s, t, a);
    }
    forall m | m in s.paths ensures Managed(s.paths, m) {}
    forall k, m | k in Keys(s) && m in s.paths && m <= k ensures m in s.existed {
      assert m == k || m < k;
    }
  }

  // No originally present managed path has a link above it.
  ghost predicate ExistedStraight(s: Snapshot, t: Tree) {
    forall m :: m in s.existed ==> Straight(t, m)
  }

  lemma AncestorIsUnmanaged(s: Snapshot, m: Path, a: Path)
    requires Separate(s.paths) && m in s.paths && a < m
    ensures !Managed(s.paths, a)
  {
    forall n | n in s.paths ensures !(n <= a) {
      assert n <= a ==> n <= m;
    }
  }

  // A proper ancestor of a recorded path is itself a recorded directory or
  // lies above an originally present managed path.
  lemma AboveKey(s: Snapshot, k: Path, a: Path)
    requires Coherent(s) && k in Keys(s) && a < k
    ensures a in s.dirs || (!Managed(s.paths, a) && exists m :: m in s.existed && a < m)
  {
    if !Managed(s.paths, a) {
      var m :| m in s.paths && m <= k;
      assert m in s.existed;
      hide Coherent, Keys;
      PrefixesAreNested(a, m, k);
    }
  }

  lemma PrefixesAreNested(a: Path, m: Path, k: Path)
    requires a < k && m <= k
    ensures m <= a || a < m
  {
    assert a == k[..|a|] && m == k[..|m|];
    assert if |m| <= |a| then m == a[..|m|] else a == m[..|a|];
  }
}
