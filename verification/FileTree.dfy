// The file system a generator works on: a finite map from paths to nodes,
// path resolution with symbolic links, and the system calls used by the
// generators. Every call is a total function from a tree to a tree and an
// optional error number.
module FileTree {
  type Bytes = string
  type Name = string
  type Path = seq<Name>

  // A link target in cleaned form: it starts at the root or at the directory
  // of the link, climbs `ups` directories and descends through `segments`.
  datatype Target = Target(absolute: bool, ups: nat, segments: Path)

  datatype Node =
    | File(contents: Bytes, mode: nat)
    | Dir(mode: nat)
    | Link(target: Target)

  type Tree = map<Path, Node>

  datatype Errno = ENOENT | ENOTDIR | EISDIR | ENOTEMPTY | EEXIST | EBUSY | ELOOP

  datatype Outcome = Outcome(tree: Tree, error: Option<Errno>)

  datatype Option<+T> = None | Some(value: T)

  // How many links one resolution may cross before it fails with ELOOP.
  const MAX_LINKS: nat := 40

  // 0o755, the mode of directories that are created on the way to a file.
  const NEW_DIRECTORY_MODE: nat := 0x1ED

  ghost predicate Wf(t: Tree) {
    && [] in t && t[[]].Dir?
    && (forall p, n: nat :: p in t && n < |p| ==> p[..n] in t && t[p[..n]].Dir?)
  }

  function Parent(p: Path): Path
    requires p != []
  {
    p[..|p| - 1]
  }

  // ---------------------------------------------------------------------
  // Path resolution
  // ---------------------------------------------------------------------

  datatype Located = At(path: Path) | Failed(errno: Errno)

  function Climb(at: Path, ups: nat): Path {
    if ups >= |at| then [] else at[..|at| - ups]
  }

  // Resolves `rest` starting from the directory `at`. A link in the last
  // position is crossed only when `follow` holds.
  function Locate(t: Tree, at: Path, rest: Path, follow: bool, hops: nat): Located
    decreases hops, |rest|
  {
    if rest == [] then At(at)
    else
      var next := at + [rest[0]];
      if next in t && t[next].Link? && (|rest| > 1 || follow) then
        if hops == 0 then Failed(ELOOP)
        else
          var target := t[next].target;
          Locate(t, if target.absolute then [] else Climb(at, target.ups), target.segments + rest[1..], follow,
              hops - 1)
      else if |rest| == 1 then At(next)
      else if next !in t then Failed(ENOENT)
      else if !t[next].Dir? then Failed(ENOTDIR)
      else Locate(t, next, rest[1..], follow, hops)
  }

  function Here(t: Tree, p: Path): Located {
    Locate(t, [], p, false, MAX_LINKS)
  }

  function There(t: Tree, p: Path): Located {
    Locate(t, [], p, true, MAX_LINKS)
  }

  // No proper ancestor of p is a link in t.
  ghost predicate Straight(t: Tree, p: Path) {
    forall a :: a in t && a < p ==> !t[a].Link?
  }

  // Some proper ancestor of p is a regular file, so no call can reach p.
  ghost predicate Blocked(t: Tree, p: Path) {
    exists a :: a in t && a < p && t[a].File?
  }

  // Every proper ancestor of p is a directory.
  ghost predicate Reachable(t: Tree, p: Path) {
    forall n: nat :: n < |p| ==> p[..n] in t && t[p[..n]].Dir?
  }

  // ---------------------------------------------------------------------
  // System calls
  // ---------------------------------------------------------------------

  datatype Info = Missing | Unreadable(errno: Errno) | Found(node: Node)

  function Lstat(t: Tree, p: Path): Info {
    match Here(t, p)
    case Failed(e) => if e == ENOENT then Missing else Unreadable(e)
    case At(q) => if q in t then Found(t[q]) else Missing
  }

  function Stat(t: Tree, p: Path): Info {
    match There(t, p)
    case Failed(e) => if e == ENOENT then Missing else Unreadable(e)
    case At(q) => if q in t then Found(t[q]) else Missing
  }

  function Without(t: Tree, top: Path): Tree {
    map p | p in t && !(top <= p) :: t[p]
  }

  predicate HasChildren(t: Tree, p: Path) {
    exists c :: c in t && p < c
  }

  function Remove(t: Tree, p: Path): Outcome {
    match Here(t, p)
    case Failed(e) => Outcome(t, Some(e))
    case At(q) =>
      if q !in t then Outcome(t, Some(ENOENT))
      else if q == [] then Outcome(t, Some(EBUSY))
      else if HasChildren(t, q) then Outcome(t, Some(ENOTEMPTY))
      else Outcome(t - {q}, None)
  }

  // A missing path is not an error for RemoveAll.
  function RemoveAll(t: Tree, p: Path): Outcome {
    match Here(t, p)
    case Failed(e) => Outcome(t, if e == ENOENT then None else Some(e))
    case At(q) =>
      if q == [] then Outcome(t, Some(EBUSY))
      else Outcome(Without(t, q), None)
  }

  function MkdirAll(t: Tree, p: Path): Outcome
    decreases |p|
  {
    match Stat(t, p)
    case Found(node) => Outcome(t, if node.Dir? then None else Some(ENOTDIR))
    case _ =>
      if p == [] then Outcome(t, Some(ENOENT))
      else
        var above := MkdirAll(t, Parent(p));
        if above.error.Some? then above
        else
          match Here(above.tree, p)
          case Failed(e) => Outcome(above.tree, Some(e))
          case At(q) =>
            if q in above.tree then Outcome(above.tree, Some(EEXIST))
            else Outcome(above.tree[q := Dir(NEW_DIRECTORY_MODE)], None)
  }

  // An existing file keeps its mode; a new one is created with `mode`.
  function WriteFile(t: Tree, p: Path, contents: Bytes, mode: nat): Outcome {
    match There(t, p)
    case Failed(e) => Outcome(t, Some(e))
    case At(q) =>
      if q in t && t[q].File? then Outcome(t[q := t[q].(contents := contents)], None)
      else if q in t then Outcome(t, Some(EISDIR))
      else Outcome(t[q := File(contents, mode)], None)
  }

  function Chmod(t: Tree, p: Path, mode: nat): Outcome {
    match There(t, p)
    case Failed(e) => Outcome(t, Some(e))
    case At(q) =>
      if q !in t then Outcome(t, Some(ENOENT))
      else if t[q].File? then Outcome(t[q := t[q].(mode := mode)], None)
      else if t[q].Dir? then Outcome(t[q := t[q].(mode := mode)], None)
      else Outcome(t, Some(ELOOP))
  }

  function Symlink(t: Tree, target: Target, p: Path): Outcome {
    match Here(t, p)
    case Failed(e) => Outcome(t, Some(e))
    case At(q) =>
      if q in t then Outcome(t, Some(EEXIST))
      else Outcome(t[q := Link(target)], None)
  }

  // The entries a directory walk visits, the starting path included. A walk
  // does not cross a link, not even at its starting path.
  function Walk(t: Tree, p: Path): set<Path> {
    match Here(t, p)
    case Failed(_) => {}
    case At(q) => if q !in t then {} else set x | x in t && q <= x :: p + x[|q|..]
  }

  // ---------------------------------------------------------------------
  // Facts about trees
  // ---------------------------------------------------------------------

  lemma AncestorIsDir(t: Tree, a: Path, p: Path)
    requires Wf(t) && p in t && a < p
    ensures a in t && t[a].Dir?
  {
    assert a == p[..|a|];
  }

  lemma AncestorsAreDirs(t: Tree, p: Path)
    requires Wf(t) && p in t
    ensures Reachable(t, p)
    ensures forall a :: a in t && a < p ==> t[a].Dir?
  {
    forall a | a in t && a < p ensures t[a].Dir? { AncestorIsDir(t, a, p); }
  }

  lemma ClimbsToDir(t: Tree, at: Path, ups: nat)
    requires Wf(t) && at in t && t[at].Dir?
    ensures Climb(at, ups) in t && t[Climb(at, ups)].Dir?
  {
    assert at[..|at|] == at;
  }

  lemma ReachableThrough(t: Tree, at: Path, p: Path)
    requires Wf(t) && at in t && t[at].Dir? && p != [] && Parent(p) == at
    ensures Reachable(t, p) && !Blocked(t, p)
  {
    forall n: nat | n < |p| ensures p[..n] in t && t[p[..n]].Dir? {
      if n < |at| { assert p[..n] == at[..n]; } else { assert p[..n] == at; }
    }
    ReachableIsNotBlocked(t, p);
  }

  lemma ReachableIsNotBlocked(t: Tree, p: Path)
    requires Reachable(t, p)
    ensures !Blocked(t, p)
    ensures forall a :: a in t && a < p ==> t[a].Dir?
  {
    forall a | a in t && a < p ensures t[a].Dir? { assert a == p[..|a|]; }
  }

  // Resolution lands on a path whose parent is a directory, and when links
  // are followed it never lands on a link.
  lemma {:induction false} LocateLands(t: Tree, at: Path, rest: Path, follow: bool, hops: nat)
    requires Wf(t) && at in t && t[at].Dir?
    ensures
      var r := Locate(t, at, rest, follow, hops);
      r.At? ==>
        && Reachable(t, r.path)
        && (follow && r.path in t ==> !t[r.path].Link?)
        && (r.path == [] ==> r.path in t)
    decreases hops, |rest|
  {
    if rest == [] {
    } else {
      var next := at + [rest[0]];
      assert Parent(next) == at;
      ReachableThrough(t, at, next);
      if next in t && t[next].Link? && (|rest| > 1 || follow) {
        if hops > 0 {
          var target := t[next].target;
          ClimbsToDir(t, at, target.ups);
          LocateLands(t, if target.absolute then [] else Climb(at, target.ups), target.segments + rest[1..], follow,
              hops - 1);
        }
      } else if |rest| > 1 && next in t && t[next].Dir? {
        LocateLands(t, next, rest[1..], follow, hops);
      }
    }
  }

  // A path whose ancestors are all directories resolves to itself, provided
  // its last segment is not a link that has to be crossed.
  lemma {:induction false} LocateReachable(t: Tree, at: Path, rest: Path, follow: bool, hops: nat)
    requires Reachable(t, at + rest)
    requires follow ==> at + rest !in t || !t[at + rest].Link?
    ensures Locate(t, at, rest, follow, hops) == At(at + rest)
    decreases |rest|
  {
    var p := at + rest;
    if rest == [] {
      assert p == at;
    } else {
      var next := at + [rest[0]];
      assert p[|at|] == rest[0];
      assert next == p[..|at| + 1];
      if |rest| > 1 {
        assert p == next + rest[1..];
        LocateReachable(t, next, rest[1..], follow, hops);
      } else {
        assert next == p;
      }
    }
  }

  // The first ancestor that is missing or a regular file stops resolution.
  lemma {:induction false} LocateStops(t: Tree, at: Path, rest: Path, follow: bool, hops: nat, n: nat)
    requires |at| < n < |at + rest|
    requires forall k: nat :: k < n ==> (at + rest)[..k] in t && t[(at + rest)[..k]].Dir?
    requires (at + rest)[..n] !in t || t[(at + rest)[..n]].File?
    ensures Locate(t, at, rest, follow, hops) == Failed(if (at + rest)[..n] in t then ENOTDIR else ENOENT)
    decreases |rest|
  {
    var p := at + rest;
    var next := at + [rest[0]];
    assert p[|at|] == rest[0];
    assert next == p[..|at| + 1];
    assert p == next + rest[1..];
    if |at| + 1 < n {
      LocateStops(t, next, rest[1..], follow, hops, n);
    }
  }

  lemma {:induction false} FirstObstacle(t: Tree, p: Path, m: nat) returns (n: nat)
    requires Wf(t) && m < |p| && (p[..m] !in t || !t[p[..m]].Dir?)
    ensures 0 < n <= m && (p[..n] !in t || !t[p[..n]].Dir?)
    ensures forall k: nat :: k < n ==> p[..k] in t && t[p[..k]].Dir?
    decreases m
  {
    if k: nat :| k < m && (p[..k] !in t || !t[p[..k]].Dir?) {
      n := FirstObstacle(t, p, k);
    } else {
      n := m;
      assert p[..0] == [];
    }
  }

  lemma NothingBelow(t: Tree, a: Path, p: Path)
    requires Wf(t) && a < p && (a !in t || !t[a].Dir?)
    ensures forall q :: q in t ==> !(p <= q)
  {
    forall q | q in t ensures !(p <= q) {
      if p <= q {
        assert a < q;
        AncestorIsDir(t, a, q);
      }
    }
  }

  lemma HereStopped(t: Tree, p: Path, n: nat)
    requires Wf(t) && Straight(t, p) && n < |p|
    requires forall k: nat :: k < n ==> p[..k] in t && t[p[..k]].Dir?
    requires p[..n] !in t || !t[p[..n]].Dir?
    ensures Here(t, p) == if Blocked(t, p) then Failed(ENOTDIR) else Failed(ENOENT)
  {
    assert [] + p == p;
    assert p[..0] == [];
    var stop := p[..n];
    assert stop < p;
    LocateStops(t, [], p, false, MAX_LINKS, n);
    if stop !in t {
      forall a | a in t && a < p ensures !t[a].File? {
        AncestorsAreDirs(t, a);
        assert a == p[..|a|];
        assert n <= |a| ==> stop <= a;
        assert forall k: nat :: k <= |a| ==> a[..k] == p[..k];
        assert |a| < n;
      }
    }
  }

  // Without links above it, a path resolves to itself exactly when all its
  // ancestors are directories; a regular file above it gives ENOTDIR.
  lemma HereStraight(t: Tree, p: Path)
    requires Wf(t) && Straight(t, p)
    ensures Here(t, p) ==
      if Reachable(t, p) then At(p) else if Blocked(t, p) then Failed(ENOTDIR) else Failed(ENOENT)
    ensures p in t ==> Reachable(t, p)
    ensures Reachable(t, p) ==> !Blocked(t, p)
    ensures !Reachable(t, p) ==> forall q :: q in t ==> !(p <= q)
  {
    assert [] + p == p;
    if p in t { AncestorsAreDirs(t, p); }
    if Reachable(t, p) {
      ReachableIsNotBlocked(t, p);
      LocateReachable(t, [], p, false, MAX_LINKS);
    } else {
      var m: nat :| m < |p| && (p[..m] !in t || !t[p[..m]].Dir?);
      var n := FirstObstacle(t, p, m);
      HereStopped(t, p, n);
      NothingBelow(t, p[..n], p);
    }
  }

  lemma ThereStraight(t: Tree, p: Path)
    requires Wf(t) && Straight(t, p) && (p in t ==> !t[p].Link?)
    ensures There(t, p) == Here(t, p)
  {
    assert [] + p == p;
    SameWhenStraight(t, [], p, MAX_LINKS);
  }

  lemma {:induction false} SameWhenStraight(t: Tree, at: Path, rest: Path, hops: nat)
    requires Straight(t, at + rest) && (at + rest in t ==> !t[at + rest].Link?)
    ensures Locate(t, at, rest, true, hops) == Locate(t, at, rest, false, hops)
    decreases |rest|
  {
    if rest != [] {
      var next := at + [rest[0]];
      assert (at + rest)[|at|] == rest[0];
      if |rest| == 1 {
        assert next == at + rest;
      } else {
        assert next < at + rest;
        assert at + rest == next + rest[1..];
        SameWhenStraight(t, next, rest[1..], hops);
      }
    }
  }

  // ---------------------------------------------------------------------
  // What each call does to a path that no link leads away
  // ---------------------------------------------------------------------

  lemma LstatStraight(t: Tree, p: Path)
    requires Wf(t) && Straight(t, p)
    ensures Lstat(t, p) == if p in t then Found(t[p]) else if Blocked(t, p) then Unreadable(ENOTDIR) else Missing
    ensures p in t ==> !Blocked(t, p)
  {
    HereStraight(t, p);
  }

  lemma RemoveAllStraight(t: Tree, p: Path)
    requires Wf(t) && Straight(t, p) && p != []
    ensures RemoveAll(t, p) == Outcome(Without(t, p), if Blocked(t, p) then Some(ENOTDIR) else None)
    ensures Wf(Without(t, p))
  {
    HereStraight(t, p);
    if !Reachable(t, p) { assert Without(t, p) == t; }
    WithoutWf(t, p);
  }

  lemma WithoutWf(t: Tree, p: Path)
    requires Wf(t) && p != []
    ensures Wf(Without(t, p))
  {
    forall q | q in Without(t, p) && q != []
      ensures Parent(q) in Without(t, p)
    {
      assert p <= Parent(q) ==> p <= q;
    }
  }

  lemma RemoveStraight(t: Tree, p: Path)
    requires Wf(t) && p in t && p != [] && (forall c :: c in t ==> !(p < c))
    ensures Remove(t, p) == Outcome(t - {p}, None)
    ensures Wf(t - {p})
  {
    AncestorsAreDirs(t, p);
    HereStraight(t, p);
    forall q | q in t - {p} && q != [] ensures Parent(q) in t - {p} {
      assert Parent(q) == p ==> p < q;
    }
  }

  lemma {:induction false} LeafHasNoChildren(t: Tree, p: Path)
    requires Wf(t) && p in t && !t[p].Dir?
    ensures forall c :: c in t ==> !(p < c)
  {
    forall c | c in t ensures !(p < c) {
      if p < c { AncestorIsDir(t, p, c); }
    }
  }

  lemma WalkStraight(t: Tree, p: Path)
    requires Wf(t) && Straight(t, p)
    ensures Walk(t, p) == set x | x in t && p <= x
  {
    HereStraight(t, p);
    if Here(t, p) == At(p) {
      forall x | x in t && p <= x ensures p + x[|p|..] == x {}
      if p !in t {
        forall x | x in t ensures !(p <= x) {
          if p <= x && p != x { AncestorIsDir(t, p, x); }
        }
      }
    }
  }

  // u is t with the missing prefixes of p added as new directories.
  ghost predicate AddsDirectories(t: Tree, u: Tree, p: Path) {
    && (forall q :: q in t ==> q in u && u[q] == t[q])
    && (forall q :: q in u && q !in t ==> q <= p && u[q] == Dir(NEW_DIRECTORY_MODE))
    && p in u && u[p].Dir?
  }

  lemma {:induction false} MkdirAllStraight(t: Tree, p: Path)
    requires Wf(t) && Straight(t, p) && !Blocked(t, p) && (p in t ==> t[p].Dir?)
    ensures MkdirAll(t, p).error == None
    ensures Wf(MkdirAll(t, p).tree) && AddsDirectories(t, MkdirAll(t, p).tree, p)
    decreases |p|
  {
    HereStraight(t, p);
    ThereStraight(t, p);
    if p !in t {
      var up := Parent(p);
      assert up < p;
      forall a | a in t && a < up ensures !t[a].Link? && !t[a].File? { assert a < p; }
      MkdirAllStraight(t, up);
      var above := MkdirAll(t, up).tree;
      ReachableThrough(above, up, p);
      ReachableIsStraight(above, p);
      HereStraight(above, p);
      AddLeafWf(above, p, Dir(NEW_DIRECTORY_MODE));
    }
  }

  lemma {:induction false} MkdirAllBlocked(t: Tree, p: Path)
    requires Wf(t) && Straight(t, p) && Blocked(t, p)
    ensures MkdirAll(t, p) == Outcome(t, Some(ENOTDIR))
    decreases |p|
  {
    HereStraight(t, p);
    ThereStraight(t, p);
    var file :| file in t && file < p && t[file].File?;
    var up := Parent(p);
    assert file <= up;
    forall a | a in t && a < up ensures !t[a].Link? { assert a < p; }
    if file == up {
      AncestorsAreDirs(t, up);
      ReachableIsStraight(t, up);
      HereStraight(t, up);
      ThereStraight(t, up);
    } else {
      MkdirAllBlocked(t, up);
    }
  }

  lemma WriteFileStraight(t: Tree, p: Path, contents: Bytes, mode: nat)
    requires Wf(t) && p != [] && Reachable(t, p) && (p in t ==> t[p].File?)
    ensures WriteFile(t, p, contents, mode) ==
      Outcome(t[p := File(contents, if p in t then t[p].mode else mode)], None)
    ensures Wf(WriteFile(t, p, contents, mode).tree)
  {
    ReachableIsStraight(t, p);
    HereStraight(t, p);
    ThereStraight(t, p);
    AddLeafWf(t, p, File(contents, if p in t then t[p].mode else mode));
  }

  lemma ReachableIsStraight(t: Tree, p: Path)
    requires Reachable(t, p)
    ensures Straight(t, p) && !Blocked(t, p)
  {
    ReachableIsNotBlocked(t, p);
  }

  lemma AddLeafWf(t: Tree, p: Path, node: Node)
    requires Wf(t) && p != [] && Reachable(t, p) && (p in t ==> !t[p].Dir? || node.Dir?)
    ensures Wf(t[p := node])
  {
    assert Parent(p) == p[..|p| - 1];
    forall q | q in t[p := node] && q != [] ensures Parent(q) in t[p := node] && t[p := node][Parent(q)].Dir? {
      if q != p && Parent(q) == p { assert t[p].Dir?; }
    }
  }

  lemma ChmodStraight(t: Tree, p: Path, mode: nat)
    requires Wf(t) && p in t && !t[p].Link?
    ensures Chmod(t, p, mode) ==
      Outcome(t[p := if t[p].File? then File(t[p].contents, mode) else Dir(mode)], None)
    ensures Wf(Chmod(t, p, mode).tree)
  {
    AncestorsAreDirs(t, p);
    HereStraight(t, p);
    ThereStraight(t, p);
  }

  lemma SymlinkStraight(t: Tree, target: Target, p: Path)
    requires Wf(t) && p != [] && Reachable(t, p) && p !in t
    ensures Symlink(t, target, p) == Outcome(t[p := Link(target)], None)
    ensures Wf(t[p := Link(target)])
  {
    ReachableIsStraight(t, p);
    HereStraight(t, p);
    AddLeafWf(t, p, Link(target));
  }

  // ---------------------------------------------------------------------
  // What holds for every path, whatever links lead away
  // ---------------------------------------------------------------------

  // Nodes keep their kind and link targets, and no link appears.
  ghost predicate KindsKept(t: Tree, u: Tree) {
    && (forall p :: p in t ==> p in u)
    && (forall p :: p in t ==>
          && (t[p].File? ==> u[p].File?)
          && (t[p].Dir? ==> u[p].Dir?)
          && (t[p].Link? ==> u[p] == t[p]))
    && (forall p :: p in u && p !in t ==> !u[p].Link?)
  }

  lemma KindsKeptTransitive(t: Tree, u: Tree, v: Tree)
    requires KindsKept(t, u) && KindsKept(u, v)
    ensures KindsKept(t, v)
  {
    forall p | p in v && p !in t ensures !v[p].Link? {
      if p in u { assert !u[p].Link?; }
    }
  }

  lemma WriteFileKeepsKinds(t: Tree, p: Path, contents: Bytes, mode: nat)
    requires Wf(t)
    ensures KindsKept(t, WriteFile(t, p, contents, mode).tree) && Wf(WriteFile(t, p, contents, mode).tree)
  {
    LocateLands(t, [], p, true, MAX_LINKS);
    var r := There(t, p);
    if r.At? && r.path != [] && (r.path in t ==> t[r.path].File?) {
      ReachableThrough(t, Parent(r.path), r.path);
      AddLeafWf(t, r.path, File(contents, if r.path in t then t[r.path].mode else mode));
    }
  }

  lemma ChmodKeepsKinds(t: Tree, p: Path, mode: nat)
    requires Wf(t)
    ensures KindsKept(t, Chmod(t, p, mode).tree) && Wf(Chmod(t, p, mode).tree)
  {
  }

  lemma {:induction false} MkdirAllKeepsKinds(t: Tree, p: Path)
    requires Wf(t)
    ensures KindsKept(t, MkdirAll(t, p).tree) && Wf(MkdirAll(t, p).tree)
    decreases |p|
  {
    if !Stat(t, p).Found? && p != [] {
      MkdirAllKeepsKinds(t, Parent(p));
      var above := MkdirAll(t, Parent(p));
      if above.error.None? {
        LocateLands(above.tree, [], p, false, MAX_LINKS);
        var r := Here(above.tree, p);
        if r.At? && r.path !in above.tree {
          ReachableThrough(above.tree, Parent(r.path), r.path);
          AddLeafWf(above.tree, r.path, Dir(NEW_DIRECTORY_MODE));
        }
      }
    }
  }
}
