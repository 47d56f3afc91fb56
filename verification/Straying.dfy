// Where a system call can reach when links lie on its way: it acts on the path
// it names, or on a place some link leads to. A place that no link leads to is
// out of reach.
module Straying {
  import opened FileTree

  // The place a link with this target leads to from its directory, before any
  // further link is crossed.
  function LeadsTo(target: Target, dir: Path): Path {
    (if target.absolute then [] else Climb(dir, target.ups)) + target.segments
  }

  // No link of t leads to q or to a directory above q.
  ghost predicate Unaimed(t: Tree, q: Path) {
    forall k :: k in t && k != [] && t[k].Link? ==> !(LeadsTo(t[k].target, Parent(k)) <= q)
  }

  // Nor would a link with this target, wherever it is placed.
  ghost predicate UnaimedAnywhere(target: Target, q: Path) {
    forall dir: Path :: !(LeadsTo(target, dir) <= q)
  }

  // u is t with some nodes gone.
  ghost predicate Shrunk(t: Tree, u: Tree) {
    forall p :: p in u ==> p in t && u[p] == t[p]
  }

  // Nothing changed at q, and still no link leads there.
  ghost predicate Steady(t: Tree, u: Tree, q: Path) {
    && (q in t <==> q in u)
    && (q in t ==> u[q] == t[q])
    && Unaimed(u, q)
  }

  // A resolution that ends at q or above it crossed no link.
  lemma {:induction false} LocateAvoids(t: Tree, at: Path, rest: Path, follow: bool, hops: nat, q: Path)
    requires Unaimed(t, q)
    ensures
      var r := Locate(t, at, rest, follow, hops);
      r.At? && r.path <= q ==> r.path == at + rest
    decreases hops, |rest|
  {
    if rest != [] {
      var next := at + [rest[0]];
      assert Parent(next) == at;
      assert at + rest == next + rest[1..];
      if next in t && t[next].Link? && (|rest| > 1 || follow) {
        if hops > 0 {
          var target := t[next].target;
          var base := if target.absolute then [] else Climb(at, target.ups);
          LocateAvoids(t, base, target.segments + rest[1..], follow, hops - 1, q);
          PassesThrough(target, at, rest[1..], q);
        }
      } else if |rest| > 1 && next in t && t[next].Dir? {
        LocateAvoids(t, next, rest[1..], follow, hops, q);
      }
    }
  }

  lemma PassesThrough(target: Target, dir: Path, rest: Path, q: Path)
    requires !(LeadsTo(target, dir) <= q)
    ensures
      var base := if target.absolute then [] else Climb(dir, target.ups);
      !(base + (target.segments + rest) <= q)
  {
    var base := if target.absolute then [] else Climb(dir, target.ups);
    assert base + (target.segments + rest) == LeadsTo(target, dir) + rest;
    assert LeadsTo(target, dir) <= LeadsTo(target, dir) + rest;
  }

  lemma HereAvoids(t: Tree, p: Path, q: Path)
    requires Unaimed(t, q)
    ensures Here(t, p).At? && Here(t, p).path <= q ==> Here(t, p).path == p
    ensures There(t, p).At? && There(t, p).path <= q ==> There(t, p).path == p
  {
    LocateAvoids(t, [], p, false, MAX_LINKS, q);
    LocateAvoids(t, [], p, true, MAX_LINKS, q);
    assert [] + p == p;
  }

  // What a name resolves to in a shrunken tree, it resolved to before.
  lemma {:induction false} LocateShrinks(t: Tree, u: Tree, at: Path, rest: Path, hops: nat)
    requires Shrunk(t, u)
    ensures
      var r := Locate(u, at, rest, false, hops);
      r.At? && r.path in u ==> Locate(t, at, rest, false, hops) == r
    decreases hops, |rest|
  {
    if rest != [] {
      var next := at + [rest[0]];
      if next in u && t[next].Link? && |rest| > 1 {
        if hops > 0 {
          var target := t[next].target;
          LocateShrinks(t, u, if target.absolute then [] else Climb(at, target.ups), target.segments + rest[1..],
              hops - 1);
        }
      } else if |rest| > 1 && next in u && u[next].Dir? {
        LocateShrinks(t, u, next, rest[1..], hops);
      }
    }
  }

  // A name that shows nothing shows nothing in a shrunken tree.
  lemma MissingStaysMissing(t: Tree, u: Tree, p: Path)
    requires Shrunk(t, u)
    ensures Lstat(u, p).Found? ==> Lstat(u, p) == Lstat(t, p)
  {
    LocateShrinks(t, u, [], p, MAX_LINKS);
  }

  // Without following its last segment, a proper path never resolves to the root.
  lemma {:induction false} LocateIsProper(t: Tree, at: Path, rest: Path, hops: nat)
    requires rest != []
    ensures Locate(t, at, rest, false, hops) != At([])
    decreases hops, |rest|
  {
    var next := at + [rest[0]];
    if |rest| > 1 {
      if next in t && t[next].Link? {
        if hops > 0 {
          var target := t[next].target;
          LocateIsProper(t, if target.absolute then [] else Climb(at, target.ups), target.segments + rest[1..],
              hops - 1);
        }
      } else {
        LocateIsProper(t, next, rest[1..], hops);
      }
    }
  }

  // ---------------------------------------------------------------------
  // Each call: the tree stays well formed, and q is out of reach
  // ---------------------------------------------------------------------

  lemma RemoveAllSpares(t: Tree, p: Path, q: Path)
    requires Wf(t) && Unaimed(t, q) && !(p <= q)
    ensures Steady(t, RemoveAll(t, p).tree, q)
  {
    HereAvoids(t, p, q);
  }

  lemma RemoveAllShrinks(t: Tree, p: Path)
    requires Wf(t) && p != []
    ensures Wf(RemoveAll(t, p).tree) && Shrunk(t, RemoveAll(t, p).tree)
    ensures !Lstat(RemoveAll(t, p).tree, p).Found?
  {
    LocateIsProper(t, [], p, MAX_LINKS);
    var u := RemoveAll(t, p).tree;
    if Here(t, p).At? { WithoutWf(t, Here(t, p).path); }
    MissingStaysMissing(t, u, p);
    LocateShrinks(t, u, [], p, MAX_LINKS);
  }

  lemma RemoveSpares(t: Tree, p: Path, q: Path)
    requires Wf(t) && Unaimed(t, q) && p != q
    ensures Steady(t, Remove(t, p).tree, q)
  {
    hide Here, Wf;
    HereAvoids(t, p, q);
  }

  lemma RemoveShrinks(t: Tree, p: Path)
    requires Wf(t)
    ensures Wf(Remove(t, p).tree) && Shrunk(t, Remove(t, p).tree)
  {
    hide Here;
    var r := Here(t, p);
    if r.At? && r.path in t && r.path != [] && !HasChildren(t, r.path) {
      var x := r.path;
      forall c, n: nat | c in t - {x} && n < |c| ensures c[..n] in t - {x} && t[c[..n]].Dir? {
        assert !(x < c);
        assert c[..n] < c;
      }
    }
  }

  lemma MakeOneSpares(t: Tree, p: Path, q: Path)
    requires Wf(t) && Unaimed(t, q) && Here(t, p).At? && Here(t, p).path !in t
    ensures
      var u := t[Here(t, p).path := Dir(NEW_DIRECTORY_MODE)];
      && Unaimed(u, q)
      && (q in t ==> q in u && u[q] == t[q])
      && (q in u && q !in t ==> q == p && u[q] == Dir(NEW_DIRECTORY_MODE))
  {
    hide Here, Wf;
    HereAvoids(t, p, q);
  }

  lemma {:induction false} MkdirAllSpares(t: Tree, p: Path, q: Path)
    requires Wf(t) && Unaimed(t, q)
    ensures
      var u := MkdirAll(t, p).tree;
      && Wf(u) && Unaimed(u, q)
      && (q in t ==> q in u && u[q] == t[q])
      && (q in u && q !in t ==> q <= p && u[q] == Dir(NEW_DIRECTORY_MODE))
    decreases |p|
  {
    hide Here, There, Wf, Unaimed, KindsKept;
    MkdirAllKeepsKinds(t, p);
    if !Stat(t, p).Found? && p != [] {
      MkdirAllSpares(t, Parent(p), q);
      MkdirAllKeepsKinds(t, Parent(p));
      var above := MkdirAll(t, Parent(p)).tree;
      assert Parent(p) <= p;
      if Here(above, p).At? && Here(above, p).path !in above { MakeOneSpares(above, p, q); }
    }
  }

  lemma WriteFileSpares(t: Tree, p: Path, contents: Bytes, mode: nat, q: Path)
    requires Wf(t) && Unaimed(t, q) && (p == q ==> q in t && t[q].Link?)
    ensures Steady(t, WriteFile(t, p, contents, mode).tree, q)
  {
    LocateLands(t, [], p, true, MAX_LINKS);
    hide Locate, Wf;
    HereAvoids(t, p, q);
  }

  lemma ChmodSpares(t: Tree, p: Path, mode: nat, q: Path)
    requires Wf(t) && Unaimed(t, q) && (p == q ==> q in t && t[q].Link?)
    ensures Steady(t, Chmod(t, p, mode).tree, q)
  {
    LocateLands(t, [], p, true, MAX_LINKS);
    hide Locate, Wf;
    HereAvoids(t, p, q);
  }

  lemma SymlinkSpares(t: Tree, target: Target, p: Path, q: Path)
    requires Wf(t) && Unaimed(t, q) && UnaimedAnywhere(target, q) && p != q
    ensures Steady(t, Symlink(t, target, p).tree, q)
  {
    HereAvoids(t, p, q);
  }

  lemma SymlinkKeepsWf(t: Tree, target: Target, p: Path)
    requires Wf(t)
    ensures Wf(Symlink(t, target, p).tree)
  {
    LocateLands(t, [], p, false, MAX_LINKS);
    var r := Here(t, p);
    if r.At? && r.path !in t {
      AddLeafWf(t, r.path, Link(target));
    }
  }
}
