// What a restore cannot touch: places outside the managed region, and links at
// the paths of recorded files, when no link leads to them or above them. The
// restore may work through links that stand above managed paths; it does not
// reach these places.
module Shelter {
  import opened FileTree
  import opened Snapshots
  import opened Straying

  // A link stands where a file was recorded.
  ghost predicate LinkForFile(s: Snapshot, t: Tree, q: Path) {
    q in s.files && q in t && t[q].Link?
  }

  ghost predicate Watched(s: Snapshot, t: Tree, q: Path) {
    (!Managed(s.paths, q) || LinkForFile(s, t, q)) && Unaimed(t, q)
  }

  // The node at q stays; where there was none, at most a new directory above
  // an originally present managed path appears.
  ghost predicate Spares(s: Snapshot, t: Tree, u: Tree, q: Path) {
    && (q in t ==> q in u && u[q] == t[q])
    && (q in u && q !in t ==> u[q] == Dir(NEW_DIRECTORY_MODE) && exists m :: m in s.existed && q < m)
  }

  ghost predicate Shelters(s: Snapshot, t: Tree, u: Tree) {
    forall q :: Watched(s, t, q) ==> Spares(s, t, u, q) && Unaimed(u, q)
  }

  lemma SheltersReflexive(s: Snapshot, t: Tree)
    ensures Shelters(s, t, t)
  {
  }

  lemma SheltersTransitive(s: Snapshot, t: Tree, u: Tree, v: Tree)
    requires Shelters(s, t, u) && Shelters(s, u, v)
    ensures Shelters(s, t, v)
  {
    forall q | Watched(s, t, q) ensures Spares(s, t, v, q) && Unaimed(v, q) {
      assert Watched(s, u, q);
    }
  }

  lemma SteadySpares(s: Snapshot, t: Tree, u: Tree, q: Path)
    requires Steady(t, u, q)
    ensures Spares(s, t, u, q) && Unaimed(u, q)
  {
  }

  // ---------------------------------------------------------------------
  // The calls of a restore
  // ---------------------------------------------------------------------

  lemma RemoveAbsentShelters(s: Snapshot, t: Tree, m: Path)
    requires Coherent(s) && Wf(t) && m in s.paths && m !in s.existed
    ensures Shelters(s, t, RemoveAll(t, m).tree)
  {
    hide Wf, RemoveAll, Unaimed, Steady, Spares;
    forall q | Watched(s, t, q) ensures Spares(s, t, RemoveAll(t, m).tree, q) && Unaimed(RemoveAll(t, m).tree, q) {
      assert q in s.files ==> q in Keys(s);
      assert !(m <= q);
      RemoveAllSpares(t, m, q);
      SteadySpares(s, t, RemoveAll(t, m).tree, q);
    }
  }

  lemma RemoveAllLinkShelters(s: Snapshot, t: Tree, l: Path)
    requires Coherent(s) && Wf(t) && l in s.links
    ensures Shelters(s, t, RemoveAll(t, l).tree)
  {
    hide Wf, RemoveAll, Unaimed, Steady, Spares;
    forall q | Watched(s, t, q) ensures Spares(s, t, RemoveAll(t, l).tree, q) && Unaimed(RemoveAll(t, l).tree, q) {
      LinkIsNotAbove(s, l, q);
      RemoveAllSpares(t, l, q);
      SteadySpares(s, t, RemoveAll(t, l).tree, q);
    }
  }

  lemma LinkIsNotAbove(s: Snapshot, l: Path, q: Path)
    requires Coherent(s) && l in s.links && (!Managed(s.paths, q) || q in s.files)
    ensures !(l <= q)
  {
    LinkIsManaged(s, l);
    if q in s.files { LinkIsNotAboveFile(s, l, q); }
    hide Coherent;
    assert l <= q ==> Managed(s.paths, q) by {
      var m :| m in s.paths && m <= l;
      assert l <= q ==> m <= q;
    }
  }

  lemma LinkIsManaged(s: Snapshot, l: Path)
    requires Coherent(s) && l in s.links
    ensures Managed(s.paths, l)
  {
    assert l in Keys(s);
  }

  lemma LinkIsNotAboveFile(s: Snapshot, l: Path, f: Path)
    requires Coherent(s) && l in s.links && f in s.files
    ensures !(l <= f)
  {
    LinkIsManaged(s, l);
    assert f in Keys(s);
    assert l != f;
    assert l < f ==> l in s.dirs;
  }

  // A removal at a managed name.
  lemma RemoveShelters(s: Snapshot, t: Tree, p: Path)
    requires Wf(t) && Managed(s.paths, p) && !LinkForFile(s, t, p)
    ensures Shelters(s, t, Remove(t, p).tree)
  {
    hide Wf, Remove, Unaimed, Steady, Spares;
    forall q | Watched(s, t, q) ensures Spares(s, t, Remove(t, p).tree, q) && Unaimed(Remove(t, p).tree, q) {
      RemoveSpares(t, p, q);
      SteadySpares(s, t, Remove(t, p).tree, q);
    }
  }

  // Making a recorded directory, or the parent of a recorded path.
  lemma MkdirShelters(s: Snapshot, t: Tree, k: Path, p: Path)
    requires Coherent(s) && Wf(t) && k in Keys(s) && p <= k
    ensures Shelters(s, t, MkdirAll(t, p).tree)
  {
    hide Wf, MkdirAll, Unaimed, Coherent;
    forall q | Watched(s, t, q) ensures Spares(s, t, MkdirAll(t, p).tree, q) && Unaimed(MkdirAll(t, p).tree, q) {
      MkdirAllSpares(t, p, q);
      if q in MkdirAll(t, p).tree && q !in t { UnmanagedAbove(s, k, q); }
    }
  }

  lemma UnmanagedAbove(s: Snapshot, k: Path, q: Path)
    requires Coherent(s) && k in Keys(s) && q <= k && !Managed(s.paths, q)
    ensures exists m :: m in s.existed && q < m
  {
    assert Managed(s.paths, k);
    AboveKey(s, k, q);
    assert q in s.dirs ==> q in Keys(s);
  }

  lemma WriteShelters(s: Snapshot, t: Tree, f: Path, contents: Bytes, mode: nat)
    requires Coherent(s) && Wf(t) && f in s.files
    ensures Shelters(s, t, WriteFile(t, f, contents, mode).tree)
  {
    hide Wf, WriteFile, Unaimed, Steady, Spares;
    assert f in Keys(s);
    forall q | Watched(s, t, q)
      ensures Spares(s, t, WriteFile(t, f, contents, mode).tree, q) &&
        Unaimed(WriteFile(t, f, contents, mode).tree, q) {
      WriteFileSpares(t, f, contents, mode, q);
      SteadySpares(s, t, WriteFile(t, f, contents, mode).tree, q);
    }
  }

  lemma ChmodShelters(s: Snapshot, t: Tree, k: Path, mode: nat)
    requires Coherent(s) && Wf(t) && k in Keys(s)
    ensures Shelters(s, t, Chmod(t, k, mode).tree)
  {
    hide Wf, Chmod, Unaimed, Steady, Spares;
    forall q | Watched(s, t, q)
      ensures Spares(s, t, Chmod(t, k, mode).tree, q) && Unaimed(Chmod(t, k, mode).tree, q) {
      ChmodSpares(t, k, mode, q);
      SteadySpares(s, t, Chmod(t, k, mode).tree, q);
    }
  }

  // ---------------------------------------------------------------------
  // Placing links
  // ---------------------------------------------------------------------

  // No recorded link, wherever it is placed, leads to q or above it.
  ghost predicate UnaimedByRecorded(s: Snapshot, q: Path) {
    forall l :: l in s.links ==> UnaimedAnywhere(s.links[l], q)
  }

  // Shelters for the places that the recorded links do not lead to.
  ghost predicate SheltersBeside(s: Snapshot, t: Tree, u: Tree) {
    forall q :: Watched(s, t, q) && UnaimedByRecorded(s, q) ==> Spares(s, t, u, q) && Unaimed(u, q)
  }

  lemma BesideTransitive(s: Snapshot, t: Tree, u: Tree, v: Tree)
    requires SheltersBeside(s, t, u) && SheltersBeside(s, u, v)
    ensures SheltersBeside(s, t, v)
  {
    forall q | Watched(s, t, q) && UnaimedByRecorded(s, q) ensures Spares(s, t, v, q) && Unaimed(v, q) {
      assert Watched(s, u, q);
    }
  }

  lemma SymlinkShelters(s: Snapshot, t: Tree, l: Path)
    requires Coherent(s) && Wf(t) && l in s.links
    ensures SheltersBeside(s, t, Symlink(t, s.links[l], l).tree)
  {
    hide Wf, Symlink, Unaimed, UnaimedAnywhere, Steady, Spares;
    forall q | Watched(s, t, q) && UnaimedByRecorded(s, q)
      ensures Spares(s, t, Symlink(t, s.links[l], l).tree, q) && Unaimed(Symlink(t, s.links[l], l).tree, q) {
      LinkIsNotAbove(s, l, q);
      SymlinkSpares(t, s.links[l], l, q);
      SteadySpares(s, t, Symlink(t, s.links[l], l).tree, q);
    }
  }

  // No link stands above a recorded link.
  ghost predicate LinksAreStraight(s: Snapshot, t: Tree) {
    forall l :: l in s.links ==> Straight(t, l)
  }

  // Then placing links works on the named paths themselves, whatever other
  // links lead to.
  ghost predicate SheltersAll(s: Snapshot, t: Tree, u: Tree) {
    forall q :: !Managed(s.paths, q) || LinkForFile(s, t, q) ==> Spares(s, t, u, q)
  }

  lemma AllTransitive(s: Snapshot, t: Tree, u: Tree, v: Tree)
    requires SheltersAll(s, t, u) && SheltersAll(s, u, v)
    ensures SheltersAll(s, t, v)
  {
    forall q | !Managed(s.paths, q) || LinkForFile(s, t, q) ensures Spares(s, t, v, q) {
      assert Spares(s, t, u, q);
      assert Spares(s, u, v, q);
    }
  }

  lemma DropLinkStraight(s: Snapshot, t: Tree, l: Path)
    requires Coherent(s) && Wf(t) && l in s.links && LinksAreStraight(s, t)
    ensures SheltersAll(s, t, RemoveAll(t, l).tree) && LinksAreStraight(s, RemoveAll(t, l).tree)
  {
    hide Wf, RemoveAll, Coherent;
    LinkIsProper(s, l);
    RemoveAllStraight(t, l);
    forall q | !Managed(s.paths, q) || LinkForFile(s, t, q) ensures Spares(s, t, Without(t, l), q) {
      LinkIsNotAbove(s, l, q);
    }
  }

  lemma LinkIsProper(s: Snapshot, l: Path)
    requires Coherent(s) && l in s.links
    ensures l != [] && l in Keys(s)
  {
    assert l in Keys(s) && Managed(s.paths, l);
  }

  lemma {:induction false} MkdirAllOnlyAdds(t: Tree, p: Path)
    requires Wf(t)
    ensures forall q :: q in t ==> q in MkdirAll(t, p).tree && MkdirAll(t, p).tree[q] == t[q]
    decreases |p|
  {
    hide Wf, Here, There;
    if !Stat(t, p).Found? && p != [] {
      MkdirAllOnlyAdds(t, Parent(p));
      MkdirAllKeepsKinds(t, Parent(p));
    }
  }

  // Below no link, MkdirAll adds prefixes of its path or fails without effect.
  lemma MkdirAllBelowNoLink(t: Tree, p: Path)
    requires Wf(t) && Straight(t, p) && (p in t ==> !t[p].Link?)
    ensures forall q :: q in MkdirAll(t, p).tree && q !in t ==>
                          q <= p && MkdirAll(t, p).tree[q] == Dir(NEW_DIRECTORY_MODE)
  {
    hide Wf, Locate;
    if Blocked(t, p) {
      MkdirAllBlocked(t, p);
    } else if p in t && t[p].File? {
      HereStraight(t, p);
      ThereStraight(t, p);
    } else {
      MkdirAllStraight(t, p);
    }
  }

  lemma ParentDirectoryStraight(s: Snapshot, t: Tree, l: Path)
    requires Coherent(s) && Wf(t) && l in s.links && LinksAreStraight(s, t)
    ensures l != []
    ensures SheltersAll(s, t, MkdirAll(t, Parent(l)).tree) && LinksAreStraight(s, MkdirAll(t, Parent(l)).tree)
  {
    hide Wf, MkdirAll, Coherent, KindsKept;
    LinkIsProper(s, l);
    var up := Parent(l);
    assert up < l && Straight(t, l);
    assert forall a :: a in t && a < up ==> a < l;
    var u := MkdirAll(t, up).tree;
    MkdirAllOnlyAdds(t, up);
    MkdirAllBelowNoLink(t, up);
    forall q | !Managed(s.paths, q) || LinkForFile(s, t, q) ensures Spares(s, t, u, q) {
      if q in u && q !in t { UnmanagedAbove(s, l, q); }
    }
    forall k, a | k in s.links && a in u && a < k ensures !u[a].Link? {
      assert Straight(t, k);
    }
  }

  lemma PlaceLinkStraight(s: Snapshot, t: Tree, l: Path)
    requires Coherent(s) && Wf(t) && l in s.links && LinksAreStraight(s, t)
    ensures SheltersAll(s, t, Symlink(t, s.links[l], l).tree) && LinksAreStraight(s, Symlink(t, s.links[l], l).tree)
  {
    hide Wf, Coherent, Locate;
    LinkIsProper(s, l);
    HereStraight(t, l);
    var u := Symlink(t, s.links[l], l).tree;
    forall q | !Managed(s.paths, q) || LinkForFile(s, t, q) ensures Spares(s, t, u, q) {
      LinkIsNotAbove(s, l, q);
    }
    forall k, a | k in s.links && a in u && a < k ensures !u[a].Link? {
      assert Straight(t, k);
      if a == l { LinkIsNotBelowLink(s, l, k); }
    }
  }

  lemma LinkIsNotBelowLink(s: Snapshot, l: Path, k: Path)
    requires Coherent(s) && l in s.links && k in s.links
    ensures !(l < k)
  {
    assert l in Keys(s) && k in Keys(s);
    assert l < k ==> l in s.dirs;
  }
}
