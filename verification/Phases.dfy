// What each phase of a restore makes of a tree, when the region can come back,
// and what survives when it cannot (internal/command/development.go).
module Phases {
  import opened FileTree
  import opened Snapshots
  import opened Straying
  import opened Shelter
  import opened Outside

  // ---------------------------------------------------------------------
  // When a restore can succeed
  // ---------------------------------------------------------------------

  // No originally regular file is now a link, and no originally present
  // managed path now hangs below a regular file.
  ghost predicate Restorable(s: Snapshot, t: Tree) {
    && (forall f :: f in s.files && f in t ==> !t[f].Link?)
    && (forall m :: m in s.existed ==> !Blocked(t, m))
  }

  ghost predicate Unblocked(s: Snapshot, t: Tree) {
    forall m :: m in s.paths ==> !Blocked(t, m)
  }

  // Inside the managed region only the given keys change.
  ghost predicate RegionKept(s: Snapshot, t: Tree, u: Tree, except: set<Path>) {
    forall p :: Managed(s.paths, p) && p !in except ==> (p in t <==> p in u) && (p in t ==> u[p] == t[p])
  }

  // Nodes only disappear, only from the managed region, and at the path of a
  // recorded file only a directory does.
  ghost predicate Thinned(s: Snapshot, t: Tree, u: Tree) {
    && (forall p :: p in u ==> p in t && u[p] == t[p])
    && (forall p :: p in t && p !in u ==> Managed(s.paths, p) && (p in s.files ==> t[p].Dir?))
  }

  // After pruning, whatever is left in the region has a recorded path of the
  // matching sort, up to the mode, contents or link target.
  ghost predicate Tidy(s: Snapshot, t: Tree) {
    forall p :: p in t && Managed(s.paths, p) ==>
      if t[p].Dir? then p in s.dirs else p in s.files || p in s.links
  }

  lemma ThinnedKeepsAncestors(s: Snapshot, t: Tree, u: Tree)
    requires Separate(s.paths) && (forall m :: m in s.existed ==> m in s.paths) && Thinned(s, t, u)
    ensures AllStraight(t, s.paths) ==> AllStraight(u, s.paths)
    ensures forall m :: m in s.paths ==> (Blocked(t, m) <==> Blocked(u, m))
    ensures OutsideKept(s, t, u)
    ensures Restorable(s, t) <==> Restorable(s, u)
  {
    forall m | m in s.paths ensures Blocked(t, m) <==> Blocked(u, m) {
      if Blocked(t, m) {
        var a :| a in t && a < m && t[a].File?;
        AncestorIsUnmanaged(s, m, a);
      }
    }
  }

  lemma KeyIsStraight(s: Snapshot, t: Tree, k: Path)
    requires Coherent(s) && Tidy(s, t) && ExistedStraight(s, t) && k in Keys(s)
    ensures Straight(t, k)
    ensures (forall m :: m in s.existed ==> !Blocked(t, m)) ==> !Blocked(t, k)
    ensures Straight(t, Parent(k))
    ensures (forall m :: m in s.existed ==> !Blocked(t, m)) ==>
      !Blocked(t, Parent(k)) && (Parent(k) in t ==> t[Parent(k)].Dir?)
  {
    forall a | a in t && a < k
      ensures !t[a].Link?
      ensures (forall m :: m in s.existed ==> !Blocked(t, m)) ==> !t[a].File?
    {
      AboveKey(s, k, a);
      if a in s.dirs {
        assert Managed(s.paths, a);
      }
    }
    assert Parent(k) < k;
    assert forall a :: a in t && a < Parent(k) ==> a < k;
  }

  // ---------------------------------------------------------------------
  // The restore, phase by phase
  // ---------------------------------------------------------------------

  predicate Recorded(s: Snapshot, p: Path) {
    p in s.files || p in s.links
  }

  function Fail(errors: seq<Errno>, o: Outcome): seq<Errno> {
    if o.error.Some? then errors + [o.error.value] else errors
  }

  // Every non-directory at or below m is at a recorded file or link path.
  ghost predicate PrunedBelow(s: Snapshot, t: Tree, m: Path) {
    forall p :: p in t && m <= p ==> t[p].Dir? || Recorded(s, p)
  }

  lemma StartThin(s: Snapshot, t: Tree)
    ensures Thinned(s, t, t)
  {
  }

  lemma ThinnedIsStraight(s: Snapshot, t: Tree, u: Tree, m: Path)
    requires Coherent(s) && Thinned(s, t, u) && AllStraight(t, s.paths) && m in s.paths
    ensures Straight(u, m)
    ensures Blocked(u, m) <==> Blocked(t, m)
  {
    ThinnedKeepsAncestors(s, t, u);
  }

  lemma ThinnedTransitive(s: Snapshot, t: Tree, u: Tree, v: Tree)
    requires Thinned(s, t, u) && Thinned(s, u, v)
    ensures Thinned(s, t, v)
  {
  }

  // Deepest paths first.
  ghost predicate DeepestFirst(ps: seq<Path>) {
    forall i, j :: 0 <= i < j < |ps| ==> |ps[i]| >= |ps[j]|
  }

  ghost predicate Distinct(ps: seq<Path>) {
    forall i, j :: 0 <= i < j < |ps| ==> ps[i] != ps[j]
  }

  // A permutation of the given paths, ordered by depth; paths of equal depth
  // come in no particular order.
  method SortDeepestFirst(ps: set<Path>) returns (sorted: seq<Path>)
    ensures DeepestFirst(sorted) && Distinct(sorted)
    ensures forall p :: p in sorted <==> p in ps
  {
    sorted := [];
    var todo := ps;
    while todo != {}
      invariant todo <= ps
      invariant DeepestFirst(sorted) && Distinct(sorted)
      invariant forall p :: p in sorted <==> p in ps - todo
      decreases |todo|
    {
      var p :| p in todo;
      var at := 0;
      while at < |sorted| && |sorted[at]| > |p|
        invariant 0 <= at <= |sorted|
        invariant forall i :: 0 <= i < at ==> |sorted[i]| > |p|
      {
        at := at + 1;
      }
      InsertKeepsMembers(sorted, at, p);
      sorted := sorted[..at] + [p] + sorted[at..];
      todo := todo - {p};
    }
  }

  lemma InsertKeepsMembers(ps: seq<Path>, at: nat, p: Path)
    requires at <= |ps| && p !in ps && Distinct(ps)
    ensures Distinct(ps[..at] + [p] + ps[at..])
    ensures forall q :: q in ps[..at] + [p] + ps[at..] <==> q in ps || q == p
  {
    var qs := ps[..at] + [p] + ps[at..];
    assert ps == ps[..at] + ps[at..];
    assert forall i :: 0 <= i < |qs| ==> qs[i] == if i < at then ps[i] else if i == at then p else ps[i - 1];
  }

  // Progress of the walk that prunes one directory: `todo` is still to visit.
  ghost predicate Pruning(s: Snapshot, before: Tree, t: Tree, m: Path, todo: set<Path>) {
    && Wf(t) && Thinned(s, before, t)
    && (forall p :: p in todo ==> p in t && m <= p)
    && (forall p :: p in t && m <= p ==> p in todo || t[p].Dir? || Recorded(s, p))
  }

  lemma PruneStep(s: Snapshot, before: Tree, t: Tree, m: Path, todo: set<Path>, p: Path)
    requires Pruning(s, before, t, m, todo) && m in s.paths && m != [] && p in todo
    requires !t[p].Dir? && !Recorded(s, p)
    ensures Remove(t, p) == Outcome(t - {p}, None)
    ensures Pruning(s, before, t - {p}, m, todo - {p})
  {
    assert m <= p;
    LeafHasNoChildren(t, p);
    RemoveStraight(t, p);
  }

  // One turn of the walk.
  lemma PruneTurn(s: Snapshot, before: Tree, t: Tree, m: Path, todo: set<Path>, p: Path)
    requires Pruning(s, before, t, m, todo) && m in s.paths && m != [] && p in todo
    ensures p in t && Lstat(t, p) == Found(t[p])
    ensures
      if !t[p].Dir? && p !in s.files && p !in s.links
      then Remove(t, p) == Outcome(t - {p}, None) && Pruning(s, before, t - {p}, m, todo - {p})
      else Pruning(s, before, t, m, todo - {p})
  {
    hide Wf, Thinned, Lstat, Remove;
    InTreeIsShown(t, p);
    if !t[p].Dir? && !Recorded(s, p) { PruneStep(s, before, t, m, todo, p); }
  }

  // Progress of the removal of unrecorded directories.
  ghost predicate Removing(s: Snapshot, before: Tree, t: Tree, done: seq<Path>) {
    && Wf(t) && Thinned(s, before, t)
    && (forall p :: p in before ==> (p in t <==> p !in done))
  }

  ghost predicate ExtraIn(s: Snapshot, t: Tree, p: Path) {
    p in t && Managed(s.paths, p) && t[p].Dir? && p !in s.dirs
  }

  // When its turn comes, an unrecorded directory is empty: what it held was
  // unrecorded directories only, and these lie deeper.
  lemma ExtraIsEmpty(s: Snapshot, before: Tree, t: Tree, sorted: seq<Path>, i: nat, c: Path)
    requires Coherent(s) && Wf(before) && i < |sorted|
    requires forall m :: m in s.paths ==> PrunedBelow(s, before, m)
    requires DeepestFirst(sorted)
    requires forall p :: p in sorted <==> ExtraIn(s, before, p)
    requires Removing(s, before, t, sorted[..i])
    requires c in t
    ensures !(sorted[i] < c)
  {
    hide Coherent, PrunedBelow, Wf, Managed;
    var p := sorted[i];
    assert p in sorted;
    assert ExtraIn(s, before, p) && c in before;
    if p < c {
      ExtraHasNoRecordedChild(s, before, p, c);
      assert c in sorted;
      DeeperIsEarlier(sorted, i, c);
    }
  }

  lemma RemoveExtraStep(s: Snapshot, before: Tree, t: Tree, sorted: seq<Path>, i: nat)
    requires Coherent(s) && Wf(before) && i < |sorted|
    requires forall m :: m in s.paths ==> PrunedBelow(s, before, m)
    requires DeepestFirst(sorted) && Distinct(sorted)
    requires forall p :: p in sorted <==> ExtraIn(s, before, p)
    requires Removing(s, before, t, sorted[..i])
    ensures Remove(t, sorted[i]) == Outcome(t - {sorted[i]}, None)
    ensures Removing(s, before, t - {sorted[i]}, sorted[..i + 1])
  {
    hide Here, Remove, Wf, PrunedBelow, DeepestFirst;
    var p := sorted[i];
    assert p in sorted;
    assert ExtraIn(s, before, p);
    assert p != [] by {
      var m :| m in s.paths && m <= p;
    }
    forall c | c in t ensures !(p < c) {
      ExtraIsEmpty(s, before, t, sorted, i, c);
    }
    assert sorted[..i + 1] == sorted[..i] + [p];
    assert p !in sorted[..i];
    assert p in t;
    RemoveStraight(t, p);
  }

  // ---------------------------------------------------------------------
  // Phases 3 and 4: recorded directories and their modes
  // ---------------------------------------------------------------------

  ghost predicate Clear(s: Snapshot, t: Tree) {
    forall m :: m in s.existed ==> !Blocked(t, m)
  }

  lemma OutsideKeptAncestors(s: Snapshot, t: Tree, u: Tree)
    requires Separate(s.paths) && (forall m :: m in s.existed ==> m in s.paths) && OutsideKept(s, t, u)
    ensures ExistedStraight(s, t) ==> ExistedStraight(s, u)
    ensures forall m :: m in s.paths ==> (Blocked(t, m) <==> Blocked(u, m))
  {
    forall m, a | m in s.paths && a < m ensures !Managed(s.paths, a) { AncestorIsUnmanaged(s, m, a); }
  }

  // The tree while directories, files or links at the paths in `keys` are
  // being put back.
  ghost predicate Filling(s: Snapshot, before: Tree, t: Tree, keys: set<Path>) {
    && Wf(t) && Tidy(s, t)
    && RegionKept(s, before, t, keys)
    && OutsideKept(s, before, t)
  }

  lemma FillingTransitive(s: Snapshot, t: Tree, u: Tree, v: Tree, some: set<Path>, more: set<Path>)
    requires Filling(s, t, u, some) && Filling(s, u, v, more) && more <= some
    ensures Filling(s, t, v, some)
  {
    OutsideKeptTransitive(s, t, u, v);
  }

  // Adding the missing prefixes of a recorded directory, or of the parent of
  // a recorded file or link, touches recorded directories and nothing else
  // in the region.
  lemma AddedDirectories(s: Snapshot, t: Tree, u: Tree, k: Path, p: Path)
    requires Coherent(s) && Tidy(s, t) && Wf(u) && AddsDirectories(t, u, p)
    requires k in Keys(s) && (p < k || (p == k && k in s.dirs))
    ensures Filling(s, t, u, s.dirs.Keys)
  {
    forall q | q in u && q !in t
      ensures q in s.dirs || (!Managed(s.paths, q) && exists m :: m in s.existed && q < m)
      ensures u[q] == Dir(NEW_DIRECTORY_MODE)
    {
      if q != k { AboveKey(s, k, q); }
    }
    forall q | q in s.dirs ensures Managed(s.paths, q) {}
  }

  lemma MkdirStep(s: Snapshot, t: Tree, d: Path)
    requires Coherent(s) && Wf(t) && Tidy(s, t) && ExistedStraight(s, t) && d in s.dirs
    ensures Filling(s, t, MkdirAll(t, d).tree, s.dirs.Keys)
    ensures Clear(s, t) ==> MkdirAll(t, d).error == None && d in MkdirAll(t, d).tree
  {
    KeyIsStraight(s, t, d);
    if Blocked(t, d) {
      MkdirAllBlocked(t, d);
    } else {
      assert d in t ==> Managed(s.paths, d) && t[d].Dir?;
      MkdirAllStraight(t, d);
      AddedDirectories(s, t, MkdirAll(t, d).tree, d, d);
    }
  }

  lemma ChmodStep(s: Snapshot, t: Tree, d: Path)
    requires Coherent(s) && Wf(t) && Tidy(s, t) && ExistedStraight(s, t) && d in s.dirs
    ensures Filling(s, t, Chmod(t, d, s.dirs[d]).tree, {d})
    ensures d in t ==> Chmod(t, d, s.dirs[d]) == Outcome(t[d := Dir(s.dirs[d])], None)
    ensures d !in t ==> Chmod(t, d, s.dirs[d]).tree == t
  {
    KeyIsStraight(s, t, d);
    assert Managed(s.paths, d);
    if d in t {
      assert t[d].Dir?;
      ChmodStraight(t, d, s.dirs[d]);
    } else {
      HereStraight(t, d);
      ThereStraight(t, d);
    }
  }

  // ---------------------------------------------------------------------
  // Phase 5: recorded files
  // ---------------------------------------------------------------------

  // The state in which files and links can be put back.
  ghost predicate Grounded(s: Snapshot, t: Tree) {
    && Wf(t) && Tidy(s, t) && ExistedStraight(s, t) && Clear(s, t)
    && (forall d :: d in s.dirs ==> d in t)
  }

  lemma FillingStaysGrounded(s: Snapshot, t: Tree, u: Tree, keys: set<Path>)
    requires Coherent(s) && Grounded(s, t) && Filling(s, t, u, keys) && keys !! s.dirs.Keys
    ensures Grounded(s, u)
  {
    OutsideKeptAncestors(s, t, u);
    forall d | d in s.dirs ensures d in u { assert Managed(s.paths, d); }
  }

  // Making the parent of a recorded file or link only adds directories
  // outside the managed region.
  lemma ParentStep(s: Snapshot, t: Tree, k: Path)
    requires Coherent(s) && Grounded(s, t) && k in Keys(s)
    ensures k != []
    ensures MkdirAll(t, Parent(k)).error == None
    ensures
      var u := MkdirAll(t, Parent(k)).tree;
      && Filling(s, t, u, {}) && Grounded(s, u) && Reachable(u, k)
      && (k in u <==> k in t) && (k in t ==> u[k] == t[k])
  {
    KeyIsStraight(s, t, k);
    MkdirAllStraight(t, Parent(k));
    var u := MkdirAll(t, Parent(k)).tree;
    AddedDirectories(s, t, u, k, Parent(k));
    forall q | q in u && q !in t ensures q !in s.dirs {}
    assert RegionKept(s, t, u, {});
    FillingStaysGrounded(s, t, u, {});
    ReachableThrough(u, Parent(k), k);
    assert Managed(s.paths, k);
  }

  // Changing one recorded path, to a node of the recorded sort or to nothing.
  lemma PutStep(s: Snapshot, t: Tree, k: Path, node: Node)
    requires Coherent(s) && Grounded(s, t) && Wf(t[k := node])
    requires if node.File? then k in s.files else k in s.links && node.Link?
    ensures Filling(s, t, t[k := node], {k}) && Grounded(s, t[k := node])
  {
    hide Wf, Clear, Coherent, ExistedStraight, Managed, Keys;
    KeySorts(s, k);
    assert Tidy(s, t[k := node]);
    assert RegionKept(s, t, t[k := node], {k});
    assert OutsideKept(s, t, t[k := node]);
    FillingStaysGrounded(s, t, t[k := node], {k});
  }

  lemma DropStep(s: Snapshot, t: Tree, k: Path)
    requires Coherent(s) && Grounded(s, t) && Wf(t - {k}) && k in s.links
    ensures Filling(s, t, t - {k}, {k}) && Grounded(s, t - {k})
  {
    hide Wf, Clear, Coherent, ExistedStraight, Managed, Keys;
    KeySorts(s, k);
    assert Tidy(s, t - {k});
    assert RegionKept(s, t, t - {k}, {k});
    assert OutsideKept(s, t, t - {k});
    FillingStaysGrounded(s, t, t - {k}, {k});
  }

  lemma FileStep(s: Snapshot, t: Tree, f: Path)
    requires Coherent(s) && Grounded(s, t) && Reachable(t, f) && f in s.files
    requires f in t ==> !t[f].Link?
    ensures FileUpdate(t, f, s.files[f]) == Outcome(t[f := File(s.files[f].contents, s.files[f].mode)], None)
    ensures Filling(s, t, FileUpdate(t, f, s.files[f]).tree, {f})
    ensures Grounded(s, FileUpdate(t, f, s.files[f]).tree)
  {
    hide Here, There, Clear, WriteFile, Chmod;
    var saved := s.files[f];
    assert f in Keys(s);
    assert Managed(s.paths, f) && f != [];
    assert f in t ==> t[f].File?;
    WriteFileStraight(t, f, saved.contents, saved.mode);
    var u := WriteFile(t, f, saved.contents, saved.mode).tree;
    ChmodStraight(u, f, saved.mode);
    assert Chmod(u, f, saved.mode).tree == t[f := File(saved.contents, saved.mode)];
    PutStep(s, t, f, File(saved.contents, saved.mode));
  }

  // ---------------------------------------------------------------------
  // Phase 6: recorded links
  // ---------------------------------------------------------------------

  lemma WithoutLeaf(t: Tree, l: Path)
    requires forall p :: p in t && l <= p ==> p == l
    ensures Without(t, l) == t - {l}
  {
  }

  lemma LinkStep(s: Snapshot, t: Tree, l: Path)
    requires Coherent(s) && Grounded(s, t) && l in s.links
    ensures RemoveAll(t, l) == Outcome(t - {l}, None)
    ensures Filling(s, t, t - {l}, {l}) && Grounded(s, t - {l})
  {
    hide Here, RemoveAll;
    KeyIsStraight(s, t, l);
    assert l in Keys(s);
    assert Managed(s.paths, l) && l != [];
    RemoveAllStraight(t, l);
    assert l in t ==> !t[l].Dir?;
    hide Coherent, Grounded, Tidy, Managed, Keys;
    LeafOnly(t, l);
    WithoutLeaf(t, l);
    DropStep(s, t, l);
  }

  lemma SymlinkStep(s: Snapshot, t: Tree, l: Path)
    requires Coherent(s) && Grounded(s, t) && Reachable(t, l) && l in s.links && l !in t
    ensures Symlink(t, s.links[l], l) == Outcome(t[l := Link(s.links[l])], None)
    ensures Filling(s, t, t[l := Link(s.links[l])], {l}) && Grounded(s, t[l := Link(s.links[l])])
  {
    hide Here, Symlink;
    assert l in Keys(s);
    assert Managed(s.paths, l) && l != [];
    SymlinkStraight(t, s.links[l], l);
    PutStep(s, t, l, Link(s.links[l]));
  }

  // ---------------------------------------------------------------------
  // What survives even when a link leads a write astray
  // ---------------------------------------------------------------------

  ghost predicate UnderLink(s: Snapshot, p: Path) {
    exists l :: l in s.links && l <= p
  }

  // Files and links outside the recorded links keep their kind.
  ghost predicate Surviving(s: Snapshot, t: Tree, u: Tree) {
    forall p :: p in t && !UnderLink(s, p) ==>
      p in u && (t[p].File? ==> u[p].File?) && (t[p].Link? ==> u[p].Link?)
  }

  lemma KindsKeptSurvives(s: Snapshot, t: Tree, u: Tree)
    requires KindsKept(t, u)
    ensures Surviving(s, t, u)
    ensures KeysStraight(s, t) ==> KeysStraight(s, u)
  {
    forall k, a | k in Keys(s) && KeysStraight(s, t) && a in u && a < k ensures !u[a].Link? {
      assert Straight(t, k);
      if a in t { assert !t[a].Link?; }
    }
  }

  lemma SurvivingTransitive(s: Snapshot, t: Tree, u: Tree, v: Tree)
    requires Surviving(s, t, u) && Surviving(s, u, v)
    ensures Surviving(s, t, v)
  {
  }

  lemma RemoveLinkSurvives(s: Snapshot, t: Tree, l: Path)
    requires Coherent(s) && Wf(t) && KeysStraight(s, t) && l in s.links
    ensures Wf(RemoveAll(t, l).tree) && KeysStraight(s, RemoveAll(t, l).tree) && Surviving(s, t, RemoveAll(t, l).tree)
  {
    KeySorts(s, l);
    assert l in Keys(s);
    RemoveAllStraight(t, l);
  }

  lemma SymlinkSurvives(s: Snapshot, t: Tree, l: Path)
    requires Coherent(s) && Wf(t) && KeysStraight(s, t) && l in s.links
    ensures
      var u := Symlink(t, s.links[l], l).tree;
      Wf(u) && KeysStraight(s, u) && Surviving(s, t, u)
  {
    KeySorts(s, l);
    assert l in Keys(s);
    HereStraight(t, l);
    if Reachable(t, l) && l !in t {
      SymlinkStraight(t, s.links[l], l);
      var u := t[l := Link(s.links[l])];
      forall k, a | k in Keys(s) && a in u && a < k ensures !u[a].Link? {
        AboveKey(s, k, a);
        assert a != l;
        assert Straight(t, k);
      }
    }
  }

  // If the restore precondition fails, the witness of the failure survives
  // every phase and the region is not the recorded one.
  lemma WitnessSurvives(s: Snapshot, t: Tree, u: Tree, v: Tree)
    requires Coherent(s) && Wf(v) && (forall m :: m in s.existed ==> m in s.paths)
    requires Thinned(s, t, u) && Surviving(s, u, v) && !Restorable(s, t)
    ensures !Captures(s, v)
  {
    if f :| f in s.files && f in t && t[f].Link? {
      assert f in Keys(s);
      forall l | l in s.links ensures !(l <= f) {
        assert l in Keys(s) && Managed(s.paths, l);
        assert l < f ==> l in s.dirs;
        assert l != f;
      }
      assert v[f].Link?;
      if Captures(s, v) { RecordedOnce(s, v, f); }
    } else {
      var m :| m in s.existed && Blocked(t, m);
      var a :| a in t && a < m && t[a].File?;
      AncestorIsUnmanaged(s, m, a);
      forall l | l in s.links ensures !(l <= a) {
        assert l in Keys(s) && Managed(s.paths, l);
        var n :| n in s.paths && n <= l;
        assert l <= a ==> n <= a;
      }
      assert v[a].File?;
      if m in v { AncestorsAreDirs(v, m); }
      assert m !in v;
    }
  }

  // Every recorded path holds the recorded node.
  ghost predicate Filled(s: Snapshot, t: Tree) {
    && (forall d :: d in s.dirs ==> d in t && t[d] == Dir(s.dirs[d]))
    && (forall f :: f in s.files ==> f in t && t[f] == File(s.files[f].contents, s.files[f].mode))
    && (forall l :: l in s.links ==> l in t && t[l] == Link(s.links[l]))
  }

  lemma FilledRegion(s: Snapshot, t: Tree)
    requires Coherent(s) && Tidy(s, t) && Filled(s, t)
    ensures Region(s.paths, t) == s.files.Keys + s.links.Keys + s.dirs.Keys
    ensures forall m :: m in s.paths ==> (m in t <==> m in s.existed)
    ensures forall m :: m in s.existed ==> m in s.paths
  {
    forall k | k in Keys(s) ensures k in Region(s.paths, t) { assert Managed(s.paths, k); }
    forall m | m in s.paths ensures m in t <==> m in s.existed { assert Managed(s.paths, m); }
  }

  // A tree whose region holds exactly the recorded paths with the recorded
  // nodes is what the snapshot captured.
  lemma FilledIsCaptured(s: Snapshot, t: Tree)
    requires Coherent(s) && Tidy(s, t) && Filled(s, t)
    ensures Captures(s, t)
  {
    hide Coherent, Tidy, Region;
    FilledRegion(s, t);
    var region := s.files.Keys + s.links.Keys + s.dirs.Keys;
    assert FilesOf(t, region).Keys == s.files.Keys;
    assert LinksOf(t, region).Keys == s.links.Keys;
    assert DirsOf(t, region).Keys == s.dirs.Keys;
  }

  // Progress of the file loop: the files outside `todo` are back.
  ghost predicate FilesFilled(s: Snapshot, before: Tree, t: Tree, todo: set<Path>) {
    && Grounded(s, t) && Filling(s, before, t, s.files.Keys)
    && (forall f :: f in s.files && f in t ==> !t[f].Link?)
    && (forall f :: f in s.files && f !in todo ==> f in t && t[f] == File(s.files[f].contents, s.files[f].mode))
  }

  lemma FilesReflexive(s: Snapshot, t: Tree)
    requires Wf(t)
    ensures KindsKept(t, t)
    ensures Grounded(s, t) && Restorable(s, t) ==> FilesFilled(s, t, t, s.files.Keys)
  {
  }

  lemma FileKeepsKinds(s: Snapshot, t: Tree, f: Path)
    requires Coherent(s) && Wf(t) && f in s.files
    ensures f != []
    ensures Wf(RewriteFile(t, f, s.files[f]).tree) && KindsKept(t, RewriteFile(t, f, s.files[f]).tree)
  {
    hide MkdirAll, WriteFile, Chmod, KindsKept, Wf, Coherent;
    KeySorts(s, f);
    var saved := s.files[f];
    MkdirAllKeepsKinds(t, Parent(f));
    var u := MkdirAll(t, Parent(f)).tree;
    WriteFileKeepsKinds(u, f, saved.contents, saved.mode);
    var v := WriteFile(u, f, saved.contents, saved.mode).tree;
    ChmodKeepsKinds(v, f, saved.mode);
    KindsKeptTransitive(t, u, v);
    KindsKeptTransitive(t, v, Chmod(v, f, saved.mode).tree);
  }

  lemma FileLoopStep(s: Snapshot, before: Tree, t: Tree, todo: set<Path>, f: Path)
    requires Coherent(s) && todo <= s.files.Keys && f in todo && f != []
    requires FilesFilled(s, before, t, todo)
    ensures RewriteFile(t, f, s.files[f]).error == None
    ensures MkdirAll(t, Parent(f)).error == None
    ensures FilesFilled(s, before, RewriteFile(t, f, s.files[f]).tree, todo - {f})
  {
    hide Coherent, Wf, Grounded, MkdirAll, FileUpdate, Tidy, OutsideKept, Managed;
    assert f in Keys(s);
    ParentStep(s, t, f);
    var u := MkdirAll(t, Parent(f)).tree;
    FileStep(s, u, f);
    var v := FileUpdate(u, f, s.files[f]).tree;
    FillingTransitive(s, t, u, v, {f}, {f});
    FillingTransitive(s, before, t, v, s.files.Keys, {f});
    forall g | g in s.files && g != f
      ensures (g in t <==> g in v) && (g in t ==> v[g] == t[g])
    {
      KeySorts(s, g);
    }
  }

  lemma FilesFilledDone(s: Snapshot, before: Tree, t: Tree)
    requires FilesFilled(s, before, t, {})
    ensures Filling(s, before, t, s.files.Keys) && Grounded(s, t)
    ensures forall f :: f in s.files ==> f in t && t[f] == File(s.files[f].contents, s.files[f].mode)
  {
  }

  // Progress of the link loop: the links outside `todo` are back.
  ghost predicate LinksFilled(s: Snapshot, before: Tree, t: Tree, todo: set<Path>) {
    && Grounded(s, t) && Filling(s, before, t, s.links.Keys)
    && (forall l :: l in s.links && l !in todo ==> l in t && t[l] == Link(s.links[l]))
  }

  lemma LinksReflexive(s: Snapshot, t: Tree)
    requires Wf(t)
    ensures Surviving(s, t, t)
    ensures Grounded(s, t) ==> LinksFilled(s, t, t, s.links.Keys)
  {
  }

  lemma LinkKeeps(s: Snapshot, t: Tree, l: Path)
    requires Coherent(s) && Wf(t) && KeysStraight(s, t) && l in s.links
    ensures l != []
    ensures
      var u := RelinkTree(t, l, s.links[l]).tree;
      Wf(u) && KeysStraight(s, u) && Surviving(s, t, u)
  {
    hide MkdirAll, RemoveAll, Symlink, Lstat, KindsKept, Wf, Coherent, KeysStraight, Surviving;
    KeySorts(s, l);
    LinksReflexive(s, t);
    RemoveLinkSurvives(s, t, l);
    var u := RemoveAll(t, l).tree;
    MkdirAllKeepsKinds(u, Parent(l));
    var v := MkdirAll(u, Parent(l)).tree;
    KindsKeptSurvives(s, u, v);
    SymlinkSurvives(s, v, l);
    SurvivingTransitive(s, t, u, v);
    SurvivingTransitive(s, t, v, Symlink(v, s.links[l], l).tree);
  }

  lemma LinkLoopStep(s: Snapshot, before: Tree, t: Tree, todo: set<Path>, l: Path)
    requires Coherent(s) && todo <= s.links.Keys && l in todo && l != []
    requires LinksFilled(s, before, t, todo)
    ensures RelinkTree(t, l, s.links[l]).error == None
    ensures RemoveAll(t, l).error == None
    ensures MkdirAll(RemoveAll(t, l).tree, Parent(l)).error == None
    ensures LinksFilled(s, before, RelinkTree(t, l, s.links[l]).tree, todo - {l})
  {
    hide Coherent, MkdirAll, RemoveAll, Symlink, Lstat, Tidy, OutsideKept, Managed, Wf;
    assert l in Keys(s);
    KeyIsStraight(s, t, l);
    LstatStraight(t, l);
    LinkStep(s, t, l);
    var u := t - {l};
    ParentStep(s, u, l);
    var v := MkdirAll(u, Parent(l)).tree;
    SymlinkStep(s, v, l);
    var w := v[l := Link(s.links[l])];
    FillingTransitive(s, t, u, v, {l}, {});
    FillingTransitive(s, t, v, w, {l}, {l});
    FillingTransitive(s, before, t, w, s.links.Keys, {l});
    forall g | g in s.links && g != l
      ensures (g in t <==> g in w) && (g in t ==> w[g] == t[g])
    {
      KeySorts(s, g);
    }
  }

  lemma LinksFilledDone(s: Snapshot, before: Tree, t: Tree)
    requires LinksFilled(s, before, t, {})
    ensures Filling(s, before, t, s.links.Keys)
    ensures forall l :: l in s.links ==> l in t && t[l] == Link(s.links[l])
  {
  }

  // ---------------------------------------------------------------------
  // Links above managed paths
  // ---------------------------------------------------------------------

  // No recorded link was recorded below a managed path that has a link above it.
  ghost predicate LinksAreDirect(s: Snapshot, t: Tree) {
    forall l, m :: l in s.links && m in s.paths && m <= l ==> Straight(t, m)
  }

  // A place that a restore does not reach: unmanaged, or a link where a file
  // was recorded; no link of the tree leads to it or above it, nor does a
  // recorded link that has to be placed through another link.
  ghost predicate OutOfReach(s: Snapshot, t: Tree, q: Path) {
    Watched(s, t, q) && (LinksAreDirect(s, t) || UnaimedByRecorded(s, q))
  }

  // What stands in the way of a restore is out of its reach: links and files
  // above originally present managed paths, and links where files were.
  ghost predicate ObstaclesOutOfReach(s: Snapshot, t: Tree) {
    && (forall m, a :: m in s.existed && a < m && a in t && !t[a].Dir? ==> OutOfReach(s, t, a))
    && (forall f :: LinkForFile(s, t, f) ==> OutOfReach(s, t, f))
  }

  // Then an obstacle is still there after the restore.
  lemma ObstacleStays(s: Snapshot, t: Tree, u: Tree)
    requires Coherent(s) && Wf(t) && Wf(u) && ObstaclesOutOfReach(s, t)
    requires forall q :: OutOfReach(s, t, q) ==> Spares(s, t, u, q)
    requires !ExistedStraight(s, t) || !Restorable(s, t)
    ensures !Captures(s, u)
  {
    hide Wf, OutOfReach, Coherent;
    if f :| f in s.files && f in t && t[f].Link? {
      assert LinkForFile(s, t, f);
      FileKeyIsManaged(s, f);
      if Captures(s, u) { RecordedOnce(s, u, f); }
    } else {
      var m, a := Obstacle(s, t);
      assert OutOfReach(s, t, a);
      assert a in u && u[a] == t[a];
      NothingBelow(u, a, m);
      CoherentPaths(s);
      assert m !in u;
    }
  }

  lemma Obstacle(s: Snapshot, t: Tree) returns (m: Path, a: Path)
    requires !ExistedStraight(s, t) || exists n :: n in s.existed && Blocked(t, n)
    ensures m in s.existed && a < m && a in t && !t[a].Dir?
  {
    if n :| n in s.existed && Blocked(t, n) {
      m := n;
      a :| a in t && a < m && t[a].File?;
    } else {
      m :| m in s.existed && !Straight(t, m);
      a :| a in t && a < m && t[a].Link?;
    }
  }

  lemma FileKeyIsManaged(s: Snapshot, f: Path)
    requires Coherent(s) && f in s.files
    ensures Managed(s.paths, f)
  {
    assert f in Keys(s);
  }

  // A single link above an originally present managed path, to which no link
  // leads, keeps that path from ever being captured again.
  lemma NeverCapturedBelowLink(s: Snapshot, t: Tree, u: Tree, m: Path, a: Path)
    requires Coherent(s) && Wf(t) && Wf(u) && m in s.existed && a < m && a in t && t[a].Link? && OutOfReach(s, t, a)
    requires forall q :: OutOfReach(s, t, q) ==> Spares(s, t, u, q)
    ensures a in u && u[a] == t[a] && m !in u && !Captures(s, u)
  {
    hide Wf, OutOfReach, Coherent;
    NothingBelow(u, a, m);
    CoherentPaths(s);
  }

  lemma AllStraightIsExisted(s: Snapshot, t: Tree)
    requires Coherent(s) && AllStraight(t, s.paths)
    ensures ExistedStraight(s, t)
  {
  }

  // What did not exist shows nothing.
  ghost predicate Vanished(s: Snapshot, t: Tree) {
    forall m :: m in s.paths && m !in s.existed ==> !Lstat(t, m).Found?
  }

  // The tree after the first phase, with no link above what existed.
  ghost predicate Prunable(s: Snapshot, t: Tree) {
    ExistedStraight(s, t) && Vanished(s, t) && forall m :: m in s.paths ==> PrunedBelow(s, t, m)
  }

  lemma Pruned(s: Snapshot, t: Tree, u: Tree)
    requires Shrunk(t, u) && Vanished(s, u) && forall m :: m in s.paths ==> PrunedBelow(s, u, m)
    ensures ExistedStraight(s, t) ==> Prunable(s, u)
  {
    hide Vanished, PrunedBelow;
    ShrunkStaysRestorable(s, t, u);
  }

  ghost predicate NothingRecorded(s: Snapshot) {
    s.dirs == map[] && s.files == map[] && s.links == map[]
  }

  lemma StaysVanished(s: Snapshot, t: Tree, u: Tree)
    requires Shrunk(t, u) && Vanished(s, t)
    ensures Vanished(s, u)
  {
    hide Lstat, Shrunk;
    forall m | m in s.paths && m !in s.existed ensures !Lstat(u, m).Found? {
      MissingStaysMissing(t, u, m);
    }
  }

  // What a link above an absent managed path led that path to is gone when the
  // path shows nothing any more and the link is still there.
  lemma LinkAboveLoses(s: Snapshot, t: Tree, a: Path, rest: Path)
    requires Wf(t) && Vanished(s, t) && rest != [] && a + rest in s.paths && a + rest !in s.existed
    requires a != [] && a in t && t[a].Link?
    ensures LeadsTo(t[a].target, Parent(a)) + rest !in t
  {
    hide Wf;
    var place := LeadsTo(t[a].target, Parent(a)) + rest;
    if place in t {
      AncestorsAreDirs(t, place);
      AncestorsAreDirs(t, a);
      assert [] + a == a;
      CrossesLink(t, [], a, rest, MAX_LINKS);
    }
  }

  // A resolution that comes to the link at `at + above` goes on to the place
  // the link leads to.
  lemma {:induction false} CrossesLink(t: Tree, at: Path, above: Path, rest: Path, hops: nat)
    requires Wf(t) && above != [] && rest != [] && hops > 0
    requires at + above in t && t[at + above].Link? && Reachable(t, at + above)
    requires Reachable(t, LeadsTo(t[at + above].target, Parent(at + above)) + rest)
    ensures
      Locate(t, at, above + rest, false, hops) == At(LeadsTo(t[at + above].target, Parent(at + above)) + rest)
    decreases |above|
  {
    hide Wf;
    var a := at + above;
    var next := at + [above[0]];
    assert (above + rest)[0] == above[0] && (above + rest)[1..] == above[1..] + rest;
    if |above| == 1 {
      assert next == a && Parent(a) == at;
      assert above[1..] + rest == rest;
      LeavesThroughLink(t, at, above + rest, hops);
    } else {
      assert next == a[..|at| + 1];
      assert next + above[1..] == a;
      CrossesLink(t, next, above[1..], rest, hops);
    }
  }

  lemma LeavesThroughLink(t: Tree, at: Path, path: Path, hops: nat)
    requires |path| > 1 && hops > 0
    requires at + [path[0]] in t && t[at + [path[0]]].Link?
    requires Reachable(t, LeadsTo(t[at + [path[0]]].target, at) + path[1..])
    ensures Locate(t, at, path, false, hops) == At(LeadsTo(t[at + [path[0]]].target, at) + path[1..])
  {
    var target := t[at + [path[0]]].target;
    var base := if target.absolute then [] else Climb(at, target.ups);
    assert base + (target.segments + path[1..]) == LeadsTo(target, at) + path[1..];
    LocateReachable(t, base, target.segments + path[1..], false, hops - 1);
  }

  lemma ShrunkReflexive(t: Tree)
    ensures Shrunk(t, t)
  {
  }

  lemma ShrunkTransitive(t: Tree, u: Tree, v: Tree)
    requires Shrunk(t, u) && Shrunk(u, v)
    ensures Shrunk(t, v)
  {
  }

  lemma ShrunkStaysRestorable(s: Snapshot, t: Tree, u: Tree)
    requires Shrunk(t, u)
    ensures ExistedStraight(s, t) ==> ExistedStraight(s, u)
    ensures Restorable(s, t) ==> Restorable(s, u)
  {
    forall m | Blocked(u, m) ensures Blocked(t, m) {
      var a :| a in u && a < m && u[a].File?;
      assert a in t;
    }
  }

  lemma ShrunkKeepsPruned(s: Snapshot, t: Tree, u: Tree, m: Path)
    requires Shrunk(t, u)
    ensures PrunedBelow(s, t, m) ==> PrunedBelow(s, u, m)
    ensures Straight(t, m) ==> Straight(u, m)
  {
  }

  lemma NothingBelowLink(s: Snapshot, t: Tree, u: Tree, m: Path)
    requires Wf(t) && Shrunk(t, u) && !Straight(t, m)
    ensures PrunedBelow(s, u, m)
  {
    var a :| a in t && a < m && t[a].Link?;
    NothingBelow(t, a, m);
  }

  lemma ManagedIsProper(s: Snapshot, m: Path)
    requires Coherent(s) && m in s.paths
    ensures m != []
  {
  }

  lemma NothingToPrune(s: Snapshot, t: Tree, m: Path)
    requires Wf(t)
    ensures Thinned(s, t, t)
    ensures m !in t || (m in s.files && !t[m].Dir?) ==> PrunedBelow(s, t, m)
  {
    LeafOnly(t, m);
  }

  lemma PruneLeaf(s: Snapshot, t: Tree, m: Path)
    requires Wf(t) && m in s.paths && m != [] && m in t && !t[m].Dir? && m !in s.files
    ensures Remove(t, m) == Outcome(t - {m}, None)
    ensures Thinned(s, t, t - {m}) && PrunedBelow(s, t - {m}, m)
  {
    LeafHasNoChildren(t, m);
    RemoveStraight(t, m);
    LeafOnly(t, m);
  }

  lemma PruningStarts(s: Snapshot, t: Tree, m: Path)
    requires Wf(t) && Straight(t, m)
    ensures Pruning(s, t, t, m, Walk(t, m))
  {
    hide Walk;
    WalkStraight(t, m);
  }

  lemma PruningEnds(s: Snapshot, before: Tree, t: Tree, m: Path)
    requires Pruning(s, before, t, m, {})
    ensures Thinned(s, before, t) && PrunedBelow(s, t, m)
  {
  }

  lemma RemovingStarts(s: Snapshot, t: Tree)
    requires Wf(t)
    ensures Removing(s, t, t, [])
    ensures Prunable(s, t) ==> forall m :: m in s.paths ==> PrunedBelow(s, t, m)
  {
    hide PrunedBelow;
  }

  lemma RemovingEnds(s: Snapshot, before: Tree, t: Tree, done: seq<Path>)
    requires Removing(s, before, t, done)
    ensures Thinned(s, before, t)
  {
  }

  predicate IsDirectory(info: Info) {
    info.Found? && info.node.Dir?
  }

  // The unrecorded directories that the walks of the second phase show.
  ghost function ExtraShown(s: Snapshot, t: Tree, paths: seq<Path>): set<Path> {
    set m, p | m in paths && p in Walk(t, m) && IsDirectory(Lstat(t, p)) && p !in s.dirs :: p
  }

  lemma ExtraIsShown(s: Snapshot, t: Tree)
    requires Coherent(s) && Wf(t)
    ensures forall p :: p in ExtraShown(s, t, s.paths) ==> Managed(s.paths, p) && !LinkForFile(s, t, p)
    ensures Prunable(s, t) ==> forall p :: p in ExtraShown(s, t, s.paths) <==> ExtraIn(s, t, p)
  {
    hide Wf, Lstat, Walk, Coherent, PrunedBelow;
    forall p | p in ExtraShown(s, t, s.paths) ensures Managed(s.paths, p) && !LinkForFile(s, t, p) {
      var m :| m in s.paths && p in Walk(t, m) && IsDirectory(Lstat(t, p));
      ManagedIsProper(s, m);
      WalkIsShown(t, m);
      InTreeIsShown(t, p);
    }
    if Prunable(s, t) {
      forall p ensures p in ExtraShown(s, t, s.paths) <==> ExtraIn(s, t, p) {
        InTreeIsShown(t, p);
        forall m | m in s.paths ensures p in Walk(t, m) <==> p in t && m <= p { WalkWhenPrunable(s, t, m, p); }
      }
    }
  }

  lemma InTreeIsShown(t: Tree, p: Path)
    requires Wf(t)
    ensures p in t ==> Lstat(t, p) == Found(t[p])
  {
    if p in t {
      AncestorsAreDirs(t, p);
      LstatStraight(t, p);
    }
  }

  lemma WalkWhenPrunable(s: Snapshot, t: Tree, m: Path, p: Path)
    requires Coherent(s) && Wf(t) && ExistedStraight(s, t) && Vanished(s, t) && m in s.paths
    ensures p in Walk(t, m) <==> p in t && m <= p
  {
    hide Wf, Lstat, Walk;
    ManagedIsProper(s, m);
    if m in s.existed {
      WalkStraight(t, m);
    } else {
      WalkIsShown(t, m);
      InTreeIsShown(t, m);
      if p in t && m <= p && m != p { AncestorIsDir(t, m, p); }
    }
  }

  lemma ReadableWhenStraight(s: Snapshot, t: Tree, m: Path)
    requires Wf(t) && AllStraight(t, s.paths) && Unblocked(s, t) && m in s.paths
    ensures !Lstat(t, m).Unreadable?
  {
    hide Wf;
    LstatStraight(t, m);
  }

  lemma NoLinkAppears(s: Snapshot, t: Tree, u: Tree, p: Path)
    requires Shrunk(t, u) && !LinkForFile(s, t, p)
    ensures !LinkForFile(s, u, p)
  {
  }

  lemma MkdirStepFrom(s: Snapshot, before: Tree, t: Tree, d: Path)
    requires Coherent(s) && ExistedStraight(s, before) && Filling(s, before, t, s.dirs.Keys) && d in s.dirs
    ensures Filling(s, before, MkdirAll(t, d).tree, s.dirs.Keys)
    ensures Clear(s, before) ==> MkdirAll(t, d).error == None && d in MkdirAll(t, d).tree
  {
    hide Wf, Tidy, Coherent, MkdirAll, OutsideKept, RegionKept, Clear, ExistedStraight;
    FillingKeeps(s, before, t, s.dirs.Keys);
    MkdirStep(s, t, d);
    FillingTransitive(s, before, t, MkdirAll(t, d).tree, s.dirs.Keys, s.dirs.Keys);
  }

  lemma ChmodStepFrom(s: Snapshot, before: Tree, t: Tree, d: Path)
    requires Coherent(s) && ExistedStraight(s, before) && Filling(s, before, t, s.dirs.Keys) && d in s.dirs
    ensures Filling(s, before, Chmod(t, d, s.dirs[d]).tree, s.dirs.Keys)
    ensures d in t ==> Chmod(t, d, s.dirs[d]) == Outcome(t[d := Dir(s.dirs[d])], None)
  {
    hide Wf, Tidy, Coherent, Chmod, OutsideKept, RegionKept, Clear, ExistedStraight;
    FillingKeeps(s, before, t, s.dirs.Keys);
    ChmodStep(s, t, d);
    FillingTransitive(s, before, t, Chmod(t, d, s.dirs[d]).tree, s.dirs.Keys, {d});
  }

  lemma DirectoryShelters(s: Snapshot, before: Tree, t: Tree, d: Path)
    requires Coherent(s) && Wf(t) && Shelters(s, before, t) && d in s.dirs
    ensures Shelters(s, before, MkdirAll(t, d).tree)
  {
    hide Wf, Shelters, Coherent, MkdirAll;
    assert d in Keys(s);
    MkdirShelters(s, t, d, d);
    SheltersTransitive(s, before, t, MkdirAll(t, d).tree);
  }

  lemma ModeShelters(s: Snapshot, before: Tree, t: Tree, d: Path)
    requires Coherent(s) && Wf(t) && Shelters(s, before, t) && d in s.dirs
    ensures Shelters(s, before, Chmod(t, d, s.dirs[d]).tree)
  {
    hide Wf, Shelters, Coherent, Chmod;
    assert d in Keys(s);
    ChmodShelters(s, t, d, s.dirs[d]);
    SheltersTransitive(s, before, t, Chmod(t, d, s.dirs[d]).tree);
  }

  lemma FileShelters(s: Snapshot, t: Tree, f: Path)
    requires Coherent(s) && Wf(t) && f in s.files && f != []
    ensures Shelters(s, t, RewriteFile(t, f, s.files[f]).tree)
  {
    hide Wf, Shelters, Coherent, MkdirAll, WriteFile, Chmod, KindsKept;
    assert f in Keys(s);
    var saved := s.files[f];
    assert Parent(f) <= f;
    MkdirShelters(s, t, f, Parent(f));
    MkdirAllKeepsKinds(t, Parent(f));
    var u := MkdirAll(t, Parent(f)).tree;
    WriteShelters(s, u, f, saved.contents, saved.mode);
    WriteFileKeepsKinds(u, f, saved.contents, saved.mode);
    var v := WriteFile(u, f, saved.contents, saved.mode).tree;
    ChmodShelters(s, v, f, saved.mode);
    SheltersTransitive(s, t, u, v);
    SheltersTransitive(s, t, v, Chmod(v, f, saved.mode).tree);
  }

  lemma BesideReflexive(s: Snapshot, t: Tree)
    ensures SheltersBeside(s, t, t) && SheltersAll(s, t, t)
  {
  }

  lemma SheltersAreBeside(s: Snapshot, t: Tree, u: Tree)
    requires Shelters(s, t, u)
    ensures SheltersBeside(s, t, u)
  {
  }

  lemma RelinkBeside(s: Snapshot, t: Tree, l: Path)
    requires Coherent(s) && Wf(t) && l in s.links
    ensures l != []
    ensures Wf(RelinkTree(t, l, s.links[l]).tree) && SheltersBeside(s, t, RelinkTree(t, l, s.links[l]).tree)
  {
    hide Wf, Shelters, SheltersBeside, Coherent, MkdirAll, RemoveAll, Symlink, Lstat, KindsKept;
    LinkIsProper(s, l);
    BesideReflexive(s, t);
    RemoveAllShrinks(t, l);
    RemoveAllLinkShelters(s, t, l);
    var u := RemoveAll(t, l).tree;
    SheltersAreBeside(s, t, u);
    assert Parent(l) <= l;
    MkdirShelters(s, u, l, Parent(l));
    MkdirAllKeepsKinds(u, Parent(l));
    var v := MkdirAll(u, Parent(l)).tree;
    SheltersAreBeside(s, u, v);
    SymlinkShelters(s, v, l);
    SymlinkKeepsWf(v, s.links[l], l);
    BesideTransitive(s, t, u, v);
    BesideTransitive(s, t, v, Symlink(v, s.links[l], l).tree);
  }

  lemma RelinkStraight(s: Snapshot, t: Tree, l: Path)
    requires Coherent(s) && Wf(t) && l in s.links && LinksAreStraight(s, t)
    ensures l != []
    ensures
      var u := RelinkTree(t, l, s.links[l]).tree;
      LinksAreStraight(s, u) && SheltersAll(s, t, u)
  {
    hide Wf, SheltersAll, LinksAreStraight, Coherent, MkdirAll, RemoveAll, Symlink, Lstat, KindsKept;
    LinkIsProper(s, l);
    BesideReflexive(s, t);
    RemoveAllShrinks(t, l);
    DropLinkStraight(s, t, l);
    var u := RemoveAll(t, l).tree;
    MkdirAllKeepsKinds(u, Parent(l));
    ParentDirectoryStraight(s, u, l);
    var v := MkdirAll(u, Parent(l)).tree;
    PlaceLinkStraight(s, v, l);
    AllTransitive(s, t, u, v);
    AllTransitive(s, t, v, Symlink(v, s.links[l], l).tree);
  }

  lemma LinksStayStraight(s: Snapshot, t0: Tree, t1: Tree, t2: Tree, t3: Tree, t4: Tree)
    requires Coherent(s) && Shrunk(t0, t1) && Shrunk(t1, t2) && KindsKept(t2, t3) && KindsKept(t3, t4)
    requires forall m :: m in s.paths ==> PrunedBelow(s, t1, m)
    ensures LinksAreDirect(s, t0) ==> LinksAreStraight(s, t4)
  {
    hide PrunedBelow;
    if LinksAreDirect(s, t0) {
      forall l | l in s.links ensures Straight(t4, l) {
        DirectLink(s, t0, t1, l);
        ShrunkKeepsPruned(s, t1, t2, l);
        KindsKeptStraight(t2, t3, l);
        KindsKeptStraight(t3, t4, l);
      }
    }
  }

  lemma DirectLink(s: Snapshot, t: Tree, u: Tree, l: Path)
    requires Coherent(s) && LinksAreDirect(s, t) && Shrunk(t, u) && l in s.links
    requires forall m :: m in s.paths ==> PrunedBelow(s, u, m)
    ensures Straight(u, l)
  {
    assert l in Keys(s) && Managed(s.paths, l);
    var m :| m in s.paths && m <= l;
    forall a | a in u && a < l ensures !u[a].Link? {
      PrefixesAreNested(a, m, l);
      if a < m {
        assert Straight(t, m);
      } else {
        assert Managed(s.paths, a);
        assert a in s.dirs;
        assert PrunedBelow(s, u, m);
        assert !Recorded(s, a);
      }
    }
  }

  lemma SheltersReach(s: Snapshot, t: Tree, u: Tree, v: Tree)
    requires Shelters(s, t, u) && SheltersBeside(s, u, v)
    requires LinksAreDirect(s, t) ==> SheltersAll(s, u, v)
    ensures forall q :: OutOfReach(s, t, q) ==> Spares(s, t, v, q)
  {
    hide LinksAreDirect, UnaimedByRecorded, Unaimed;
    forall q | OutOfReach(s, t, q) ensures Spares(s, t, v, q) {
      assert Spares(s, t, u, q) && Unaimed(u, q);
      assert Watched(s, u, q);
      assert Spares(s, u, v, q);
    }
  }

  lemma ThinnedAncestors(s: Snapshot, t: Tree, u: Tree)
    requires Coherent(s) && Thinned(s, t, u) && AllStraight(t, s.paths)
    ensures AllStraight(u, s.paths)
    ensures Unblocked(s, t) <==> Unblocked(s, u)
    ensures Restorable(s, t) <==> Restorable(s, u)
  {
    ThinnedKeepsAncestors(s, t, u);
  }

  lemma CoherentPaths(s: Snapshot)
    requires Coherent(s)
    ensures forall m :: m in s.existed ==> m in s.paths
    ensures s.files.Keys !! s.links.Keys !! s.dirs.Keys
  {
  }

  lemma TidyIsStraight(s: Snapshot, t: Tree)
    requires Coherent(s) && Tidy(s, t) && ExistedStraight(s, t)
    ensures KeysStraight(s, t)
  {
    forall k | k in Keys(s) ensures Straight(t, k) { KeyIsStraight(s, t, k); }
  }

  lemma DirectoriesGround(s: Snapshot, t: Tree, u: Tree)
    requires Coherent(s) && ExistedStraight(s, t) && Restorable(s, t) && Filling(s, t, u, s.dirs.Keys)
    requires Clear(s, t) ==> forall d :: d in s.dirs ==> d in u && u[d] == Dir(s.dirs[d])
    ensures Clear(s, t) && Grounded(s, u) && Restorable(s, u)
  {
    FillingKeeps(s, t, u, s.dirs.Keys);
    forall f | f in s.files && f in u ensures !u[f].Link? { KeySorts(s, f); }
  }

  lemma FilesGround(s: Snapshot, t: Tree, u: Tree)
    requires Coherent(s) && Grounded(s, t) && Filling(s, t, u, s.files.Keys)
    ensures Grounded(s, u)
  {
    CoherentPaths(s);
    FillingStaysGrounded(s, t, u, s.files.Keys);
  }

  lemma PhasesFill(s: Snapshot, t: Tree, u: Tree, v: Tree)
    requires Coherent(s) && Filling(s, t, u, s.files.Keys) && Filling(s, u, v, s.links.Keys)
    requires forall d :: d in s.dirs ==> d in t && t[d] == Dir(s.dirs[d])
    requires forall f :: f in s.files ==> f in u && u[f] == File(s.files[f].contents, s.files[f].mode)
    requires forall l :: l in s.links ==> l in v && v[l] == Link(s.links[l])
    ensures Filled(s, v) && Tidy(s, v)
  {
    hide Wf, OutsideKept, Tidy, Coherent;
    CoherentPaths(s);
    forall d | d in s.dirs ensures d in v && v[d] == t[d] { DirKey(s, d); }
    forall f | f in s.files ensures f in v && v[f] == u[f] { KeySorts(s, f); }
  }

  lemma DirKey(s: Snapshot, d: Path)
    requires Coherent(s) && d in s.dirs
    ensures Managed(s.paths, d)
  {
    assert d in Keys(s);
  }

  lemma OutsideReflexive(s: Snapshot, t: Tree)
    ensures OutsideKept(s, t, t)
  {
  }

  lemma UnblockedMeans(s: Snapshot, t: Tree)
    ensures Unblocked(s, t) <==> forall j :: 0 <= j < |s.paths| ==> !Blocked(t, s.paths[j])
  {
    hide Blocked;
  }

  lemma StraightStaysUnblocked(s: Snapshot, t: Tree, u: Tree)
    requires Coherent(s) && Thinned(s, t, u) && AllStraight(t, s.paths)
    ensures AllStraight(u, s.paths) && (Unblocked(s, t) <==> Unblocked(s, u))
  {
    ThinnedAncestors(s, t, u);
  }

  lemma UnblockedIsRestorable(s: Snapshot, t: Tree)
    requires Coherent(s) && NoFileLinks(s, t) && Unblocked(s, t)
    ensures Restorable(s, t)
  {
    hide Blocked;
    CoherentPaths(s);
    forall f | f in s.files && f in t ensures !t[f].Link? { assert !LinkForFile(s, t, f); }
  }

  // Without links at recorded files there is nothing to write through.
  lemma NothingLeadsOut(s: Snapshot, t: Tree)
    ensures NoFileLinks(s, t) ==> LinksLeadOut(s, t) && LinksLeadToCopies(s, t)
  {
  }

  // On the way to the file loop the outside and the links at recorded files
  // stay as they are.
  lemma DirectoriesLeadOut(s: Snapshot, t0: Tree, t2: Tree, t3: Tree)
    requires Coherent(s) && Thinned(s, t0, t2) && Filling(s, t2, t3, s.dirs.Keys) && KindsKept(t2, t3)
    ensures OutsideKept(s, t0, t3) && SameFileLinks(s, t0, t3)
    ensures LinksLeadOut(s, t0) ==> LinksLeadOut(s, t3)
  {
    hide Wf, Tidy, Coherent, LinksLeadOut, RegionKept;
    assert OutsideKept(s, t0, t2);
    OutsideKeptTransitive(s, t0, t2, t3);
    if LinksLeadOut(s, t0) { LinksStillLeadOut(s, t0, t3); }
  }

  lemma PhasesWriteThrough(s: Snapshot, t0: Tree, t2: Tree, t3: Tree, t4: Tree, t5: Tree)
    requires Coherent(s) && LinksLeadOut(s, t0) && Thinned(s, t0, t2)
    requires Filling(s, t2, t3, s.dirs.Keys) && KindsKept(t2, t3)
    requires LinksLeadOut(s, t3) ==> WrittenThrough(s, t3, t4, s.files.Keys)
    requires OutsideKept(s, t4, t5)
    ensures WrittenThrough(s, t0, t5, s.files.Keys)
    ensures OutsideKept(s, t0, t5) <==> LinksLeadToCopies(s, t0)
  {
    hide *;
    DirectoriesLeadOut(s, t0, t2, t3);
    OutsideThroughout(s, t0, t3, t4, t5);
    OutsideKeptExactly(s, t0, t5);
  }

  lemma FillingReflexive(s: Snapshot, t: Tree, keys: set<Path>)
    requires Wf(t) && Tidy(s, t)
    ensures Filling(s, t, t, keys) && KindsKept(t, t)
  {
  }

  lemma KindsKeptReflexive(t: Tree)
    ensures KindsKept(t, t)
  {
  }

  lemma KindsKeptDomain(t: Tree, u: Tree)
    requires KindsKept(t, u)
    ensures forall p :: p in t ==> p in u
  {
  }

  lemma FillingKeeps(s: Snapshot, t: Tree, u: Tree, keys: set<Path>)
    requires Coherent(s) && Filling(s, t, u, keys) && ExistedStraight(s, t)
    ensures Wf(u) && Tidy(s, u) && ExistedStraight(s, u)
    ensures Clear(s, t) <==> Clear(s, u)
  {
    OutsideKeptAncestors(s, t, u);
  }

  lemma DeeperIsEarlier(sorted: seq<Path>, i: nat, c: Path)
    requires DeepestFirst(sorted) && i < |sorted| && c in sorted && |c| > |sorted[i]|
    ensures c in sorted[..i]
  {
    var j :| 0 <= j < |sorted| && sorted[j] == c;
    assert j < i;
    assert sorted[..i][j] == c;
  }

  lemma PrunedIsTidy(s: Snapshot, before: Tree, t: Tree, sorted: seq<Path>)
    requires forall m :: m in s.paths ==> PrunedBelow(s, before, m)
    requires forall p :: p in sorted <==> ExtraIn(s, before, p)
    requires Removing(s, before, t, sorted)
    ensures Tidy(s, t)
  {
    forall p | p in t && Managed(s.paths, p) ensures if t[p].Dir? then p in s.dirs else Recorded(s, p) {
      var m :| m in s.paths && m <= p;
      assert PrunedBelow(s, before, m);
      assert p !in sorted;
      assert !ExtraIn(s, before, p);
    }
  }

  lemma RemovedBelowAbsent(s: Snapshot, t: Tree, m: Path)
    requires Coherent(s) && m in s.paths && m !in s.existed
    ensures Thinned(s, t, Without(t, m)) && PrunedBelow(s, Without(t, m), m)
  {
    forall p | p in t && m <= p ensures Managed(s.paths, p) && p !in s.files {
      assert p in s.files ==> p in Keys(s);
    }
  }

  // An unrecorded directory holds nothing that was recorded.
  lemma ExtraHasNoRecordedChild(s: Snapshot, t: Tree, p: Path, c: Path)
    requires Coherent(s) && Wf(t)
    requires forall m :: m in s.paths ==> PrunedBelow(s, t, m)
    requires Managed(s.paths, p) && p !in s.dirs && c in t && p < c
    ensures Managed(s.paths, c) && t[c].Dir? && c !in s.dirs && |c| > |p|
  {
    var m :| m in s.paths && m <= p;
    assert m <= c;
    assert c in Keys(s) ==> p in s.dirs;
    assert PrunedBelow(s, t, m);
  }
}
