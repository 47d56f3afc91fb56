// The project generators run as a transaction
// (internal/command/development.go): on failure the snapshot is restored.
module Generators {
  import opened FileTree
  import opened Snapshots
  import opened Shelter
  import opened Outside
  import opened Phases
  import opened Mirror
  import opened MirroredCalls
  import opened Reflection
  import opened Rollback

  // A generator is an arbitrary change of the tree that may also fail.
  type Generator = Tree -> (Tree, bool)

  datatype Project = Project(hasWeb: bool, hasGRPC: bool, hasServer: bool)

  // Generators leave a tree: every node lies in a directory. They may replace
  // any node by any other.
  ghost predicate Tame(g: Generator) {
    forall t :: Wf(t) ==> Wf(g(t).0)
  }

  lemma PathsAreSeparate()
    ensures Separate(PATHS)
  {
    forall m, n | m in PATHS && n in PATHS && m <= n ensures m == n {
      assert forall k :: 0 <= k < |m| ==> m[k] == n[k];
      assert m[0] == n[0];
      assert |m| > 1 ==> m[1] == n[1];
      assert |m| > 2 ==> m[2] == n[2];
      assert |m| > 3 ==> m[3] == n[3];
    }
  }

  lemma TameStep(g: Generator, t: Tree)
    requires Tame(g) && Wf(t)
    ensures Wf(g(t).0)
  {
  }

  // No originally regular managed file is now a link.
  ghost predicate NoLinkForFile(before: Tree, left: Tree) {
    forall f :: f in before && Managed(PATHS, f) && before[f].File? && f in left ==> !left[f].Link?
  }

  // In terms of trees: what the generators left can be brought back.
  ghost predicate CanComeBack(before: Tree, left: Tree) {
    && NoLinkForFile(before, left)
    && (forall m :: m in PATHS && m in before ==> !Blocked(left, m))
  }

  lemma RestorableMeansComeBack(s: Snapshot, before: Tree, left: Tree)
    requires s.paths == PATHS && Captures(s, before)
    ensures Restorable(s, left) <==> CanComeBack(before, left)
    ensures NoFileLinks(s, left) <==> NoLinkForFile(before, left)
    ensures forall t, u :: OutsideKept(s, t, u) ==>
      forall p :: p in t && !Managed(PATHS, p) ==> p in u && u[p] == t[p]
  {
    hide Managed, Blocked;
    FilesWere(s, before);
    ExistedWere(s, before);
    hide Captures;
    forall f ensures LinkForFile(s, left, f) <==>
                       f in before && Managed(PATHS, f) && before[f].File? && f in left && left[f].Link? {}
  }

  lemma FilesWere(s: Snapshot, before: Tree)
    requires s.paths == PATHS && Captures(s, before)
    ensures forall f :: f in s.files <==> f in before && Managed(PATHS, f) && before[f].File?
  {
    forall f | Managed(PATHS, f) ensures f in s.files <==> f in before && before[f].File? {
      RecordedOnce(s, before, f);
    }
    forall f | f in s.files ensures Managed(PATHS, f) {}
  }

  lemma ExistedWere(s: Snapshot, before: Tree)
    requires s.paths == PATHS && Captures(s, before)
    ensures forall m :: m in s.existed <==> m in PATHS && m in before
  {
    hide Managed;
  }

  // The snapshot that is taken of a tree.
  ghost function Taken(t: Tree): Snapshot {
    var v := View(t, PATHS);
    var region := Region(PATHS, v);
    Snapshot(PATHS, (set m | m in PATHS && m in v), FilesOf(v, region), LinksOf(v, region), DirsOf(v, region))
  }

  lemma TakenIsTheSnapshot(s: Snapshot, t: Tree)
    requires s.paths == PATHS
    ensures Captures(s, View(t, PATHS)) <==> s == Taken(t)
  {
    hide View;
  }

  lemma TakenWhenStraight(t: Tree)
    requires Wf(t) && Separate(PATHS) && AllStraight(t, PATHS)
    ensures Captures(Taken(t), t)
  {
    hide Wf, Separate, View, AllStraight, Captures;
    TakenIsTheSnapshot(Taken(t), t);
    ViewIsRegion(t, PATHS);
    SameRegionBack(PATHS, t, View(t, PATHS));
    SameRegionSameRecord(Taken(t), View(t, PATHS), t);
  }

  // The generators that a project asks for, in order.
  ghost function Selected(project: Project, http: Generator, protobuf: Generator, bindings: Generator): seq<Generator> {
    (if project.hasWeb then [http] else [])
    + (if project.hasGRPC then [protobuf] else [])
    + (if project.hasServer then [bindings] else [])
  }

  // The tree on which the i-th generator runs: each one gets what the one
  // before it left.
  ghost function TreeBefore(gs: seq<Generator>, t: Tree, i: nat): Tree
    requires i <= |gs|
  {
    if i == 0 then t else gs[i - 1](TreeBefore(gs, t, i - 1)).0
  }

  // Whether the i-th generator answers true on the tree it is given.
  ghost predicate Succeeds(gs: seq<Generator>, t: Tree, i: nat)
    requires i < |gs|
  {
    gs[i](TreeBefore(gs, t, i)).1
  }

  // n generators run: up to the first that answers false, or all.
  ghost predicate Ran(gs: seq<Generator>, t: Tree, n: nat) {
    && n <= |gs|
    && (forall i :: 0 <= i < n - 1 ==> Succeeds(gs, t, i))
    && (n < |gs| ==> n > 0 && !Succeeds(gs, t, n - 1))
  }

  ghost predicate AllSucceed(gs: seq<Generator>, t: Tree) {
    forall i :: 0 <= i < |gs| ==> Succeeds(gs, t, i)
  }

  // The tree after the generators that run, and whether all succeeded.
  ghost predicate Reached(gs: seq<Generator>, t: Tree, now: Tree, ok: bool) {
    && (ok <==> AllSucceed(gs, t))
    && exists n :: Ran(gs, t, n) && now == TreeBefore(gs, t, n)
  }

  lemma NoneRan(t: Tree)
    ensures Reached([], t, t, true)
  {
    assert Ran([], t, 0) && TreeBefore([], t, 0) == t;
  }

  // One more generator, run on what the others left when they all succeeded.
  lemma OneMoreRan(gs: seq<Generator>, g: Generator, t: Tree, now: Tree, ok: bool)
    requires Reached(gs, t, now, ok)
    ensures ok ==> Reached(gs + [g], t, g(now).0, g(now).1)
    ensures !ok ==> Reached(gs + [g], t, now, false)
  {
    var more := gs + [g];
    var n :| Ran(gs, t, n) && now == TreeBefore(gs, t, n);
    forall i | 0 <= i <= |gs| ensures TreeBefore(more, t, i) == TreeBefore(gs, t, i) { SameBefore(gs, more, t, i); }
    assert forall i :: 0 <= i < |gs| ==> (Succeeds(more, t, i) <==> Succeeds(gs, t, i));
    if ok {
      assert n == |gs|;
      assert Succeeds(more, t, |gs|) <==> g(now).1;
      assert Ran(more, t, |gs| + 1) && TreeBefore(more, t, |gs| + 1) == g(now).0;
    } else {
      LastRanFailed(gs, t, n);
      assert Ran(more, t, n);
    }
  }

  lemma LastRanFailed(gs: seq<Generator>, t: Tree, n: nat)
    requires Ran(gs, t, n) && !AllSucceed(gs, t)
    ensures n > 0 && !Succeeds(gs, t, n - 1)
  {
  }

  lemma ReachedMeans(gs: seq<Generator>, t: Tree, now: Tree, ok: bool)
    requires Reached(gs, t, now, ok)
    ensures ok <==> AllSucceed(gs, t)
    ensures exists n :: Ran(gs, t, n) && now == TreeBefore(gs, t, n)
  {
  }

  lemma {:induction false} SameBefore(gs: seq<Generator>, more: seq<Generator>, t: Tree, i: nat)
    requires i <= |gs| <= |more| && more[..|gs|] == gs
    ensures TreeBefore(more, t, i) == TreeBefore(gs, t, i)
  {
    if i > 0 {
      SameBefore(gs, more, t, i - 1);
      assert more[i - 1] == more[..|gs|][i - 1];
    }
  }

  // Generators that leave any tree whatsoever. On failure the restore works
  // from the snapshot of what was there before.
  method RunProjectGenerators(
      disk: Workspace, project: Project, http: Generator, protobuf: Generator, bindings: Generator, printed: bool)
    returns (ok: bool, ghost left: Tree)
    requires Wf(disk.tree)
    requires Tame(http) && Tame(protobuf) && Tame(bindings)
    modifies disk
    ensures Wf(disk.tree)
    ensures
      var gs := Selected(project, http, protobuf, bindings);
      && (ok <==> Acceptable(old(disk.tree), PATHS) && AllSucceed(gs, old(disk.tree)) && printed)
      && (Acceptable(old(disk.tree), PATHS) ==>
            exists n :: Ran(gs, old(disk.tree), n) && left == TreeBefore(gs, old(disk.tree), n))
    ensures ok ==> disk.tree == left
    ensures !Acceptable(old(disk.tree), PATHS) ==> !ok && disk.tree == old(disk.tree)
    ensures !ok && Acceptable(old(disk.tree), PATHS) ==>
      RolledBack(Taken(old(disk.tree)), left, disk.tree) && ShowsAgain(old(disk.tree), left, disk.tree)
    ensures !ok && Acceptable(old(disk.tree), PATHS) && AllStraight(old(disk.tree), PATHS) ==>
      ComesBack(old(disk.tree), left, disk.tree)
  {
    hide Acceptable, Wf, AllStraight, Captures, SameRegion, Managed, Coherent, Tame, Separate, View, Taken,
      RolledBack, ComesBack, ShowsAgain, RegionClosed, Reached;
    PathsAreSeparate();
    ghost var before := disk.tree;
    left := before;
    var snapshot := TakeSnapshot(disk.tree, PATHS);
    if snapshot.Err? { return false, left; }
    var s := snapshot.value;
    ViewIsClosed(before, PATHS);
    CapturesIsCoherent(s, View(before, PATHS));
    TakenIsTheSnapshot(s, before);
    ok := true;
    ghost var gs: seq<Generator> := [];
    NoneRan(before);
    if project.hasWeb {
      TameStep(http, disk.tree);
      OneMoreRan(gs, http, before, disk.tree, ok);
      gs := gs + [http];
      var (t, done) := http(disk.tree);
      disk.tree, ok := t, done;
    }
    if project.hasGRPC {
      OneMoreRan(gs, protobuf, before, disk.tree, ok);
      gs := gs + [protobuf];
    }
    if ok && project.hasGRPC {
      TameStep(protobuf, disk.tree);
      var (t, done) := protobuf(disk.tree);
      disk.tree, ok := t, done;
    }
    if project.hasServer {
      OneMoreRan(gs, bindings, before, disk.tree, ok);
      gs := gs + [bindings];
    }
    if ok && project.hasServer {
      TameStep(bindings, disk.tree);
      var (t, done) := bindings(disk.tree);
      disk.tree, ok := t, done;
    }
    assert gs == Selected(project, http, protobuf, bindings);
    ReachedMeans(gs, before, disk.tree, ok);
    ok := ok && printed;
    left := disk.tree;
    if !ok {
      var errors := disk.Restore(s);
      RestoredIsRolledBack(s, left, disk.tree);
      RolledBackShowsAgain(before, left, disk.tree);
      if AllStraight(before, PATHS) {
        TakenWhenStraight(before);
        RolledBackComesBack(s, before, left, disk.tree);
      }
    }
  }

  // What a restore promises about the tree it found and the tree it left.
  ghost predicate RolledBack(s: Snapshot, left: Tree, after: Tree) {
    && (ExistedStraight(s, left) && Restorable(s, left) ==> Captures(s, after))
    && (AllStraight(left, s.paths) ==> (Captures(s, after) <==> Restorable(s, left)))
    && (AllStraight(left, s.paths) && NoFileLinks(s, left) ==> OutsideKept(s, left, after))
    && (AllStraight(left, s.paths) && LinksLeadOut(s, left) ==>
          && WrittenThrough(s, left, after, s.files.Keys)
          && (OutsideKept(s, left, after) <==> LinksLeadToCopies(s, left)))
    && (forall q :: OutOfReach(s, left, q) ==> Spares(s, left, after, q))
    && (ObstaclesOutOfReach(s, left) ==> (Captures(s, after) <==> ExistedStraight(s, left) && Restorable(s, left)))
    && (Anchored(s, left) && Restorable(s, View(left, s.paths)) ==>
          Captures(s, View(after, s.paths)) && SameOffPlaces(s.paths, left, after))
  }

  lemma RestoredIsRolledBack(s: Snapshot, left: Tree, after: Tree)
    requires ExistedStraight(s, left) && Restorable(s, left) ==> Captures(s, after)
    requires AllStraight(left, s.paths) ==> (Captures(s, after) <==> Restorable(s, left))
    requires AllStraight(left, s.paths) && NoFileLinks(s, left) ==> OutsideKept(s, left, after)
    requires AllStraight(left, s.paths) && LinksLeadOut(s, left) ==>
      && WrittenThrough(s, left, after, s.files.Keys)
      && (OutsideKept(s, left, after) <==> LinksLeadToCopies(s, left))
    requires forall q :: OutOfReach(s, left, q) ==> Spares(s, left, after, q)
    requires ObstaclesOutOfReach(s, left) ==> (Captures(s, after) <==> ExistedStraight(s, left) && Restorable(s, left))
    requires Anchored(s, left) && Restorable(s, View(left, s.paths)) ==>
      Captures(s, View(after, s.paths)) && SameOffPlaces(s.paths, left, after)
    ensures RolledBack(s, left, after)
  {
  }

  // Every managed name that showed something still leads to a place, whatever
  // links stand above it, the places are apart, and no name that showed a file
  // shows a link.
  ghost predicate CanShowAgain(before: Tree, left: Tree) {
    var was, now := View(before, PATHS), View(left, PATHS);
    && Sound(PATHS, left)
    && (forall m :: m in PATHS && m in was ==> Leads(left, m))
    && (forall f :: f in was && was[f].File? && f in now ==> !now[f].Link?)
  }

  // Then the managed names show again what they showed before, and nothing has
  // changed but at the places they lead to and below.
  ghost predicate ShowsAgain(before: Tree, left: Tree, after: Tree) {
    CanShowAgain(before, left) ==>
      View(after, PATHS) == View(before, PATHS) && SameOffPlaces(PATHS, left, after)
  }

  lemma RolledBackShowsAgain(before: Tree, left: Tree, after: Tree)
    requires Wf(before) && Wf(left) && Wf(after) && RolledBack(Taken(before), left, after)
    ensures ShowsAgain(before, left, after)
  {
    hide AllStraight, Captures, OutOfReach, Spares, ObstaclesOutOfReach, OutsideKept, NoFileLinks, LinksLeadOut,
      WrittenThrough, LinksLeadToCopies, View, Wf, Leads, Apart, SameOffPlaces, Restorable, PATHS, Separate, Taken;
    if CanShowAgain(before, left) {
      var s := Taken(before);
      TakenPaths(before);
      TakenIsTheSnapshot(s, before);
      AnchoredWhenShown(before, left);
      ViewsAgree(before, left);
      CapturedRegionsAgree(s, View(before, PATHS), View(after, PATHS));
      SameViews(before, after);
    }
  }

  lemma TakenPaths(t: Tree)
    ensures Taken(t).paths == PATHS
  {
    hide View;
  }

  lemma AnchoredWhenShown(before: Tree, left: Tree)
    requires CanShowAgain(before, left)
    ensures Anchored(Taken(before), left)
  {
    hide View, Sound, Leads;
  }

  lemma ViewsAgree(before: Tree, left: Tree)
    requires CanShowAgain(before, left) && Wf(left)
    ensures Restorable(Taken(before), View(left, PATHS))
  {
    hide View, Wf, Leads, Apart, Separate, PATHS, Blocked;
    forall m | m in PATHS ensures !Blocked(View(left, PATHS), m) { NothingAbove(PATHS, left, m); }
    assert forall f :: f in Taken(before).files ==> f in View(before, PATHS) && View(before, PATHS)[f].File?;
  }

  lemma SameViews(t: Tree, u: Tree)
    requires Wf(t) && Wf(u) && SameRegion(PATHS, View(t, PATHS), View(u, PATHS))
    ensures View(t, PATHS) == View(u, PATHS)
  {
    PathsAreSeparate();
    hide View, Wf, PATHS, Separate;
    forall p | p in View(t, PATHS) || p in View(u, PATHS) ensures Managed(PATHS, p) {
      if p in View(t, PATHS) { var m := ViewIsManaged(PATHS, t, p); } else { var m := ViewIsManaged(PATHS, u, p); }
    }
    assert forall p :: p in View(t, PATHS) <==> p in View(u, PATHS);
  }

  // No link above a managed path that was there before.
  ghost predicate NoLinkAboveOriginal(before: Tree, left: Tree) {
    forall m :: m in PATHS && m in before ==> Straight(left, m)
  }

  // In terms of trees: the region is back exactly when it can come back, if no
  // link stands above a managed path; it is back if it can come back and no
  // link stands above a managed path that was there before.
  ghost predicate ComesBack(before: Tree, left: Tree, after: Tree) {
    && (AllStraight(left, PATHS) ==> (SameRegion(PATHS, before, after) <==> CanComeBack(before, left)))
    && (NoLinkAboveOriginal(before, left) && CanComeBack(before, left) ==> SameRegion(PATHS, before, after))
    && (AllStraight(left, PATHS) && NoLinkForFile(before, left) ==>
          forall p :: p in left && !Managed(PATHS, p) ==> p in after && after[p] == left[p])
  }

  lemma RolledBackComesBack(s: Snapshot, before: Tree, left: Tree, after: Tree)
    requires s.paths == PATHS && Captures(s, before) && RolledBack(s, left, after)
    ensures ComesBack(before, left, after)
  {
    hide AllStraight, Captures, SameRegion, Managed, CanComeBack, Restorable, OutOfReach, Spares, ObstaclesOutOfReach,
      OutsideKept, NoLinkForFile, NoFileLinks, LinksLeadOut, WrittenThrough, LinksLeadToCopies;
    RestorableMeansComeBack(s, before, left);
    CapturedRegionsAgree(s, before, after);
    StraightMeansNoLinkAbove(s, before, left);
  }

  lemma StraightMeansNoLinkAbove(s: Snapshot, before: Tree, left: Tree)
    requires s.paths == PATHS && Captures(s, before)
    ensures ExistedStraight(s, left) <==> NoLinkAboveOriginal(before, left)
  {
  }
}
