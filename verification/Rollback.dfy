// The restore of a snapshot (internal/command/development.go): six phases that
// bring the managed region back from whatever tree the generators left.
module Rollback {
  import opened FileTree
  import opened Snapshots
  import opened Straying
  import opened Shelter
  import opened Outside
  import opened Phases
  import opened Mirror
  import opened Reflection
  import opened Turns

  class Workspace {
    var tree: Tree

    constructor (t: Tree)
      ensures tree == t
    {
      tree := t;
    }

    // Phase 1: remove what did not exist, and every file and link that has no
    // recorded counterpart. Nothing but recorded files, recorded links and
    // directories is left at or below a managed path, whatever tree it meets.
    method Prune(s: Snapshot) returns (errors: seq<Errno>)
      requires Coherent(s) && Wf(tree)
      modifies this
      ensures Wf(tree) && Shrunk(old(tree), tree) && Shelters(s, old(tree), tree)
      ensures Vanished(s, tree) && forall m :: m in s.paths ==> PrunedBelow(s, tree, m)
      ensures AllStraight(old(tree), s.paths) ==> Thinned(s, old(tree), tree)
      ensures AllStraight(old(tree), s.paths) ==> (errors == [] <==> Unblocked(s, old(tree)))
      ensures PrunePhase(s, old(tree), tree)
    {
      hide Lstat, PrunedBelow, Wf, Thinned, Coherent, Unblocked, AllStraight, Shelters, Shrunk, Straight, Blocked,
        Anchored, PrunedUpTo, PrunedBehind;
      errors := [];
      StartThin(s, tree);
      ghost var before := tree;
      ghost var straight, anchored := AllStraight(before, s.paths), Anchored(s, before);
      SheltersReflexive(s, before);
      ShrunkReflexive(before);
      if anchored { NonePruned(s, before); }
      for i := 0 to |s.paths|
        invariant Wf(tree) && Shrunk(before, tree) && Shelters(s, before, tree)
        invariant forall j :: 0 <= j < i ==> PrunedBelow(s, tree, s.paths[j])
        invariant forall j :: 0 <= j < i && s.paths[j] !in s.existed ==> !Lstat(tree, s.paths[j]).Found?
        invariant straight ==> Thinned(s, before, tree)
        invariant straight ==> (errors == [] <==> forall j :: 0 <= j < i ==> !Blocked(before, s.paths[j]))
        invariant anchored ==> PrunedUpTo(s, before, tree, i)
      {
        ghost var here := tree;
        var m := s.paths[i];
        if straight { ThinnedIsStraight(s, before, here, m); }
        if anchored { StillAnchored(s, before, here, i); }
        var failed := PruneAt(s, m);
        errors := errors + failed;
        ShrunkTransitive(before, here, tree);
        SheltersTransitive(s, before, here, tree);
        if straight { ThinnedTransitive(s, before, here, tree); }
        if anchored { OneMorePruned(s, before, here, tree, i); }
        if !Straight(here, m) { NothingBelowLink(s, here, tree, m); }
        forall j | 0 <= j < i
          ensures PrunedBelow(s, tree, s.paths[j])
          ensures s.paths[j] !in s.existed ==> !Lstat(tree, s.paths[j]).Found?
        {
          ShrunkKeepsPruned(s, here, tree, s.paths[j]);
          MissingStaysMissing(here, tree, s.paths[j]);
        }
      }
      assert Vanished(s, tree);
      UnblockedMeans(s, before);
    }

    method PruneAt(s: Snapshot, m: Path) returns (errors: seq<Errno>)
      requires Coherent(s) && Wf(tree) && m in s.paths
      modifies this
      ensures Wf(tree) && Shrunk(old(tree), tree) && Shelters(s, old(tree), tree)
      ensures m !in s.existed ==> !Lstat(tree, m).Found?
      ensures Straight(old(tree), m) ==> Thinned(s, old(tree), tree) && PrunedBelow(s, tree, m)
      ensures Straight(old(tree), m) ==> (errors == [] <==> !Blocked(old(tree), m))
      ensures Anchored(s, old(tree)) ==> PrunedBehind(s, old(tree), tree, m)
    {
      hide Wf, Lstat, RemoveAll, Remove, Walk, Shelters, Shrunk, Thinned, PrunedBelow, Coherent, Straight, Blocked,
        Anchored, PrunedBehind, Face;
      errors := [];
      ghost var straight, anchored := Straight(tree, m), Anchored(s, tree);
      ManagedIsProper(s, m);
      if m !in s.existed {
        if straight {
          RemoveAllStraight(tree, m);
          RemovedBelowAbsent(s, tree, m);
        }
        if anchored { AbsentIsPruned(s, tree, m); }
        RemoveAllShrinks(tree, m);
        RemoveAbsentShelters(s, tree, m);
        var o := RemoveAll(tree, m);
        tree := o.tree;
        errors := Fail(errors, o);
        return;
      }
      SheltersReflexive(s, tree);
      ShrunkReflexive(tree);
      if straight { LstatStraight(tree, m); NothingToPrune(s, tree, m); }
      if anchored { ExistingIsPruned(s, tree, m); }
      match Lstat(tree, m) {
        case Missing =>
        case Unreadable(e) => errors := errors + [e];
        case Found(node) =>
          if node.Dir? {
            errors := PruneDirectory(s, m);
          } else if m !in s.files {
            if straight { PruneLeaf(s, tree, m); }
            RemoveShrinks(tree, m);
            RemoveShelters(s, tree, m);
            var o := Remove(tree, m);
            tree := o.tree;
            errors := Fail(errors, o);
          }
      }
    }

    // The walk below one managed path; the first failing removal ends it.
    method PruneDirectory(s: Snapshot, m: Path) returns (errors: seq<Errno>)
      requires Coherent(s) && Wf(tree) && m in s.paths && m != []
      modifies this
      ensures Wf(tree) && Shrunk(old(tree), tree) && Shelters(s, old(tree), tree)
      ensures Straight(old(tree), m) && m in old(tree) && old(tree)[m].Dir? ==>
        Thinned(s, old(tree), tree) && PrunedBelow(s, tree, m) && errors == []
      ensures Anchored(s, old(tree)) && m in s.existed ==> PrunedBehind(s, old(tree), tree, m)
    {
      hide Lstat, Remove, Walk, Wf, Pruning, Shelters, Shrunk, Thinned, PrunedBelow, Straight, Anchored, PrunedBehind,
        WalkingBehind, Coherent;
      errors := [];
      ghost var before := tree;
      ghost var good := Straight(before, m) && m in before && before[m].Dir?;
      SheltersReflexive(s, before);
      ShrunkReflexive(before);
      WalkIsShown(before, m);
      ghost var anchored := Anchored(s, before) && m in s.existed;
      if good { PruningStarts(s, before, m); }
      if anchored { PruningBegins(s, before, m); }
      var todo := Walk(tree, m);
      while todo != {}
        invariant todo <= Walk(before, m)
        invariant Wf(tree) && Shrunk(before, tree) && Shelters(s, before, tree)
        invariant good ==> Pruning(s, before, tree, m, todo) && errors == []
        invariant anchored ==> WalkingBehind(s, before, tree, m, todo)
        decreases |todo|
      {
        var p :| p in todo;
        assert Managed(s.paths, p);
        ghost var here := tree;
        var entry := Lstat(tree, p);
        if good { PruneTurn(s, before, here, m, todo, p); }
        if anchored { PruneTurnBehind(s, before, here, m, todo, p); }
        todo := todo - {p};
        if entry.Found? && !entry.node.Dir? && p !in s.files && p !in s.links {
          RemoveShrinks(here, p);
          RemoveShelters(s, here, p);
          ShrunkTransitive(before, here, Remove(here, p).tree);
          SheltersTransitive(s, before, here, Remove(here, p).tree);
          var o := Remove(tree, p);
          tree := o.tree;
          errors := Fail(errors, o);
          if o.error.Some? { return; }
        }
      }
      if good { PruningEnds(s, before, tree, m); }
      if anchored { PruningDone(s, before, tree, m); }
    }

    // Phase 2: remove the directories that were not recorded, deepest first.
    method RemoveExtraDirectories(s: Snapshot) returns (errors: seq<Errno>)
      requires Coherent(s) && Wf(tree)
      modifies this
      ensures Wf(tree) && Shrunk(old(tree), tree) && Shelters(s, old(tree), tree)
      ensures Prunable(s, old(tree)) ==> Thinned(s, old(tree), tree) && Tidy(s, tree)
      ensures Prunable(s, old(tree)) && AllStraight(old(tree), s.paths) && Unblocked(s, old(tree)) ==> errors == []
      ensures ExtraPhase(s, old(tree), tree)
    {
      hide Wf, Remove, Removing, Shelters, Shrunk, Thinned, Tidy, Coherent, Unblocked, AllStraight, Prunable, ExtraIn,
        DeepestFirst, Distinct, LinkForFile, Anchored, Face, Holds, RemovingBehind, ExtraShown;
      ghost var before := tree;
      ghost var good, anchored := Prunable(s, before), Anchored(s, before) && Prunable(s, Face(s, before));
      SheltersReflexive(s, before);
      ShrunkReflexive(before);
      var extra;
      extra, errors := ExtraDirectories(s);
      var sorted := SortDeepestFirst(extra);
      if good { RemovingStarts(s, before); }
      if anchored { RemovingBegins(s, before, extra); }
      for i := 0 to |sorted|
        invariant Wf(tree) && Shrunk(before, tree) && Shelters(s, before, tree)
        invariant good ==> Removing(s, before, tree, sorted[..i])
        invariant good && AllStraight(before, s.paths) && Unblocked(s, before) ==> errors == []
        invariant anchored ==> RemovingBehind(s, before, tree, sorted[..i])
      {
        var p := sorted[i];
        ghost var here := tree;
        assert p in extra;
        if good { RemoveExtraStep(s, before, here, sorted, i); }
        if anchored { RemoveExtraBehind(s, before, here, sorted, i); }
        NoLinkAppears(s, before, here, p);
        RemoveShrinks(here, p);
        RemoveShelters(s, here, p);
        ShrunkTransitive(before, here, Remove(here, p).tree);
        SheltersTransitive(s, before, here, Remove(here, p).tree);
        var o := Remove(tree, p);
        tree := o.tree;
        if o.error != Some(ENOENT) { errors := Fail(errors, o); }
      }
      assert sorted[..|sorted|] == sorted;
      if good {
        RemovingEnds(s, before, tree, sorted);
        PrunedIsTidy(s, before, tree, sorted);
      }
      if anchored { RemovingEndsBehind(s, before, tree, sorted); }
    }

    method ExtraDirectories(s: Snapshot) returns (extra: set<Path>, errors: seq<Errno>)
      requires Coherent(s) && Wf(tree)
      ensures extra == ExtraShown(s, tree, s.paths)
      ensures forall p :: p in extra ==> Managed(s.paths, p) && !LinkForFile(s, tree, p)
      ensures Prunable(s, tree) ==> forall p :: p in extra <==> ExtraIn(s, tree, p)
      ensures AllStraight(tree, s.paths) && Unblocked(s, tree) ==> errors == []
    {
      hide Wf, Lstat, Walk, Coherent, AllStraight, Unblocked, Prunable;
      extra, errors := {}, [];
      for i := 0 to |s.paths|
        invariant extra == ExtraShown(s, tree, s.paths[..i])
        invariant AllStraight(tree, s.paths) && Unblocked(s, tree) ==> errors == []
      {
        var m := s.paths[i];
        if AllStraight(tree, s.paths) && Unblocked(s, tree) { ReadableWhenStraight(s, tree, m); }
        if Lstat(tree, m).Unreadable? { errors := errors + [Lstat(tree, m).errno]; }
        extra := extra + set p | p in Walk(tree, m) && IsDirectory(Lstat(tree, p)) && p !in s.dirs;
        assert s.paths[..i + 1] == s.paths[..i] + [m];
      }
      assert s.paths[..|s.paths|] == s.paths;
      ExtraIsShown(s, tree);
    }

    // Phases 3 and 4: recreate the recorded directories, then set the modes
    // from children to parents.
    method RestoreDirectories(s: Snapshot) returns (errors: seq<Errno>)
      requires Coherent(s) && Wf(tree)
      modifies this
      ensures Wf(tree) && KindsKept(old(tree), tree) && Shelters(s, old(tree), tree)
      ensures s.dirs == map[] ==> tree == old(tree)
      ensures Tidy(s, old(tree)) && ExistedStraight(s, old(tree)) ==> Filling(s, old(tree), tree, s.dirs.Keys)
      ensures Tidy(s, old(tree)) && ExistedStraight(s, old(tree)) && Clear(s, old(tree)) ==>
        errors == [] && forall d :: d in s.dirs ==> d in tree && tree[d] == Dir(s.dirs[d])
      ensures DirectoryPhase(s, old(tree), tree)
    {
      hide Coherent, Tidy, Wf, Filling, KindsKept, ExistedStraight, Clear, MkdirAll, Chmod, Shelters, DirectoryPhase,
        MakingDirectories, SettingModes, Distinct;
      errors := [];
      ghost var before := tree;
      ghost var clear := CanFill(s, before) && Clear(s, before);
      var deep := SortDeepestFirst(s.dirs.Keys);
      NothingMade(s, before, deep);
      for i := |deep| downto 0
        invariant MakingDirectories(s, before, tree, deep, i)
        invariant clear ==> errors == []
      {
        assert deep[i] in s.dirs;
        MakeTurn(s, before, tree, deep, i);
        var o := MkdirAll(tree, deep[i]);
        tree := o.tree;
        errors := Fail(errors, o);
      }
      NoModeSet(s, before, tree, deep);
      for i := 0 to |deep|
        invariant SettingModes(s, before, tree, deep, i)
        invariant clear ==> errors == []
      {
        assert deep[i] in s.dirs;
        ModeTurn(s, before, tree, deep, i);
        var o := Chmod(tree, deep[i], s.dirs[deep[i]]);
        tree := o.tree;
        errors := Fail(errors, o);
      }
      DirectoriesDone(s, before, tree, deep);
    }

    // Phase 5: rewrite the recorded files.
    method RestoreFiles(s: Snapshot) returns (errors: seq<Errno>)
      requires Coherent(s) && Wf(tree)
      modifies this
      ensures Wf(tree) && KindsKept(old(tree), tree) && Shelters(s, old(tree), tree)
      ensures s.files == map[] ==> tree == old(tree)
      ensures Grounded(s, old(tree)) && Restorable(s, old(tree)) ==>
        && errors == []
        && Filling(s, old(tree), tree, s.files.Keys)
        && forall f :: f in s.files ==> f in tree && tree[f] == File(s.files[f].contents, s.files[f].mode)
      ensures KeysStraight(s, old(tree)) && LinksLeadOut(s, old(tree)) ==>
        WrittenThrough(s, old(tree), tree, s.files.Keys)
      ensures FilePhase(s, old(tree), tree)
    {
      hide Coherent, Wf, Filling, KindsKept, Grounded, Restorable, MkdirAll, WriteFile, Chmod, Shelters, KeysStraight,
        LinksLeadOut, WrittenThrough, FilePhase, WritingFiles;
      errors := [];
      ghost var before := tree;
      NoFileWritten(s, before);
      var todo := s.files.Keys;
      while todo != {}
        invariant todo <= s.files.Keys
        invariant WritingFiles(s, before, tree, todo)
        invariant CanWrite(s, before) ==> errors == []
        decreases |todo|
      {
        var f :| f in todo;
        ghost var here := tree;
        FileTurn(s, before, here, todo, f);
        todo := todo - {f};
        var made := MkdirAll(tree, Parent(f));
        tree := made.tree;
        if made.error.Some? {
          errors := Fail(errors, made);
        } else {
          var o := FileUpdate(tree, f, s.files[f]);
          tree := o.tree;
          errors := Fail(errors, o);
        }
        assert tree == RewriteFile(here, f, s.files[f]).tree;
      }
      FilesDone(s, before, tree);
    }

    // Phase 6: put back the recorded links that are not already there.
    method RestoreLinks(s: Snapshot) returns (errors: seq<Errno>)
      requires Coherent(s) && Wf(tree)
      modifies this
      ensures Wf(tree) && SheltersBeside(s, old(tree), tree)
      ensures s.links == map[] ==> tree == old(tree)
      ensures LinksAreStraight(s, old(tree)) ==> SheltersAll(s, old(tree), tree)
      ensures KeysStraight(s, old(tree)) ==> Surviving(s, old(tree), tree) && OutsideKept(s, old(tree), tree)
      ensures Grounded(s, old(tree)) ==>
        && errors == []
        && Filling(s, old(tree), tree, s.links.Keys)
        && forall l :: l in s.links ==> l in tree && tree[l] == Link(s.links[l])
      ensures LinkPhase(s, old(tree), tree)
    {
      hide Coherent, Wf, Filling, Surviving, Grounded, KeysStraight, MkdirAll, RemoveAll, Symlink, Lstat,
        SheltersBeside, SheltersAll, LinksAreStraight, OutsideKept, LinkPhase, PlacingLinks;
      errors := [];
      ghost var before := tree;
      NoLinkPlaced(s, before);
      var todo := s.links.Keys;
      while todo != {}
        invariant todo <= s.links.Keys
        invariant PlacingLinks(s, before, tree, todo)
        invariant Grounded(s, before) ==> errors == []
        decreases |todo|
      {
        var l :| l in todo;
        ghost var here := tree;
        LinkTurn(s, before, here, todo, l);
        todo := todo - {l};
        if Lstat(tree, l) != Found(Link(s.links[l])) {
          var removed := RemoveAll(tree, l);
          tree := removed.tree;
          if removed.error.Some? {
            errors := Fail(errors, removed);
          } else {
            var made := MkdirAll(tree, Parent(l));
            tree := made.tree;
            if made.error.Some? {
              errors := Fail(errors, made);
            } else {
              var o := Symlink(tree, s.links[l], l);
              tree := o.tree;
              errors := Fail(errors, o);
            }
          }
        }
        assert tree == RelinkTree(here, l, s.links[l]).tree;
      }
      LinksDone(s, before, tree);
    }

    // The whole restore, on whatever tree the generators left.
    //
    // If no originally present managed path has a link above it, the region
    // comes back when no originally regular file is now a link and no
    // originally present managed path hangs below a regular file. Without
    // links above managed paths this is exact. If besides no originally
    // regular file is now a link, nothing outside the region changes except
    // that missing ancestors are recreated; where such links lead out of the
    // region, the places they lead to hold the recorded files afterwards. With
    // links above managed paths, every place out of reach is spared, and when
    // all obstacles are out of reach the condition is exact again.
    //
    // If every originally present managed name still leads to a place, whatever
    // links stand above it, the places are apart, and no name that showed a
    // file shows a link, then the managed names show again what was recorded,
    // and nothing changes but at and below those places.
    method Restore(s: Snapshot) returns (errors: seq<Errno>)
      requires Coherent(s) && Wf(tree)
      modifies this
      ensures Wf(tree)
      ensures ExistedStraight(s, old(tree)) && Restorable(s, old(tree)) ==> Captures(s, tree)
      ensures AllStraight(old(tree), s.paths) ==> (Captures(s, tree) <==> Restorable(s, old(tree)))
      ensures AllStraight(old(tree), s.paths) && LinksLeadOut(s, old(tree)) ==>
        && WrittenThrough(s, old(tree), tree, s.files.Keys)
        && (OutsideKept(s, old(tree), tree) <==> LinksLeadToCopies(s, old(tree)))
      ensures AllStraight(old(tree), s.paths) && NoFileLinks(s, old(tree)) ==> OutsideKept(s, old(tree), tree)
      ensures AllStraight(old(tree), s.paths) && NoFileLinks(s, old(tree)) ==>
        (errors == [] <==> Unblocked(s, old(tree)))
      ensures forall q :: OutOfReach(s, old(tree), q) ==> Spares(s, old(tree), tree, q)
      ensures NothingRecorded(s) ==> Shrunk(old(tree), tree) && Vanished(s, tree)
      ensures ObstaclesOutOfReach(s, old(tree)) ==>
        (Captures(s, tree) <==> ExistedStraight(s, old(tree)) && Restorable(s, old(tree)))
      ensures Anchored(s, old(tree)) && Restorable(s, View(old(tree), s.paths)) ==>
        Captures(s, View(tree, s.paths)) && SameOffPlaces(s.paths, old(tree), tree)
    {
      hide Coherent, Wf, Thinned, PrunedBelow, Tidy, Filling, KindsKept, Grounded, Restorable, Captures, Unblocked,
        AllStraight, ExistedStraight, KeysStraight, Surviving, OutsideKept, Clear, Shrunk, Shelters, SheltersBeside,
        SheltersAll, LinksAreStraight, Vanished, Prunable, OutOfReach, Spares, ObstaclesOutOfReach, LinksLeadOut,
        WrittenThrough, LinksLeadToCopies, NoFileLinks, Anchored, View, SameOffPlaces, PrunePhase, ExtraPhase,
        DirectoryPhase, FilePhase, LinkPhase;
      ghost var t0 := tree;
      errors := Prune(s);
      ghost var t1 := tree;
      var failed := RemoveExtraDirectories(s);
      errors := errors + failed;
      ghost var t2 := tree;
      failed := RestoreDirectories(s);
      errors := errors + failed;
      ghost var t3 := tree;
      failed := RestoreFiles(s);
      errors := errors + failed;
      ghost var t4 := tree;
      failed := RestoreLinks(s);
      errors := errors + failed;
      assert Cleaned(s, t0, t1, t2) && Rebuilt(s, t2, t3, t4, tree);
      hide Cleaned, Rebuilt;
      if NoFileLinks(s, t0) && Unblocked(s, t0) { UnblockedIsRestorable(s, t0); }
      CleanedIsStraight(s, t0, t1, t2);
      if ExistedStraight(s, t0) && Restorable(s, t0) { EachPhaseCan(s, t0, t1, t2, t3, t4, tree); }
      if AllStraight(t0, s.paths) {
        StraightStaysUnblocked(s, t0, t1);
        StraightOutcome(s, t0, t1, t2, t3, t4, tree);
      }
      ReachOutcome(s, t0, t1, t2, t3, t4, tree);
    }
  }
}
