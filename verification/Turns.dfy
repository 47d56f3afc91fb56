// What the loops of a restore have reached, and that one more turn keeps it
// up, on any tree.
module Turns {
  import opened FileTree
  import opened Snapshots
  import opened Straying
  import opened Shelter
  import opened Outside
  import opened Phases
  import opened Mirror
  import opened Reflection

  // ---------------------------------------------------------------------
  // Directories
  // ---------------------------------------------------------------------

  ghost predicate CanFill(s: Snapshot, t: Tree) {
    Tidy(s, t) && ExistedStraight(s, t)
  }

  ghost predicate CanFillBehind(s: Snapshot, t: Tree) {
    Anchored(s, t) && Tidy(s, Face(s, t))
  }

  // The directories from the i-th on have been made.
  ghost predicate MakingDirectories(s: Snapshot, before: Tree, t: Tree, deep: seq<Path>, i: nat) {
    && Wf(t) && KindsKept(before, t) && Shelters(s, before, t)
    && (s.dirs == map[] ==> t == before)
    && (CanFill(s, before) ==> Filling(s, before, t, s.dirs.Keys))
    && (CanFill(s, before) && Clear(s, before) ==> forall j :: i <= j < |deep| ==> deep[j] in t)
    && (CanFillBehind(s, before) ==> MadeBehind(s, before, t, deep, i))
  }

  // All have been made, and the first i have their mode.
  ghost predicate SettingModes(s: Snapshot, before: Tree, t: Tree, deep: seq<Path>, i: nat) {
    && MakingDirectories(s, before, t, deep, 0)
    && (CanFill(s, before) && Clear(s, before) ==>
          forall j :: 0 <= j < i && j < |deep| && deep[j] in s.dirs ==>
            deep[j] in t && t[deep[j]] == Dir(s.dirs[deep[j]]))
    && (CanFillBehind(s, before) ==> ModedBehind(s, before, t, deep, i))
  }

  lemma NothingMade(s: Snapshot, t: Tree, deep: seq<Path>)
    requires Coherent(s) && Wf(t)
    ensures MakingDirectories(s, t, t, deep, |deep|)
  {
    hide Wf, Coherent, Tidy, ExistedStraight, Filling, KindsKept, Shelters, Anchored, Face, MadeBehind;
    KindsKeptReflexive(t);
    SheltersReflexive(s, t);
    if CanFill(s, t) { FillingReflexive(s, t, s.dirs.Keys); }
    if CanFillBehind(s, t) { NoneMade(s, t, deep); }
  }

  lemma MakeTurn(s: Snapshot, before: Tree, t: Tree, deep: seq<Path>, i: nat)
    requires Coherent(s) && i < |deep| && deep[i] in s.dirs && MakingDirectories(s, before, t, deep, i + 1)
    ensures MakingDirectories(s, before, MkdirAll(t, deep[i]).tree, deep, i)
    ensures CanFill(s, before) && Clear(s, before) ==> MkdirAll(t, deep[i]).error == None
  {
    hide Wf, Coherent, Tidy, ExistedStraight, Filling, KindsKept, Shelters, Anchored, Face, MadeBehind, MkdirAll, Clear;
    var d := deep[i];
    var u := MkdirAll(t, d).tree;
    MkdirAllKeepsKinds(t, d);
    KindsKeptTransitive(before, t, u);
    KindsKeptDomain(t, u);
    DirectoryShelters(s, before, t, d);
    if CanFill(s, before) { MkdirStepFrom(s, before, t, d); }
    if CanFillBehind(s, before) { MakeOneBehind(s, before, t, deep, i); }
  }

  lemma NoModeSet(s: Snapshot, before: Tree, t: Tree, deep: seq<Path>)
    requires MakingDirectories(s, before, t, deep, 0)
    ensures SettingModes(s, before, t, deep, 0)
  {
    hide MakingDirectories;
    if CanFillBehind(s, before) {
      assert MadeBehind(s, before, t, deep, 0) by { MadeIsBehind(s, before, t, deep); }
      NoneModed(s, before, t, deep);
    }
  }

  lemma MadeIsBehind(s: Snapshot, before: Tree, t: Tree, deep: seq<Path>)
    requires MakingDirectories(s, before, t, deep, 0) && CanFillBehind(s, before)
    ensures MadeBehind(s, before, t, deep, 0)
  {
  }

  lemma ModeTurn(s: Snapshot, before: Tree, t: Tree, deep: seq<Path>, i: nat)
    requires Coherent(s) && Distinct(deep) && i < |deep| && deep[i] in s.dirs && SettingModes(s, before, t, deep, i)
    ensures SettingModes(s, before, Chmod(t, deep[i], s.dirs[deep[i]]).tree, deep, i + 1)
    ensures CanFill(s, before) && Clear(s, before) ==> Chmod(t, deep[i], s.dirs[deep[i]]).error == None
  {
    hide Wf, Coherent, Tidy, ExistedStraight, Filling, KindsKept, Shelters, Anchored, Face, MadeBehind, ModedBehind,
      Chmod, Clear;
    var d := deep[i];
    var u := Chmod(t, d, s.dirs[d]).tree;
    ChmodKeepsKinds(t, d, s.dirs[d]);
    KindsKeptTransitive(before, t, u);
    KindsKeptDomain(t, u);
    ModeShelters(s, before, t, d);
    if CanFill(s, before) { ChmodStepFrom(s, before, t, d); }
    if CanFillBehind(s, before) {
      ModeOneBehind(s, before, t, deep, i);
      ModedIsMade(s, before, u, deep, i + 1);
    }
  }

  lemma ModedIsMade(s: Snapshot, before: Tree, t: Tree, deep: seq<Path>, i: nat)
    requires ModedBehind(s, before, t, deep, i)
    ensures MadeBehind(s, before, t, deep, 0)
  {
  }

  lemma DirectoriesDone(s: Snapshot, before: Tree, t: Tree, deep: seq<Path>)
    requires SettingModes(s, before, t, deep, |deep|) && forall d :: d in deep <==> d in s.dirs
    ensures Wf(t) && KindsKept(before, t) && Shelters(s, before, t) && (s.dirs == map[] ==> t == before)
    ensures CanFill(s, before) ==> Filling(s, before, t, s.dirs.Keys)
    ensures CanFill(s, before) && Clear(s, before) ==> forall d :: d in s.dirs ==> d in t && t[d] == Dir(s.dirs[d])
    ensures DirectoryPhase(s, before, t)
  {
    hide Wf, Tidy, ExistedStraight, Filling, KindsKept, Shelters, Anchored, Face, MadeBehind, ModedBehind, Clear,
      FillingBehind;
    if CanFill(s, before) && Clear(s, before) {
      forall d | d in s.dirs ensures d in t && t[d] == Dir(s.dirs[d]) {
        assert d in deep;
      }
    }
    if CanFillBehind(s, before) { DirectoriesBack(s, before, t, deep); }
  }

  // ---------------------------------------------------------------------
  // Files
  // ---------------------------------------------------------------------

  ghost predicate CanWrite(s: Snapshot, t: Tree) {
    Grounded(s, t) && Restorable(s, t)
  }

  ghost predicate CanWriteBehind(s: Snapshot, t: Tree) {
    Anchored(s, t) && CanWrite(s, Face(s, t))
  }

  ghost predicate CanWriteThrough(s: Snapshot, t: Tree) {
    KeysStraight(s, t) && LinksLeadOut(s, t)
  }

  ghost predicate WritingFiles(s: Snapshot, before: Tree, t: Tree, todo: set<Path>) {
    && Wf(before) && Wf(t) && KindsKept(before, t) && Shelters(s, before, t)
    && (s.files == map[] ==> t == before)
    && (CanWrite(s, before) ==> FilesFilled(s, before, t, todo))
    && (CanWriteBehind(s, before) ==> FilesBehind(s, before, t, todo))
    && (CanWriteThrough(s, before) ==> WrittenThrough(s, before, t, s.files.Keys - todo))
  }

  lemma NoFileWritten(s: Snapshot, t: Tree)
    requires Coherent(s) && Wf(t)
    ensures WritingFiles(s, t, t, s.files.Keys)
  {
    hide Wf, Coherent, KindsKept, Shelters, Anchored, Face, FilesFilled, FilesBehind, WrittenThrough, Grounded,
      Restorable, KeysStraight, LinksLeadOut;
    FilesReflexive(s, t);
    SheltersReflexive(s, t);
    NothingWrittenThrough(s, t);
    assert s.files.Keys - s.files.Keys == {};
    if CanWriteBehind(s, t) { FilesBegin(s, t); }
  }

  lemma FileTurn(s: Snapshot, before: Tree, t: Tree, todo: set<Path>, f: Path)
    requires Coherent(s) && todo <= s.files.Keys && f in todo && WritingFiles(s, before, t, todo)
    ensures f != [] && WritingFiles(s, before, RewriteFile(t, f, s.files[f]).tree, todo - {f})
    ensures CanWrite(s, before) ==> RewriteFile(t, f, s.files[f]).error == None && MkdirAll(t, Parent(f)).error == None
  {
    hide Wf, Coherent, KindsKept, Shelters, Anchored, Face, FilesFilled, FilesBehind, WrittenThrough, Grounded,
      Restorable, KeysStraight, LinksLeadOut, RewriteFile, MkdirAll;
    FileKeepsKinds(s, t, f);
    var u := RewriteFile(t, f, s.files[f]).tree;
    KindsKeptTransitive(before, t, u);
    FileShelters(s, t, f);
    SheltersTransitive(s, before, t, u);
    if CanWrite(s, before) { FileLoopStep(s, before, t, todo, f); }
    if CanWriteBehind(s, before) { FileBehind(s, before, t, todo, f); }
    if CanWriteThrough(s, before) {
      KindsKeptSurvives(s, before, t);
      FileTurnOutside(s, before, t, s.files.Keys - todo, f);
      assert s.files.Keys - todo + {f} == s.files.Keys - (todo - {f});
    }
  }

  lemma FilesDone(s: Snapshot, before: Tree, t: Tree)
    requires WritingFiles(s, before, t, {})
    ensures Wf(t) && KindsKept(before, t) && Shelters(s, before, t) && (s.files == map[] ==> t == before)
    ensures CanWrite(s, before) ==>
      && Filling(s, before, t, s.files.Keys)
      && forall f :: f in s.files ==> f in t && t[f] == File(s.files[f].contents, s.files[f].mode)
    ensures CanWriteThrough(s, before) ==> WrittenThrough(s, before, t, s.files.Keys)
    ensures FilePhase(s, before, t)
  {
    hide Wf, KindsKept, Shelters, Anchored, Face, FilesFilled, FilesBehind, WrittenThrough, Grounded, Restorable,
      KeysStraight, LinksLeadOut, Filling;
    assert s.files.Keys - {} == s.files.Keys;
    if CanWrite(s, before) { FilesFilledDone(s, before, t); }
  }

  // ---------------------------------------------------------------------
  // Links
  // ---------------------------------------------------------------------

  ghost predicate CanLinkBehind(s: Snapshot, t: Tree) {
    Anchored(s, t) && Grounded(s, Face(s, t))
  }

  ghost predicate PlacingLinks(s: Snapshot, before: Tree, t: Tree, todo: set<Path>) {
    && Wf(t) && SheltersBeside(s, before, t)
    && (s.links == map[] ==> t == before)
    && (LinksAreStraight(s, before) ==> LinksAreStraight(s, t) && SheltersAll(s, before, t))
    && (KeysStraight(s, before) ==> KeysStraight(s, t) && Surviving(s, before, t) && OutsideKept(s, before, t))
    && (Grounded(s, before) ==> LinksFilled(s, before, t, todo))
    && (CanLinkBehind(s, before) ==> LinksBehind(s, before, t, todo))
  }

  lemma NoLinkPlaced(s: Snapshot, t: Tree)
    requires Coherent(s) && Wf(t)
    ensures PlacingLinks(s, t, t, s.links.Keys)
  {
    hide Wf, Coherent, SheltersBeside, SheltersAll, LinksAreStraight, KeysStraight, Surviving, OutsideKept, LinksFilled,
      LinksBehind, Anchored, Face, Grounded;
    LinksReflexive(s, t);
    BesideReflexive(s, t);
    OutsideReflexive(s, t);
    if CanLinkBehind(s, t) { LinksBegin(s, t); }
  }

  lemma LinkTurn(s: Snapshot, before: Tree, t: Tree, todo: set<Path>, l: Path)
    requires Coherent(s) && todo <= s.links.Keys && l in todo && PlacingLinks(s, before, t, todo)
    ensures l != [] && PlacingLinks(s, before, RelinkTree(t, l, s.links[l]).tree, todo - {l})
    ensures Grounded(s, before) ==>
      && RelinkTree(t, l, s.links[l]).error == None && RemoveAll(t, l).error == None
      && MkdirAll(RemoveAll(t, l).tree, Parent(l)).error == None
  {
    hide Wf, Coherent, SheltersBeside, SheltersAll, LinksAreStraight, KeysStraight, Surviving, OutsideKept, LinksFilled,
      LinksBehind, Anchored, Face, Grounded, RelinkTree, RemoveAll, MkdirAll;
    LinkIsProper(s, l);
    var u := RelinkTree(t, l, s.links[l]).tree;
    RelinkBeside(s, t, l);
    BesideTransitive(s, before, t, u);
    if LinksAreStraight(s, before) {
      RelinkStraight(s, t, l);
      AllTransitive(s, before, t, u);
    }
    if KeysStraight(s, before) {
      LinkKeeps(s, t, l);
      RelinkOutside(s, t, l);
      OutsideKeptTransitive(s, before, t, u);
      SurvivingTransitive(s, before, t, u);
    }
    if Grounded(s, before) { LinkLoopStep(s, before, t, todo, l); }
    if CanLinkBehind(s, before) { LinkBehind(s, before, t, todo, l); }
  }

  lemma LinksDone(s: Snapshot, before: Tree, t: Tree)
    requires PlacingLinks(s, before, t, {})
    ensures Wf(t) && SheltersBeside(s, before, t) && (s.links == map[] ==> t == before)
    ensures LinksAreStraight(s, before) ==> SheltersAll(s, before, t)
    ensures KeysStraight(s, before) ==> Surviving(s, before, t) && OutsideKept(s, before, t)
    ensures Grounded(s, before) ==>
      Filling(s, before, t, s.links.Keys) && forall l :: l in s.links ==> l in t && t[l] == Link(s.links[l])
    ensures LinkPhase(s, before, t)
  {
    hide Wf, SheltersBeside, SheltersAll, LinksAreStraight, KeysStraight, Surviving, OutsideKept, LinksFilled,
      LinksBehind, Anchored, Face, Grounded, Filling;
    if Grounded(s, before) { LinksFilledDone(s, before, t); }
  }

  // ---------------------------------------------------------------------
  // All six phases
  // ---------------------------------------------------------------------

  // What the first two phases promise of the trees before, between and after
  // them.
  ghost predicate Cleaned(s: Snapshot, t0: Tree, t1: Tree, t2: Tree) {
    && Wf(t1) && Shrunk(t0, t1) && Shelters(s, t0, t1)
    && Vanished(s, t1) && (forall m :: m in s.paths ==> PrunedBelow(s, t1, m))
    && (AllStraight(t0, s.paths) ==> Thinned(s, t0, t1))
    && PrunePhase(s, t0, t1)
    && Wf(t2) && Shrunk(t1, t2) && Shelters(s, t1, t2)
    && (Prunable(s, t1) ==> Thinned(s, t1, t2) && Tidy(s, t2))
    && ExtraPhase(s, t1, t2)
  }

  // What the other four promise.
  ghost predicate Rebuilt(s: Snapshot, t2: Tree, t3: Tree, t4: Tree, t5: Tree) {
    && Wf(t3) && KindsKept(t2, t3) && Shelters(s, t2, t3) && (s.dirs == map[] ==> t3 == t2)
    && (CanFill(s, t2) ==> Filling(s, t2, t3, s.dirs.Keys))
    && (CanFill(s, t2) && Clear(s, t2) ==> forall d :: d in s.dirs ==> d in t3 && t3[d] == Dir(s.dirs[d]))
    && DirectoryPhase(s, t2, t3)
    && Wf(t4) && KindsKept(t3, t4) && Shelters(s, t3, t4) && (s.files == map[] ==> t4 == t3)
    && (CanWrite(s, t3) ==>
          && Filling(s, t3, t4, s.files.Keys)
          && forall f :: f in s.files ==> f in t4 && t4[f] == File(s.files[f].contents, s.files[f].mode))
    && (CanWriteThrough(s, t3) ==> WrittenThrough(s, t3, t4, s.files.Keys))
    && FilePhase(s, t3, t4)
    && Wf(t5) && SheltersBeside(s, t4, t5) && (s.links == map[] ==> t5 == t4)
    && (LinksAreStraight(s, t4) ==> SheltersAll(s, t4, t5))
    && (KeysStraight(s, t4) ==> Surviving(s, t4, t5) && OutsideKept(s, t4, t5))
    && (Grounded(s, t4) ==>
          && Filling(s, t4, t5, s.links.Keys)
          && forall l :: l in s.links ==> l in t5 && t5[l] == Link(s.links[l]))
    && LinkPhase(s, t4, t5)
  }

  lemma CleanedIsStraight(s: Snapshot, t0: Tree, t1: Tree, t2: Tree)
    requires Coherent(s) && Wf(t0) && Cleaned(s, t0, t1, t2)
    ensures Shrunk(t0, t2) && Shelters(s, t0, t2) && Vanished(s, t2)
    ensures ExistedStraight(s, t0) ==> ExistedStraight(s, t2) && Tidy(s, t2) && Prunable(s, t1)
    ensures Restorable(s, t0) ==> Restorable(s, t2)
    ensures AllStraight(t0, s.paths) ==>
      ExistedStraight(s, t0) && Thinned(s, t0, t2) && KeysStraight(s, t2) && Clear(s, t0) == Clear(s, t2)
  {
    hide Coherent, Wf, Thinned, PrunedBelow, Tidy, Restorable, AllStraight, ExistedStraight, KeysStraight, Shrunk,
      Shelters, Vanished, Prunable, PrunePhase, ExtraPhase, Clear;
    Pruned(s, t0, t1);
    ShrunkTransitive(t0, t1, t2);
    ShrunkStaysRestorable(s, t0, t2);
    SheltersTransitive(s, t0, t1, t2);
    StaysVanished(s, t1, t2);
    if AllStraight(t0, s.paths) {
      AllStraightIsExisted(s, t0);
      ThinnedTransitive(s, t0, t1, t2);
      ThinnedIsClear(s, t0, t2);
      TidyIsStraight(s, t2);
    }
  }

  lemma ThinnedIsClear(s: Snapshot, t: Tree, u: Tree)
    requires Coherent(s) && Thinned(s, t, u)
    ensures Clear(s, t) <==> Clear(s, u)
  {
    ThinnedKeepsAncestors(s, t, u);
  }

  // Where nothing stands in the way, each phase finds what it needs.
  lemma EachPhaseCan(s: Snapshot, t0: Tree, t1: Tree, t2: Tree, t3: Tree, t4: Tree, t5: Tree)
    requires Coherent(s) && Wf(t0) && Cleaned(s, t0, t1, t2) && Rebuilt(s, t2, t3, t4, t5)
    requires ExistedStraight(s, t0) && Restorable(s, t0)
    ensures CanFill(s, t2) && Clear(s, t2) && CanWrite(s, t3) && Grounded(s, t4) && Captures(s, t5)
  {
    hide Coherent, Wf, Tidy, Restorable, ExistedStraight, Filling, Grounded, Captures, Cleaned, KindsKept, Shelters,
      SheltersBeside, SheltersAll, LinksAreStraight, KeysStraight, Surviving, OutsideKept, WrittenThrough,
      DirectoryPhase, FilePhase, LinkPhase, CanWriteThrough, Clear;
    CleanedIsStraight(s, t0, t1, t2);
    DirectoriesGround(s, t2, t3);
    FilesGround(s, t3, t4);
    PhasesFill(s, t3, t4, t5);
    FilledIsCaptured(s, t5);
  }

  // Without links above managed paths: whether the region is back, and what
  // happened outside.
  lemma StraightOutcome(s: Snapshot, t0: Tree, t1: Tree, t2: Tree, t3: Tree, t4: Tree, t5: Tree)
    requires Coherent(s) && Wf(t0) && Cleaned(s, t0, t1, t2) && Rebuilt(s, t2, t3, t4, t5)
    requires AllStraight(t0, s.paths)
    ensures Captures(s, t5) <==> Restorable(s, t0)
    ensures LinksLeadOut(s, t0) ==>
      WrittenThrough(s, t0, t5, s.files.Keys) && (OutsideKept(s, t0, t5) <==> LinksLeadToCopies(s, t0))
    ensures NoFileLinks(s, t0) ==> OutsideKept(s, t0, t5)
  {
    hide Coherent, Wf, Thinned, Tidy, Filling, KindsKept, Grounded, Restorable, Captures, AllStraight, ExistedStraight,
      KeysStraight, Surviving, OutsideKept, Shelters, SheltersBeside, SheltersAll, LinksAreStraight, LinksLeadOut,
      WrittenThrough, LinksLeadToCopies, NoFileLinks, Cleaned, Clear, DirectoryPhase, FilePhase, LinkPhase, CanWrite;
    CleanedIsStraight(s, t0, t1, t2);
    KindsKeptSurvives(s, t2, t3);
    KindsKeptSurvives(s, t3, t4);
    NothingLeadsOut(s, t0);
    if LinksLeadOut(s, t0) { PhasesWriteThrough(s, t0, t2, t3, t4, t5); }
    if Restorable(s, t0) {
      EachPhaseCan(s, t0, t1, t2, t3, t4, t5);
    } else {
      SurvivingTransitive(s, t2, t3, t4);
      SurvivingTransitive(s, t2, t4, t5);
      CoherentPaths(s);
      WitnessSurvives(s, t0, t2, t5);
    }
  }

  // With links above managed paths: what is out of reach is spared.
  lemma ReachOutcome(s: Snapshot, t0: Tree, t1: Tree, t2: Tree, t3: Tree, t4: Tree, t5: Tree)
    requires Coherent(s) && Wf(t0) && Cleaned(s, t0, t1, t2) && Rebuilt(s, t2, t3, t4, t5)
    ensures forall q :: OutOfReach(s, t0, q) ==> Spares(s, t0, t5, q)
    ensures NothingRecorded(s) ==> Shrunk(t0, t5) && Vanished(s, t5)
    ensures ObstaclesOutOfReach(s, t0) ==> (Captures(s, t5) <==> ExistedStraight(s, t0) && Restorable(s, t0))
    ensures Anchored(s, t0) && Restorable(s, View(t0, s.paths)) ==>
      Captures(s, View(t5, s.paths)) && SameOffPlaces(s.paths, t0, t5)
  {
    hide Coherent, Wf, Restorable, Captures, ExistedStraight, Shelters, SheltersBeside, SheltersAll, LinksAreStraight,
      OutOfReach, Spares, ObstaclesOutOfReach, Anchored, View, SameOffPlaces, PrunePhase, ExtraPhase, DirectoryPhase,
      FilePhase, LinkPhase, Shrunk, Vanished, KindsKept, PrunedBelow, CanFill, CanWrite, CanWriteThrough, Grounded,
      Filling, KeysStraight, Prunable, Thinned, AllStraight, Tidy;
    CleanedIsStraight(s, t0, t1, t2);
    SheltersTransitive(s, t0, t2, t3);
    SheltersTransitive(s, t0, t3, t4);
    LinksStayStraight(s, t0, t1, t2, t3, t4);
    SheltersReach(s, t0, t4, t5);
    if ExistedStraight(s, t0) && Restorable(s, t0) { EachPhaseCan(s, t0, t1, t2, t3, t4, t5); }
    if ObstaclesOutOfReach(s, t0) && !(ExistedStraight(s, t0) && Restorable(s, t0)) { ObstacleStays(s, t0, t5); }
    if Anchored(s, t0) && Restorable(s, View(t0, s.paths)) { BackBehind(s, t0, t1, t2, t3, t4, t5); }
  }
}
