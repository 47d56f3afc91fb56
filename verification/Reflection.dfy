// The phases of a restore when links stand above managed paths: what the
// managed names show goes through the same phases as a tree without such links.
module Reflection {
  import opened FileTree
  import opened Snapshots
  import opened Outside
  import opened Mirror
  import opened MirroredCalls
  import opened Phases

  // Every originally present managed name leads to a place, whatever links
  // stand above it.
  ghost predicate Anchored(s: Snapshot, t: Tree) {
    s.paths != [] && Sound(s.paths, t) && forall m :: m in s.paths && m in s.existed ==> Leads(t, m)
  }

  ghost function Face(s: Snapshot, t: Tree): Tree {
    Seen(s.paths, t)
  }

  // u is t with changes at and below the places of managed names only.
  ghost predicate Holds(s: Snapshot, t: Tree, u: Tree) {
    Anchored(s, u) && Becomes(s.paths, t, u, Face(s, u))
  }

  lemma HoldsItself(s: Snapshot, t: Tree)
    requires Anchored(s, t)
    ensures Holds(s, t, t)
  {
    hide Becomes, Sound, Leads, Seen;
    BecomesItself(s.paths, t);
  }

  lemma HoldsTransitive(s: Snapshot, t: Tree, u: Tree, w: Tree)
    requires Holds(s, t, u) && Holds(s, u, w)
    ensures Holds(s, t, w)
  {
    hide Becomes, Sound, Leads, Seen;
    BecomesTransitive(s.paths, t, u, w, Face(s, w));
  }

  lemma HoldsWhatBecomes(s: Snapshot, t: Tree, u: Tree, v: Tree)
    requires Anchored(s, t) && Becomes(s.paths, t, u, v)
    ensures Holds(s, t, u) && v == Face(s, u)
  {
    hide Here, Seen, Wf, Apart, SameOffPlaces;
    SamePlacesOff(s.paths, t, u);
  }

  lemma FaceIsTree(s: Snapshot, t: Tree)
    requires Coherent(s) && Anchored(s, t)
    ensures Wf(Face(s, t)) && AllStraight(Face(s, t), s.paths) && Unblocked(s, Face(s, t))
    ensures ExistedStraight(s, Face(s, t)) && Clear(s, Face(s, t))
  {
    hide Seen, Wf, Apart, Leads, Straight, Blocked;
    SeenIsTree(s.paths, t);
    CoherentPaths(s);
  }

  // ---------------------------------------------------------------------
  // Names that can be worked on
  // ---------------------------------------------------------------------

  lemma NameIsReady(s: Snapshot, t: Tree, m: Path, k: Path)
    requires Coherent(s) && Anchored(s, t) && m in s.paths && m in s.existed && m <= k && Straight(Face(s, t), k)
    ensures Ready(s.paths, t, m, k)
  {
  }

  lemma RootIsReady(s: Snapshot, t: Tree, m: Path)
    requires Coherent(s) && Anchored(s, t) && m in s.paths && m in s.existed
    ensures Ready(s.paths, t, m, m)
  {
    hide Seen, Wf, Apart, Leads, Straight;
    FaceIsTree(s, t);
    AlsoStraight(Face(s, t), s.paths, m);
    NameIsReady(s, t, m, m);
  }

  // The recorded path k lies at or below an originally present managed path.
  lemma KeyIsReady(s: Snapshot, t: Tree, k: Path) returns (m: Path)
    requires Coherent(s) && Anchored(s, t) && k in Keys(s) && Tidy(s, Face(s, t))
    ensures Ready(s.paths, t, m, k) && k != [] && Straight(Face(s, t), k)
  {
    hide Seen, Wf, Apart, Leads, Tidy;
    m :| m in s.paths && m <= k;
    assert m in s.existed;
    FaceIsTree(s, t);
    KeyIsStraight(s, Face(s, t), k);
    NameIsReady(s, t, m, k);
    NameIsProper(s.paths, m, k);
  }

  // Whatever is shown below an originally present name.
  lemma ShownIsReady(s: Snapshot, t: Tree, m: Path, p: Path)
    requires Coherent(s) && Anchored(s, t) && m in s.paths && m in s.existed && m <= p && p in Face(s, t)
    ensures Ready(s.paths, t, m, p)
  {
    hide Seen, Apart, Leads;
    FaceIsTree(s, t);
    AncestorsAreDirs(Face(s, t), p);
    NameIsReady(s, t, m, p);
  }

  // ---------------------------------------------------------------------
  // Phase 1
  // ---------------------------------------------------------------------

  ghost predicate PrunedBehind(s: Snapshot, t: Tree, u: Tree, m: Path) {
    Holds(s, t, u) && Thinned(s, Face(s, t), Face(s, u)) && PrunedBelow(s, Face(s, u), m)
  }

  // The first i managed names have been pruned.
  ghost predicate PrunedUpTo(s: Snapshot, t: Tree, u: Tree, i: nat)
    requires i <= |s.paths|
  {
    && Holds(s, t, u) && Thinned(s, Face(s, t), Face(s, u))
    && forall j :: 0 <= j < i ==> PrunedBelow(s, Face(s, u), s.paths[j])
  }

  lemma NonePruned(s: Snapshot, t: Tree)
    requires Anchored(s, t)
    ensures PrunedUpTo(s, t, t, 0)
  {
    hide Seen, Holds, Anchored;
    HoldsItself(s, t);
    StartThin(s, Face(s, t));
  }

  lemma StillAnchored(s: Snapshot, t: Tree, u: Tree, i: nat)
    requires i <= |s.paths| && PrunedUpTo(s, t, u, i)
    ensures Anchored(s, u)
  {
  }

  lemma OneMorePruned(s: Snapshot, t: Tree, u: Tree, w: Tree, i: nat)
    requires i < |s.paths| && PrunedUpTo(s, t, u, i) && PrunedBehind(s, u, w, s.paths[i])
    ensures PrunedUpTo(s, t, w, i + 1)
  {
    hide Seen, Holds;
    HoldsTransitive(s, t, u, w);
    ThinnedTransitive(s, Face(s, t), Face(s, u), Face(s, w));
  }

  lemma AbsentIsPruned(s: Snapshot, t: Tree, m: Path)
    requires Coherent(s) && Anchored(s, t) && m in s.paths && m !in s.existed
    ensures PrunedBehind(s, t, RemoveAll(t, m).tree, m)
  {
    hide Seen, Wf, Apart, Leads, RemoveAll, Becomes, Thinned, PrunedBelow, Coherent, Holds;
    RemoveNameMirrors(s.paths, t, m);
    HoldsWhatBecomes(s, t, RemoveAll(t, m).tree, Without(Face(s, t), m));
    RemovedBelowAbsent(s, Face(s, t), m);
  }

  lemma LooksAlike(s: Snapshot, t: Tree, m: Path)
    requires Coherent(s) && Anchored(s, t) && m in s.paths && m in s.existed
    ensures Lstat(t, m) == if m in Face(s, t) then Found(Face(s, t)[m]) else Missing
    ensures Walk(t, m) == Walk(Face(s, t), m)
  {
    hide Seen, Wf, Apart, Leads, Lstat, Walk, Coherent, Straight, Blocked, Ready;
    RootIsReady(s, t, m);
    LstatMirrors(s.paths, t, m, m);
    FaceIsTree(s, t);
    AlsoStraight(Face(s, t), s.paths, m);
    LstatStraight(Face(s, t), m);
    WalkMirrors(s.paths, t, m);
    assert !Blocked(Face(s, t), m);
  }

  // What happens at an originally present managed name, by what it shows.
  lemma ExistingIsPruned(s: Snapshot, t: Tree, m: Path)
    requires Coherent(s) && Anchored(s, t) && m in s.paths && m in s.existed
    ensures Lstat(t, m).Missing? || Lstat(t, m).Found?
    ensures Lstat(t, m).Missing? ==> PrunedBehind(s, t, t, m)
    ensures Lstat(t, m).Found? && !Lstat(t, m).node.Dir? ==>
      if m in s.files then PrunedBehind(s, t, t, m)
      else Remove(t, m).error.None? && PrunedBehind(s, t, Remove(t, m).tree, m)
  {
    hide Coherent, Anchored, Lstat, Remove, PrunedBehind, Face, Walk;
    LooksAlike(s, t, m);
    if m !in Face(s, t) || (m in s.files && !Face(s, t)[m].Dir?) {
      NothingIsPruned(s, t, m);
    } else if !Face(s, t)[m].Dir? {
      LeafIsPruned(s, t, m);
    }
  }

  lemma LeafIsPruned(s: Snapshot, t: Tree, m: Path)
    requires Coherent(s) && Anchored(s, t) && m in s.paths && m in s.existed
    requires m in Face(s, t) && !Face(s, t)[m].Dir? && m !in s.files
    ensures Remove(t, m).error.None? && PrunedBehind(s, t, Remove(t, m).tree, m)
  {
    hide Seen, Wf, Apart, Leads, Remove, Becomes, Thinned, PrunedBelow, Coherent, Holds, Ready;
    RootIsReady(s, t, m);
    FaceIsTree(s, t);
    ManagedIsProper(s, m);
    PruneLeaf(s, Face(s, t), m);
    RemoveMirrors(s.paths, t, m, m);
    HoldsWhatBecomes(s, t, Remove(t, m).tree, Face(s, t) - {m});
  }

  lemma NothingIsPruned(s: Snapshot, t: Tree, m: Path)
    requires Coherent(s) && Anchored(s, t)
    requires m !in Face(s, t) || (m in s.files && !Face(s, t)[m].Dir?)
    requires m in s.paths
    ensures PrunedBehind(s, t, t, m)
  {
    hide Seen, Wf, Apart, Leads, Thinned, PrunedBelow, Coherent, Holds;
    HoldsItself(s, t);
    FaceIsTree(s, t);
    NothingToPrune(s, Face(s, t), m);
  }

  lemma PruningBegins(s: Snapshot, t: Tree, m: Path)
    requires Coherent(s) && Anchored(s, t) && m in s.paths && m in s.existed
    ensures WalkingBehind(s, t, t, m, Walk(t, m))
  {
    hide Seen, Wf, Apart, Leads, Pruning, Walk, Coherent, Holds, Straight;
    HoldsItself(s, t);
    FaceIsTree(s, t);
    AlsoStraight(Face(s, t), s.paths, m);
    PruningStarts(s, Face(s, t), m);
    LooksAlike(s, t, m);
  }

  ghost predicate WalkingBehind(s: Snapshot, before: Tree, t: Tree, m: Path, todo: set<Path>) {
    Holds(s, before, t) && Pruning(s, Face(s, before), Face(s, t), m, todo)
  }

  lemma PruneTurnBehind(s: Snapshot, before: Tree, t: Tree, m: Path, todo: set<Path>, p: Path)
    requires Coherent(s) && m in s.paths && m in s.existed && p in todo
    requires WalkingBehind(s, before, t, m, todo)
    ensures Lstat(t, p).Found?
    ensures
      if !Lstat(t, p).node.Dir? && p !in s.files && p !in s.links
      then Remove(t, p).error.None? && WalkingBehind(s, before, Remove(t, p).tree, m, todo - {p})
      else WalkingBehind(s, before, t, m, todo - {p})
  {
    hide Seen, Wf, Apart, Leads, Lstat, Remove, Becomes, Coherent, Ready, Thinned;
    ManagedIsProper(s, m);
    PruneTurn(s, Face(s, before), Face(s, t), m, todo, p);
    ShownIsReady(s, t, m, p);
    LstatMirrors(s.paths, t, m, p);
    RemoveMirrors(s.paths, t, m, p);
    HoldsWhatBecomes(s, t, Remove(t, p).tree, Remove(Face(s, t), p).tree);
    HoldsTransitive(s, before, t, Remove(t, p).tree);
  }

  lemma PruningDone(s: Snapshot, before: Tree, t: Tree, m: Path)
    requires WalkingBehind(s, before, t, m, {})
    ensures PrunedBehind(s, before, t, m)
  {
    hide Seen, Holds;
    PruningEnds(s, Face(s, before), Face(s, t), m);
  }

  // ---------------------------------------------------------------------
  // Phase 2
  // ---------------------------------------------------------------------

  lemma VanishedBehind(s: Snapshot, t: Tree)
    requires Coherent(s) && Anchored(s, t) && Vanished(s, t)
    requires forall m :: m in s.paths ==> PrunedBelow(s, Face(s, t), m)
    ensures Prunable(s, Face(s, t))
  {
    hide Seen, Wf, Apart, Lstat, Coherent, Straight, Blocked, PrunedBelow, ExistedStraight;
    FaceIsTree(s, t);
    forall m | m in s.paths && m !in s.existed ensures !Lstat(Face(s, t), m).Found? {
      AlsoStraight(Face(s, t), s.paths, m);
      LstatStraight(Face(s, t), m);
      if Leads(t, m) {
        LstatMirrors(s.paths, t, m, m);
      } else {
        NothingLedTo(s.paths, t, m);
      }
    }
  }

  lemma ExtraBehind(s: Snapshot, t: Tree)
    requires Coherent(s) && Anchored(s, t)
    ensures ExtraShown(s, t, s.paths) == ExtraShown(s, Face(s, t), s.paths)
  {
    hide Seen, Wf, Apart, Leads, Lstat, Walk, Coherent;
    forall m, p | m in s.paths
      ensures p in Walk(t, m) <==> p in Walk(Face(s, t), m)
      ensures p in Walk(t, m) ==> Lstat(t, p) == Lstat(Face(s, t), p)
    {
      WalkMirrors(s.paths, t, m);
      if p in Walk(t, m) { WalkedIsReady(s, t, m, p); }
    }
  }

  lemma WalkedIsReady(s: Snapshot, t: Tree, m: Path, p: Path)
    requires Coherent(s) && Anchored(s, t) && m in s.paths && p in Walk(t, m)
    ensures Lstat(t, p) == Lstat(Face(s, t), p)
  {
    hide Seen, Wf, Apart, Lstat, Coherent, Here;
    WalkMirrors(s.paths, t, m);
    FaceIsTree(s, t);
    AncestorsAreDirs(Face(s, t), p);
    LstatMirrors(s.paths, t, m, p);
  }

  ghost predicate RemovingBehind(s: Snapshot, before: Tree, t: Tree, done: seq<Path>) {
    Holds(s, before, t) && Removing(s, Face(s, before), Face(s, t), done)
  }

  lemma RemovingBegins(s: Snapshot, t: Tree, extra: set<Path>)
    requires Coherent(s) && Anchored(s, t) && Prunable(s, Face(s, t)) && extra == ExtraShown(s, t, s.paths)
    ensures RemovingBehind(s, t, t, [])
    ensures forall p :: p in extra <==> ExtraIn(s, Face(s, t), p)
  {
    hide Seen, Wf, Apart, Leads, Coherent, Removing, Prunable, ExtraIn, ExtraShown, Holds;
    HoldsItself(s, t);
    FaceIsTree(s, t);
    ExtraBehind(s, t);
    ExtraIsShown(s, Face(s, t));
    RemovingStarts(s, Face(s, t));
  }

  lemma RemoveExtraBehind(s: Snapshot, before: Tree, t: Tree, sorted: seq<Path>, i: nat)
    requires Coherent(s) && Anchored(s, before) && Prunable(s, Face(s, before)) && i < |sorted|
    requires DeepestFirst(sorted) && Distinct(sorted)
    requires forall p :: p in sorted <==> ExtraIn(s, Face(s, before), p)
    requires RemovingBehind(s, before, t, sorted[..i])
    ensures RemovingBehind(s, before, Remove(t, sorted[i]).tree, sorted[..i + 1])
  {
    hide Seen, Wf, Apart, Leads, Coherent, Removing, Becomes, Remove, PrunedBelow, DeepestFirst, Distinct, Vanished,
      ExistedStraight;
    FaceIsTree(s, before);
    RemoveExtraStep(s, Face(s, before), Face(s, t), sorted, i);
    var p := sorted[i];
    assert p in sorted && ExtraIn(s, Face(s, before), p);
    ExtraIsThere(s, before, t, sorted, i);
    var m := ExtraIsReady(s, t, p);
    RemoveMirrors(s.paths, t, m, p);
    HoldsWhatBecomes(s, t, Remove(t, p).tree, Remove(Face(s, t), p).tree);
    HoldsTransitive(s, before, t, Remove(t, p).tree);
  }

  lemma ExtraIsThere(s: Snapshot, before: Tree, t: Tree, sorted: seq<Path>, i: nat)
    requires i < |sorted| && Distinct(sorted) && ExtraIn(s, Face(s, before), sorted[i])
    requires Removing(s, Face(s, before), Face(s, t), sorted[..i])
    ensures sorted[i] in Face(s, t) && Managed(s.paths, sorted[i])
  {
    hide Seen, Wf;
  }

  lemma ExtraIsReady(s: Snapshot, t: Tree, p: Path) returns (m: Path)
    requires Coherent(s) && Anchored(s, t) && p in Face(s, t) && Managed(s.paths, p)
    ensures Ready(s.paths, t, m, p)
  {
    hide Seen, Wf, Apart, Here, Coherent, Straight, Separate;
    m :| m in s.paths && m <= p;
    FaceIsTree(s, t);
    SeenMirrors(s.paths, t);
    assert Shows(t, m, Face(s, t), p);
    assert Straight(Face(s, t), p) by { ShownIsStraight(Face(s, t), p); }
  }

  lemma ShownIsStraight(v: Tree, p: Path)
    requires Wf(v) && p in v
    ensures Straight(v, p)
  {
    AncestorsAreDirs(v, p);
  }

  lemma RemovingEndsBehind(s: Snapshot, before: Tree, t: Tree, sorted: seq<Path>)
    requires Coherent(s) && Prunable(s, Face(s, before)) && RemovingBehind(s, before, t, sorted)
    requires forall p :: p in sorted <==> ExtraIn(s, Face(s, before), p)
    ensures Holds(s, before, t) && Thinned(s, Face(s, before), Face(s, t)) && Tidy(s, Face(s, t))
  {
    hide Seen, Wf, Removing, PrunedBelow, Holds;
    RemovingEnds(s, Face(s, before), Face(s, t), sorted);
    PrunedIsTidy(s, Face(s, before), Face(s, t), sorted);
  }

  // ---------------------------------------------------------------------
  // Phases 3 and 4
  // ---------------------------------------------------------------------

  // The directories are being made, or their modes set.
  ghost predicate FillingBehind(s: Snapshot, before: Tree, t: Tree) {
    Holds(s, before, t) && Filling(s, Face(s, before), Face(s, t), s.dirs.Keys)
  }

  lemma FillingBegins(s: Snapshot, t: Tree)
    requires Coherent(s) && Anchored(s, t) && Tidy(s, Face(s, t))
    ensures FillingBehind(s, t, t)
  {
    hide Seen, Apart, Leads, Tidy, Holds, Coherent;
    HoldsItself(s, t);
    FaceIsTree(s, t);
    FillingReflexive(s, Face(s, t), s.dirs.Keys);
  }

  lemma MkdirBehind(s: Snapshot, before: Tree, t: Tree, d: Path)
    requires Coherent(s) && Anchored(s, before) && FillingBehind(s, before, t) && d in s.dirs
    ensures FillingBehind(s, before, MkdirAll(t, d).tree) && d in Face(s, MkdirAll(t, d).tree)
    ensures forall p :: p in Face(s, t) ==> p in Face(s, MkdirAll(t, d).tree)
  {
    hide Seen, Wf, Apart, Leads, Becomes, Coherent, MkdirAll, Ready, ExistedStraight, Clear, OutsideKept, RegionKept,
      KindsKept;
    FaceIsTree(s, before);
    FaceIsTree(s, t);
    MkdirStepFrom(s, Face(s, before), Face(s, t), d);
    var m := DirIsReady(s, t, d);
    MkdirMirrors(s.paths, t, m, d);
    var u := MkdirAll(t, d).tree;
    HoldsWhatBecomes(s, t, u, MkdirAll(Face(s, t), d).tree);
    HoldsTransitive(s, before, t, u);
    MkdirAllKeepsKinds(Face(s, t), d);
    KindsKeptDomain(Face(s, t), Face(s, u));
  }

  lemma DirIsReady(s: Snapshot, t: Tree, d: Path) returns (m: Path)
    requires Coherent(s) && Anchored(s, t) && Tidy(s, Face(s, t)) && d in s.dirs
    ensures Ready(s.paths, t, m, d) && (d in Face(s, t) ==> !Face(s, t)[d].Link?)
  {
    hide Seen, Wf, Apart, Leads, Ready;
    assert d in Keys(s);
    m := KeyIsReady(s, t, d);
    DirKey(s, d);
  }

  lemma ChmodBehind(s: Snapshot, before: Tree, t: Tree, d: Path)
    requires Coherent(s) && Anchored(s, before) && FillingBehind(s, before, t) && d in s.dirs
    ensures FillingBehind(s, before, Chmod(t, d, s.dirs[d]).tree)
    ensures d in Face(s, t) ==> Face(s, Chmod(t, d, s.dirs[d]).tree) == Face(s, t)[d := Dir(s.dirs[d])]
  {
    hide Seen, Wf, Apart, Leads, Becomes, Coherent, Chmod, Ready, ExistedStraight, Clear, OutsideKept, RegionKept;
    FaceIsTree(s, before);
    FaceIsTree(s, t);
    ChmodStepFrom(s, Face(s, before), Face(s, t), d);
    var m := DirIsReady(s, t, d);
    ChmodMirrors(s.paths, t, m, d, s.dirs[d]);
    var u := Chmod(t, d, s.dirs[d]).tree;
    HoldsWhatBecomes(s, t, u, Chmod(Face(s, t), d, s.dirs[d]).tree);
    HoldsTransitive(s, before, t, u);
  }

  // The directories from the i-th on have been made.
  ghost predicate MadeBehind(s: Snapshot, before: Tree, t: Tree, deep: seq<Path>, i: nat) {
    FillingBehind(s, before, t) && forall j :: i <= j < |deep| ==> deep[j] in Face(s, t)
  }

  // All directories have been made, and the first i have their mode.
  ghost predicate ModedBehind(s: Snapshot, before: Tree, t: Tree, deep: seq<Path>, i: nat) {
    && MadeBehind(s, before, t, deep, 0)
    && forall j :: 0 <= j < i && j < |deep| && deep[j] in s.dirs ==>
         deep[j] in Face(s, t) && Face(s, t)[deep[j]] == Dir(s.dirs[deep[j]])
  }

  lemma MakeOneBehind(s: Snapshot, before: Tree, t: Tree, deep: seq<Path>, i: nat)
    requires Coherent(s) && Anchored(s, before) && i < |deep| && deep[i] in s.dirs
    requires MadeBehind(s, before, t, deep, i + 1)
    ensures MadeBehind(s, before, MkdirAll(t, deep[i]).tree, deep, i)
  {
    hide Seen, Coherent, Anchored, FillingBehind, MkdirAll;
    MkdirBehind(s, before, t, deep[i]);
  }

  lemma ModeOneBehind(s: Snapshot, before: Tree, t: Tree, deep: seq<Path>, i: nat)
    requires Coherent(s) && Anchored(s, before) && i < |deep| && deep[i] in s.dirs && Distinct(deep)
    requires ModedBehind(s, before, t, deep, i)
    ensures ModedBehind(s, before, Chmod(t, deep[i], s.dirs[deep[i]]).tree, deep, i + 1)
  {
    hide Seen, Coherent, Anchored, FillingBehind, Chmod;
    ChmodBehind(s, before, t, deep[i]);
  }

  lemma NoneMade(s: Snapshot, t: Tree, deep: seq<Path>)
    requires Coherent(s) && Anchored(s, t) && Tidy(s, Face(s, t))
    ensures MadeBehind(s, t, t, deep, |deep|)
  {
    hide Seen, Coherent, Anchored, Tidy, FillingBehind;
    FillingBegins(s, t);
  }

  lemma NoneModed(s: Snapshot, before: Tree, t: Tree, deep: seq<Path>)
    requires MadeBehind(s, before, t, deep, 0)
    ensures ModedBehind(s, before, t, deep, 0)
  {
  }

  // All recorded directories are there with their modes.
  lemma DirectoriesBack(s: Snapshot, before: Tree, t: Tree, deep: seq<Path>)
    requires ModedBehind(s, before, t, deep, |deep|) && forall d :: d in deep <==> d in s.dirs
    ensures FillingBehind(s, before, t)
    ensures forall d :: d in s.dirs ==> d in Face(s, t) && Face(s, t)[d] == Dir(s.dirs[d])
  {
    hide Seen, FillingBehind;
    forall d | d in s.dirs ensures d in Face(s, t) && Face(s, t)[d] == Dir(s.dirs[d]) { assert d in deep; }
  }

  // ---------------------------------------------------------------------
  // Phases 5 and 6
  // ---------------------------------------------------------------------

  ghost predicate FilesBehind(s: Snapshot, before: Tree, t: Tree, todo: set<Path>) {
    Holds(s, before, t) && FilesFilled(s, Face(s, before), Face(s, t), todo)
  }

  lemma FilesBegin(s: Snapshot, t: Tree)
    requires Coherent(s) && Anchored(s, t) && Grounded(s, Face(s, t)) && Restorable(s, Face(s, t))
    ensures FilesBehind(s, t, t, s.files.Keys)
  {
    hide Seen, Wf, Apart, Leads, Holds, Coherent, Grounded, Restorable;
    HoldsItself(s, t);
    FaceIsTree(s, t);
    FilesReflexive(s, Face(s, t));
  }

  lemma FileBehind(s: Snapshot, before: Tree, t: Tree, todo: set<Path>, f: Path)
    requires Coherent(s) && FilesBehind(s, before, t, todo) && todo <= s.files.Keys && f in todo
    ensures f != [] && FilesBehind(s, before, RewriteFile(t, f, s.files[f]).tree, todo - {f})
  {
    hide Seen, Wf, Apart, Leads, Becomes, Coherent, Ready, RewriteFile, MkdirAll, Filling;
    KeySorts(s, f);
    assert f in Keys(s);
    FaceIsTree(s, t);
    FileLoopStep(s, Face(s, before), Face(s, t), todo, f);
    var m := KeyIsReady(s, t, f);
    RewriteMirrors(s.paths, t, m, f, s.files[f]);
    var u := RewriteFile(t, f, s.files[f]).tree;
    HoldsWhatBecomes(s, t, u, RewriteFile(Face(s, t), f, s.files[f]).tree);
    HoldsTransitive(s, before, t, u);
  }

  ghost predicate LinksBehind(s: Snapshot, before: Tree, t: Tree, todo: set<Path>) {
    Holds(s, before, t) && LinksFilled(s, Face(s, before), Face(s, t), todo)
  }

  lemma LinksBegin(s: Snapshot, t: Tree)
    requires Coherent(s) && Anchored(s, t) && Grounded(s, Face(s, t))
    ensures LinksBehind(s, t, t, s.links.Keys)
  {
    hide Seen, Wf, Apart, Leads, Holds, Coherent, Grounded;
    HoldsItself(s, t);
    FaceIsTree(s, t);
    LinksReflexive(s, Face(s, t));
  }

  lemma LinkBehind(s: Snapshot, before: Tree, t: Tree, todo: set<Path>, l: Path)
    requires Coherent(s) && LinksBehind(s, before, t, todo) && todo <= s.links.Keys && l in todo
    ensures l != [] && LinksBehind(s, before, RelinkTree(t, l, s.links[l]).tree, todo - {l})
  {
    hide Seen, Wf, Apart, Leads, Becomes, Coherent, Ready, RelinkTree, MkdirAll, RemoveAll, Filling;
    KeySorts(s, l);
    assert l in Keys(s);
    FaceIsTree(s, t);
    LinkLoopStep(s, Face(s, before), Face(s, t), todo, l);
    var m := KeyIsReady(s, t, l);
    RelinkMirrors(s.paths, t, m, l, s.links[l]);
    var u := RelinkTree(t, l, s.links[l]).tree;
    HoldsWhatBecomes(s, t, u, RelinkTree(Face(s, t), l, s.links[l]).tree);
    HoldsTransitive(s, before, t, u);
  }

  // ---------------------------------------------------------------------
  // All phases
  // ---------------------------------------------------------------------

  // The face and the view agree on the managed names.
  lemma FaceIsView(s: Snapshot, t: Tree)
    requires Coherent(s) && Anchored(s, t)
    ensures SameRegion(s.paths, Face(s, t), View(t, s.paths))
    ensures Captures(s, Face(s, t)) <==> Captures(s, View(t, s.paths))
  {
    hide View, Wf, Apart, Leads, Captures, Coherent;
    forall p | Managed(s.paths, p)
      ensures p in Face(s, t) <==> p in View(t, s.paths)
      ensures p in Face(s, t) ==> View(t, s.paths)[p] == Face(s, t)[p]
    {
      var m :| m in s.paths && m <= p;
      BelowIsNotAbove(s.paths, m, p);
    }
    SameRegionBack(s.paths, Face(s, t), View(t, s.paths));
    if Captures(s, Face(s, t)) { SameRegionSameRecord(s, Face(s, t), View(t, s.paths)); }
    if Captures(s, View(t, s.paths)) { SameRegionSameRecord(s, View(t, s.paths), Face(s, t)); }
  }

  lemma RestorableBehind(s: Snapshot, t: Tree)
    requires Coherent(s) && Anchored(s, t)
    ensures Restorable(s, Face(s, t)) <==> Restorable(s, View(t, s.paths))
  {
    hide Seen, View, Wf, Apart, Leads, Coherent, Blocked;
    FaceIsView(s, t);
    FaceIsTree(s, t);
    CoherentPaths(s);
    forall f | f in s.files ensures Managed(s.paths, f) { KeySorts(s, f); }
    forall m | m in s.existed ensures !Blocked(View(t, s.paths), m) { NothingAbove(s.paths, t, m); }
  }

  // The view holds nothing above a managed name.
  lemma NothingAbove(paths: seq<Path>, t: Tree, m: Path)
    requires Sound(paths, t) && m in paths
    ensures !Blocked(View(t, paths), m)
  {
    hide View, Wf, Apart, Separate;
    forall a | a in View(t, paths) ensures !(a < m) {
      var n := ViewIsManaged(paths, t, a);
      NotAbove(paths, n, m, a);
    }
  }

  // What each phase promises behind the managed names.
  ghost predicate PrunePhase(s: Snapshot, t: Tree, u: Tree) {
    Anchored(s, t) ==> PrunedUpTo(s, t, u, |s.paths|)
  }

  ghost predicate ExtraPhase(s: Snapshot, t: Tree, u: Tree) {
    Anchored(s, t) && Prunable(s, Face(s, t)) ==>
      Holds(s, t, u) && Thinned(s, Face(s, t), Face(s, u)) && Tidy(s, Face(s, u))
  }

  ghost predicate DirectoryPhase(s: Snapshot, t: Tree, u: Tree) {
    Anchored(s, t) && Tidy(s, Face(s, t)) ==>
      && FillingBehind(s, t, u)
      && forall d :: d in s.dirs ==> d in Face(s, u) && Face(s, u)[d] == Dir(s.dirs[d])
  }

  ghost predicate FilePhase(s: Snapshot, t: Tree, u: Tree) {
    Anchored(s, t) && Grounded(s, Face(s, t)) && Restorable(s, Face(s, t)) ==> FilesBehind(s, t, u, {})
  }

  ghost predicate LinkPhase(s: Snapshot, t: Tree, u: Tree) {
    Anchored(s, t) && Grounded(s, Face(s, t)) ==> LinksBehind(s, t, u, {})
  }

  // Over all phases: what the managed names show is back, and nothing changed
  // but at and below their places.
  lemma BackBehind(s: Snapshot, t0: Tree, t1: Tree, t2: Tree, t3: Tree, t4: Tree, t5: Tree)
    requires Coherent(s) && Anchored(s, t0) && Restorable(s, View(t0, s.paths)) && Vanished(s, t1)
    requires PrunePhase(s, t0, t1) && ExtraPhase(s, t1, t2) && DirectoryPhase(s, t2, t3)
    requires FilePhase(s, t3, t4) && LinkPhase(s, t4, t5)
    ensures Captures(s, View(t5, s.paths)) && SameOffPlaces(s.paths, t0, t5)
  {
    hide Seen, View, Wf, Apart, Leads, Coherent, Tidy, Restorable, Grounded, Clear, ExistedStraight, OutsideKept,
      Thinned, RegionKept, Captures, SameOffPlaces, Sound, PrunedBelow, Vanished;
    RestorableBehind(s, t0);
    VanishedBehind(s, t1);
    FaceIsTree(s, t2);
    ThinnedFaces(s, t0, t1, t2);
    DirectoriesGround(s, Face(s, t2), Face(s, t3));
    FilesFilledDone(s, Face(s, t3), Face(s, t4));
    LinksFilledDone(s, Face(s, t4), Face(s, t5));
    PhasesFill(s, Face(s, t3), Face(s, t4), Face(s, t5));
    FilledIsCaptured(s, Face(s, t5));
    FaceIsView(s, t5);
    HoldsTransitive(s, t0, t1, t2);
    HoldsTransitive(s, t0, t2, t3);
    HoldsTransitive(s, t0, t3, t4);
    HoldsTransitive(s, t0, t4, t5);
  }

  lemma ThinnedFaces(s: Snapshot, t0: Tree, t1: Tree, t2: Tree)
    requires Coherent(s) && Anchored(s, t0) && Restorable(s, Face(s, t0))
    requires Thinned(s, Face(s, t0), Face(s, t1)) && Thinned(s, Face(s, t1), Face(s, t2))
    ensures Restorable(s, Face(s, t2))
  {
    hide Seen, Wf, Apart, Leads, Coherent, Restorable, Thinned;
    FaceIsTree(s, t0);
    ThinnedAncestors(s, Face(s, t0), Face(s, t1));
    ThinnedAncestors(s, Face(s, t1), Face(s, t2));
  }
}
