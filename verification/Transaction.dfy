// Transactional file updates of the binding commands
// (internal/generator/rpcbinding/binding.go, mutateFiles and restoreFiles).
// Paths are relative to the project root, which is the root of the tree.
module Transactions {
  import opened FileTree

  // ---------------------------------------------------------------------
  // inspectManagedPath
  // ---------------------------------------------------------------------

  datatype Inspection = Absent | Regular(contents: Bytes, mode: nat) | Rejected

  ghost predicate Clear(t: Tree, p: Path) {
    forall a :: a in t && a < p ==> t[a].Dir?
  }

  // A path that holds a regular file, or nothing with nothing but directories
  // above it.
  ghost predicate Manageable(t: Tree, p: Path) {
    p != [] && if p in t then t[p].File? else Clear(t, p)
  }

  ghost function Inspected(t: Tree, p: Path): Inspection {
    if !Manageable(t, p) then Rejected
    else if p in t then Regular(t[p].contents, t[p].mode)
    else Absent
  }

  lemma ManageableIsStraight(t: Tree, p: Path)
    requires Wf(t) && Manageable(t, p)
    ensures Straight(t, p) && !Blocked(t, p)
    ensures forall a :: a in t && a < p ==> t[a].Dir?
  {
    if p in t { AncestorsAreDirs(t, p); }
  }

  method InspectManagedPath(t: Tree, p: Path) returns (r: Inspection)
    requires Wf(t)
    ensures r == Inspected(t, p)
  {
    if p == [] { return Rejected; }
    var n := 1;
    while true // the last component always ends the loop
      invariant 1 <= n <= |p|
      invariant forall k: nat :: k < n ==> p[..k] in t && t[p[..k]].Dir?
      decreases |p| - n
    {
      var current := p[..n];
      WalkedIsReachable(t, p, n);
      LstatStraight(t, current);
      var info := Lstat(t, current);
      match info
      case Missing =>
        MissingIsClear(t, p, n);
        return Absent;
      case Unreadable(_) =>
        BlockedIsRejected(t, p, n);
        return Rejected;
      case Found(node) =>
        if node.Link? { ObstacleIsRejected(t, p, n); return Rejected; }
        if n < |p| {
          if !node.Dir? { ObstacleIsRejected(t, p, n); return Rejected; }
        } else {
          assert current == p;
          if !node.File? { return Rejected; }
          return Regular(node.contents, node.mode);
        }
        n := n + 1;
    }
  }

  lemma WalkedIsReachable(t: Tree, p: Path, n: nat)
    requires n <= |p| && forall k: nat :: k < n ==> p[..k] in t && t[p[..k]].Dir?
    ensures Straight(t, p[..n])
  {
    assert forall k: nat :: k < n ==> p[..n][..k] == p[..k];
    ReachableIsStraight(t, p[..n]);
  }

  lemma BlockedIsRejected(t: Tree, p: Path, n: nat)
    requires Wf(t) && 0 < n <= |p| && p[..n] !in t && Blocked(t, p[..n])
    ensures !Manageable(t, p)
  {
    var a :| a in t && a < p[..n] && t[a].File?;
    assert a < p;
    if p in t { AncestorsAreDirs(t, p); }
  }

  lemma MissingIsClear(t: Tree, p: Path, n: nat)
    requires Wf(t) && 0 < n <= |p| && p[..n] !in t
    requires forall k: nat :: k < n ==> p[..k] in t && t[p[..k]].Dir?
    ensures p !in t && Clear(t, p)
  {
    assert p[..|p|] == p;
    if n < |p| { NothingBelow(t, p[..n], p); }
    forall a | a in t && a < p ensures t[a].Dir? {
      assert a == p[..|a|];
      if |a| > n {
        assert p[..n] < a;
        NothingBelow(t, p[..n], a);
      }
    }
  }

  lemma ObstacleIsRejected(t: Tree, p: Path, n: nat)
    requires Wf(t) && 0 < n <= |p| && p[..n] in t && !t[p[..n]].Dir? && (n < |p| || !t[p[..n]].File?)
    ensures !Manageable(t, p)
  {
    if n < |p| {
      assert p[..n] < p;
      NothingBelow(t, p[..n], p);
    } else {
      assert p[..n] == p;
    }
  }

  // ---------------------------------------------------------------------
  // Restoring one file
  // ---------------------------------------------------------------------

  datatype FileState = FileState(contents: Bytes, mode: nat, exists_: bool)

  ghost predicate HasState(t: Tree, p: Path, state: FileState) {
    if state.exists_ then p in t && t[p] == File(state.contents, state.mode) else p !in t
  }

  // u is t with p in the given state and missing directories above p added.
  ghost predicate Restored(t: Tree, u: Tree, p: Path, state: FileState) {
    && Wf(u)
    && HasState(u, p, state)
    && (forall q :: q in t && q != p ==> q in u && u[q] == t[q])
    && (forall q :: q in u && q !in t && q != p ==> q < p && u[q] == Dir(NEW_DIRECTORY_MODE))
  }

  // One turn of the loop of restoreFiles.
  function RestoreOne(t: Tree, p: Path, state: FileState): Outcome
    requires p != []
  {
    if !state.exists_ then
      var removed := Remove(t, p);
      if removed.error == Some(ENOENT) then Outcome(removed.tree, None) else removed
    else
      var above := MkdirAll(t, Parent(p));
      if above.error.Some? then above
      else
        var written := WriteFile(above.tree, p, state.contents, state.mode);
        if written.error.Some? then written else Chmod(written.tree, p, state.mode)
  }

  lemma RestoreOneMeans(t: Tree, p: Path, state: FileState)
    requires Wf(t) && Manageable(t, p)
    ensures RestoreOne(t, p, state).error == None
    ensures Restored(t, RestoreOne(t, p, state).tree, p, state)
  {
    hide Remove, MkdirAll, WriteFile, Chmod, Straight, Blocked, Reachable, Locate, Clear;
    ManageableIsStraight(t, p);
    if !state.exists_ {
      RemoveManaged(t, p);
    } else {
      MakeRoom(t, p);
      var above := MkdirAll(t, Parent(p)).tree;
      WriteFileStraight(above, p, state.contents, state.mode);
      var written := WriteFile(above, p, state.contents, state.mode).tree;
      ChmodStraight(written, p, state.mode);
    }
  }

  lemma RemoveManaged(t: Tree, p: Path)
    requires Wf(t) && Manageable(t, p)
    ensures Remove(t, p) == if p in t then Outcome(t - {p}, None) else Outcome(t, Some(ENOENT))
    ensures Wf(t - {p})
  {
    ManageableIsStraight(t, p);
    if p in t {
      LeafHasNoChildren(t, p);
      RemoveStraight(t, p);
    } else {
      HereStraight(t, p);
      assert t - {p} == t;
    }
  }

  lemma MakeRoom(t: Tree, p: Path)
    requires Wf(t) && Manageable(t, p)
    ensures var above := MkdirAll(t, Parent(p));
            && above.error == None
            && Wf(above.tree) && AddsDirectories(t, above.tree, Parent(p))
            && Reachable(above.tree, p)
            && (p in t <==> p in above.tree)
  {
    hide MkdirAll;
    ManageableIsStraight(t, p);
    var up := Parent(p);
    assert up < p;
    MkdirAllStraight(t, up);
    ReachableThrough(MkdirAll(t, up).tree, up, p);
  }

  // ---------------------------------------------------------------------
  // The loop of restoreFiles, in any order
  // ---------------------------------------------------------------------

  ghost predicate PrefixFree(paths: set<Path>) {
    forall p, q :: p in paths && q in paths ==> !(p < q)
  }

  // From `left`, the paths in `done` have been visited and the tree is now t.
  ghost predicate Progress(left: Tree, t: Tree, states: map<Path, FileState>, done: set<Path>) {
    && Wf(t)
    && (forall p :: p in done && p in states && Manageable(left, p) ==> HasState(t, p, states[p]))
    && (forall q :: q in left && (q !in done || !Manageable(left, q)) ==> q in t && t[q] == left[q])
    && (forall q :: q in t && q !in left && (q !in done || !Manageable(left, q)) ==> IsNewDirectory(t, q, done))
  }

  ghost predicate IsNewDirectory(t: Tree, q: Path, paths: set<Path>) {
    q in t && t[q] == Dir(NEW_DIRECTORY_MODE) && exists p :: p in paths && q < p
  }

  lemma StillManageable(left: Tree, t: Tree, states: map<Path, FileState>, done: set<Path>, p: Path)
    requires Wf(left) && Progress(left, t, states, done) && PrefixFree(states.Keys)
    requires done <= states.Keys && p in states && p !in done
    ensures Manageable(t, p) <==> Manageable(left, p)
    ensures p in t <==> p in left
  {
    assert !IsNewDirectory(t, p, done);
    assert p in t && p !in left ==> IsNewDirectory(t, p, done);
    assert Clear(t, p) <==> Clear(left, p) by {
      forall a | a < p ensures a !in done {}
      if Clear(left, p) {
        forall a | a in t && a < p ensures t[a].Dir? {
          if a !in left { assert IsNewDirectory(t, a, done); }
        }
      }
    }
  }

  lemma RestoreStep(left: Tree, t: Tree, u: Tree, states: map<Path, FileState>, done: set<Path>, p: Path)
    requires Wf(left) && Progress(left, t, states, done) && PrefixFree(states.Keys)
    requires done <= states.Keys && p in states && p !in done
    requires if Manageable(left, p) then Restored(t, u, p, states[p]) else u == t
    ensures Progress(left, u, states, done + {p})
  {
    hide Wf, Manageable;
    var now := done + {p};
    forall q | q in now && q in states && Manageable(left, q) ensures HasState(u, q, states[q]) {
      if q != p { assert !(q < p); }
    }
    forall q | q in left && (q !in now || !Manageable(left, q)) ensures q in u && u[q] == left[q] {}
    forall q | q in u && q !in left && (q !in now || !Manageable(left, q)) ensures IsNewDirectory(u, q, now) {
      if q in t {
        if q != p || !Manageable(left, p) {
          assert IsNewDirectory(t, q, done);
          var r :| r in done && q < r;
          assert r in now;
        }
      }
    }
  }

  // One turn of the loop.
  lemma RestoreTurn(left: Tree, t: Tree, states: map<Path, FileState>, done: set<Path>, p: Path)
    requires Wf(left) && Progress(left, t, states, done) && PrefixFree(states.Keys)
    requires done <= states.Keys && p in states && p !in done && p != []
    ensures Manageable(t, p) <==> Manageable(left, p)
    ensures Manageable(t, p) ==> RestoreOne(t, p, states[p]).error == None
    ensures
      var u := if Manageable(t, p) then RestoreOne(t, p, states[p]).tree else t;
      Progress(left, u, states, done + {p})
  {
    hide Wf, Manageable, Progress, Restored, RestoreOne, PrefixFree;
    ProgressIsWf(left, t, states, done);
    StillManageable(left, t, states, done, p);
    if Manageable(t, p) {
      RestoreOneMeans(t, p, states[p]);
      RestoreStep(left, t, RestoreOne(t, p, states[p]).tree, states, done, p);
    } else {
      RestoreStep(left, t, t, states, done, p);
    }
  }

  ghost predicate AllManageable(t: Tree, paths: set<Path>) {
    forall p :: p in paths ==> Manageable(t, p)
  }

  lemma OneMoreManageable(t: Tree, paths: set<Path>, p: Path)
    ensures AllManageable(t, paths + {p}) <==> AllManageable(t, paths) && Manageable(t, p)
  {
    hide Manageable;
  }

  lemma MeansAllManageable(t: Tree, paths: set<Path>)
    ensures AllManageable(t, paths) <==> forall p :: p in paths ==> Manageable(t, p)
  {
  }

  lemma OneMoreDone(todo: set<Path>, done: set<Path>, keys: set<Path>, p: Path)
    requires todo + done == keys && todo !! done && p in todo
    ensures (todo - {p}) + (done + {p}) == keys && (todo - {p}) !! (done + {p})
    ensures done <= keys && p in keys && p !in done && |todo - {p}| < |todo|
  {
  }

  // What restoreFiles makes of the tree it finds.
  ghost predicate RolledBack(left: Tree, t: Tree, states: map<Path, FileState>) {
    Progress(left, t, states, states.Keys)
  }

  // ---------------------------------------------------------------------
  // What a mutation does to the tree
  // ---------------------------------------------------------------------

  const GO_MOD: Path := ["go.mod"]
  const GO_SUM: Path := ["go.sum"]

  // 0o644, the mode of files the commands create.
  const NEW_FILE_MODE: nat := 0x1A4

  // A step of a mutation: making the directories above a file, writing a
  // file, or a go command that leaves go.mod and go.sum in any state.
  datatype Action =
    | MakeDirectories(path: Path)
    | Write(path: Path, contents: Bytes)
    | GoCommand(goMod: FileState, goSum: FileState)

  function Put(t: Tree, p: Path, state: FileState): Tree {
    if state.exists_ then t[p := File(state.contents, state.mode)] else t - {p}
  }

  function Perform(t: Tree, a: Action): Outcome {
    match a
    case MakeDirectories(p) => if p == [] then Outcome(t, None) else MkdirAll(t, Parent(p))
    case Write(p, contents) => WriteFile(t, p, contents, NEW_FILE_MODE)
    case GoCommand(goMod, goSum) => Outcome(Put(Put(t, GO_MOD, goMod), GO_SUM, goSum), None)
  }

  // The first action that fails ends the script.
  function PerformAll(t: Tree, script: seq<Action>): Outcome {
    if script == [] then Outcome(t, None)
    else
      var before := PerformAll(t, script[..|script| - 1]);
      if before.error.Some? then before else Perform(before.tree, script[|script| - 1])
  }

  // Every path that an action writes.
  function Targets(a: Action): set<Path> {
    if a.GoCommand? then {GO_MOD, GO_SUM} else {a.path}
  }

  ghost predicate StaysWithin(script: seq<Action>, declared: set<Path>) {
    forall i :: 0 <= i < |script| ==> Targets(script[i]) <= declared
  }

  // t differs from `before` only at declared paths, which can still be
  // managed, and by new directories above them.
  ghost predicate Touched(before: Tree, t: Tree, declared: set<Path>) {
    && Wf(t)
    && (forall p :: p in declared ==> Manageable(t, p))
    && (forall q :: q in before && q !in declared ==> q in t && t[q] == before[q])
    && (forall q :: q in t && q !in before && q !in declared ==> IsNewDirectory(t, q, declared))
  }

  // t becomes u by a change at p and new directories above p.
  ghost predicate ChangedAt(t: Tree, u: Tree, p: Path) {
    && Wf(u) && Manageable(u, p)
    && (forall q :: q in t && q != p ==> q in u && u[q] == t[q])
    && (forall q :: q in u && q !in t && q != p ==> q < p && u[q] == Dir(NEW_DIRECTORY_MODE))
  }

  lemma ChangeStaysTouched(before: Tree, t: Tree, u: Tree, declared: set<Path>, p: Path)
    requires Touched(before, t, declared) && PrefixFree(declared) && p in declared && ChangedAt(t, u, p)
    ensures Touched(before, u, declared)
  {
    hide Wf, NEW_DIRECTORY_MODE;
    forall q | q in declared ensures Manageable(u, q) {
      if q != p {
        assert !(q < p);
        if q !in t { assert Clear(u, q); }
      }
    }
    forall q | q in u && q !in before && q !in declared ensures IsNewDirectory(u, q, declared) {
      if q in t { assert IsNewDirectory(t, q, declared); }
    }
  }

  lemma MakeDirectoriesChanges(t: Tree, p: Path)
    requires Wf(t) && Manageable(t, p)
    ensures ChangedAt(t, Perform(t, MakeDirectories(p)).tree, p)
    ensures Perform(t, MakeDirectories(p)).error == None && Reachable(Perform(t, MakeDirectories(p)).tree, p)
  {
    hide MkdirAll, Wf, Reachable;
    MakeRoom(t, p);
    var u := MkdirAll(t, Parent(p)).tree;
    if p !in t { ReachableIsNotBlocked(u, p); }
  }

  lemma WriteChanges(t: Tree, p: Path, contents: Bytes)
    requires Wf(t) && Manageable(t, p)
    ensures ChangedAt(t, Perform(t, Write(p, contents)).tree, p)
    ensures Perform(t, Write(p, contents)).error == None <==> Reachable(t, p)
  {
    hide WriteFile, Wf, Reachable, Locate, Blocked, Straight;
    ManageableIsStraight(t, p);
    HereStraight(t, p);
    if Reachable(t, p) {
      WriteFileStraight(t, p, contents, NEW_FILE_MODE);
    } else {
      ThereStraight(t, p);
      WriteNowhere(t, p, contents);
    }
  }

  lemma WriteNowhere(t: Tree, p: Path, contents: Bytes)
    requires There(t, p).Failed?
    ensures WriteFile(t, p, contents, NEW_FILE_MODE).tree == t && WriteFile(t, p, contents, NEW_FILE_MODE).error.Some?
  {
  }

  lemma PutChanges(t: Tree, p: Path, state: FileState)
    requires Wf(t) && Manageable(t, p) && |p| == 1
    ensures ChangedAt(t, Put(t, p, state), p)
  {
    hide Wf, Reachable;
    if state.exists_ {
      assert Parent(p) == [];
      RootIsDirectory(t);
      ReachableThrough(t, [], p);
      AddLeafWf(t, p, File(state.contents, state.mode));
    } else {
      RemoveManaged(t, p);
      ManageableIsStraight(t, p);
    }
  }

  lemma RootIsDirectory(t: Tree)
    requires Wf(t)
    ensures [] in t && t[[]].Dir?
  {
  }

  lemma ActionStaysTouched(before: Tree, t: Tree, declared: set<Path>, a: Action)
    requires Touched(before, t, declared) && PrefixFree(declared) && Targets(a) <= declared
    ensures Touched(before, Perform(t, a).tree, declared)
  {
    hide Wf, Manageable, ChangedAt, PrefixFree, MkdirAll, WriteFile, Put;
    match a
    case MakeDirectories(p) =>
      assert p in Targets(a);
      NotTheRoot(t, p);
      MakeDirectoriesChanges(t, p);
      ChangeStaysTouched(before, t, Perform(t, a).tree, declared, p);
    case Write(p, contents) =>
      assert p in Targets(a);
      WriteChanges(t, p, contents);
      ChangeStaysTouched(before, t, Perform(t, a).tree, declared, p);
    case GoCommand(goMod, goSum) =>
      assert GO_MOD in Targets(a) && GO_SUM in Targets(a);
      var u := Put(t, GO_MOD, goMod);
      PutChanges(t, GO_MOD, goMod);
      ChangeStaysTouched(before, t, u, declared, GO_MOD);
      PutChanges(u, GO_SUM, goSum);
      ChangeStaysTouched(before, u, Put(u, GO_SUM, goSum), declared, GO_SUM);
  }

  lemma NotTheRoot(t: Tree, p: Path)
    requires Manageable(t, p)
    ensures p != []
  {
  }

  lemma {:induction false} ScriptStaysTouched(before: Tree, declared: set<Path>, script: seq<Action>)
    requires Wf(before) && PrefixFree(declared) && (forall p :: p in declared ==> Manageable(before, p))
    requires StaysWithin(script, declared)
    ensures Touched(before, PerformAll(before, script).tree, declared)
    decreases |script|
  {
    hide Wf, Manageable, PrefixFree, Perform, Targets;
    if script != [] {
      var n := |script| - 1;
      ScriptStaysTouched(before, declared, script[..n]);
      ActionStaysTouched(before, PerformAll(before, script[..n]).tree, declared, script[n]);
    }
  }

  // The same nodes as before, and besides them only new directories.
  ghost predicate SameUpToNewDirectories(before: Tree, t: Tree) {
    && (forall q :: q in before ==> q in t && t[q] == before[q])
    && (forall q :: q in t && q !in before ==> t[q] == Dir(NEW_DIRECTORY_MODE))
  }

  lemma RollbackUndoes(before: Tree, left: Tree, t: Tree, states: map<Path, FileState>)
    requires Captured(before, states) && Touched(before, left, states.Keys) && RolledBack(left, t, states)
    ensures SameUpToNewDirectories(before, t)
  {
    hide Wf, NEW_DIRECTORY_MODE;
    forall q | q in before ensures q in t && t[q] == before[q] {}
    forall q | q in t && q !in before ensures t[q] == Dir(NEW_DIRECTORY_MODE) {
      if q in left {
        assert IsNewDirectory(left, q, states.Keys);
      } else {
        assert IsNewDirectory(t, q, states.Keys);
      }
    }
  }

  datatype Verdict = Committed | RefusedPath | RolledBackAfterError(failures: nat)

  class Store {
    var tree: Tree

    // The mutation performs its script up to the first action that fails; when
    // failsAt is given, it stops after that many actions with an error of its
    // own. Any error is rolled back.
    method MutateFiles(paths: seq<Path>, script: seq<Action>, failsAt: FileTree.Option<nat>) returns (v: Verdict)
      requires Wf(tree) && PrefixFree(set p | p in paths)
      requires StaysWithin(script, set p | p in paths)
      requires failsAt.Some? ==> failsAt.value <= |script|
      modifies this
      ensures v == RefusedPath <==> exists i :: 0 <= i < |paths| && !Manageable(old(tree), paths[i])
      ensures v == RefusedPath ==> tree == old(tree)
      ensures v == Committed <==>
        && (forall i :: 0 <= i < |paths| ==> Manageable(old(tree), paths[i]))
        && failsAt.None? && PerformAll(old(tree), script).error.None?
      ensures v == Committed ==> tree == PerformAll(old(tree), script).tree
      ensures v.RolledBackAfterError? ==> v.failures == 0 && SameUpToNewDirectories(old(tree), tree)
    {
      hide Wf, Manageable, Perform, PerformAll, PrefixFree, Captured, Touched, RolledBack, SameUpToNewDirectories,
        StaysWithin;
      var captured, states := Capture(paths);
      if !captured { return RefusedPath; }
      ghost var before := tree;
      CaptureIsManageable(before, states);
      var done := if failsAt.Some? then script[..failsAt.value] else script;
      if failsAt.Some? { PartStaysWithin(script, failsAt.value, states.Keys); }
      ScriptStaysTouched(before, states.Keys, done);
      var o := PerformAll(tree, done);
      tree := o.tree;
      if failsAt.None? && o.error.None? { return Committed; }
      TouchedIsManageable(before, tree, states.Keys);
      ghost var left := tree;
      var failures := RestoreFiles(states);
      RollbackUndoes(before, left, tree, states);
      return RolledBackAfterError(failures);
    }

    // Every declared path that can be managed returns to its state, in any
    // order of the map; nothing else changes but new directories above
    // declared paths. An error is reported exactly when some declared path
    // cannot be managed: it is a link or a directory, or lies below a link or
    // a file.
    method RestoreFiles(states: map<Path, FileState>) returns (failures: nat)
      requires Wf(tree) && PrefixFree(states.Keys) && [] !in states
      modifies this
      ensures RolledBack(old(tree), tree, states)
      ensures failures == 0 <==> forall p :: p in states ==> Manageable(old(tree), p)
    {
      hide Wf, Manageable, Progress, Restored, RestoreOne, PrefixFree, AllManageable;
      failures := 0;
      ghost var left := tree;
      var todo := states.Keys;
      ghost var done: set<Path> := {};
      Beginning(left, states);
      while todo != {}
        invariant Progress(left, tree, states, done)
        invariant todo + done == states.Keys && todo !! done
        invariant failures == 0 <==> AllManageable(left, done)
        decreases |todo|
      {
        var p :| p in todo;
        ProgressIsWf(left, tree, states, done);
        RestoreTurn(left, tree, states, done, p);
        OneMoreManageable(left, done, p);
        OneMoreDone(todo, done, states.Keys, p);
        var r := InspectManagedPath(tree, p);
        if r.Rejected? {
          failures := failures + 1;
        } else {
          var o := RestoreOne(tree, p, states[p]);
          tree := o.tree;
          failures := failures + if o.error.Some? then 1 else 0;
        }
        todo := todo - {p};
        done := done + {p};
      }
      assert done == states.Keys;
      MeansAllManageable(left, done);
    }

    // The snapshot of mutateFiles; it refuses exactly when some declared path
    // cannot be managed.
    method Capture(paths: seq<Path>) returns (ok: bool, states: map<Path, FileState>)
      requires Wf(tree)
      ensures ok <==> forall i :: 0 <= i < |paths| ==> Manageable(tree, paths[i])
      ensures ok ==> states.Keys == (set p | p in paths) && Captured(tree, states)
    {
      hide Wf, Manageable, Clear;
      states := map[];
      for i := 0 to |paths|
        invariant forall j :: 0 <= j < i ==> Manageable(tree, paths[j])
        invariant states.Keys == (set p | p in paths[..i]) && Captured(tree, states)
      {
        assert paths[..i + 1] == paths[..i] + [paths[i]];
        var r := InspectManagedPath(tree, paths[i]);
        InspectionIsState(tree, paths[i]);
        match r
        case Rejected => return false, states;
        case Absent => states := states[paths[i] := FileState("", 0, false)];
        case Regular(contents, mode) => states := states[paths[i] := FileState(contents, mode, true)];
      }
      assert paths[..|paths|] == paths;
      ok := true;
    }
  }

  ghost predicate Captured(t: Tree, states: map<Path, FileState>) {
    forall p :: p in states ==> Manageable(t, p) && HasState(t, p, states[p])
  }

  lemma InspectionIsState(t: Tree, p: Path)
    ensures match Inspected(t, p)
            case Rejected => !Manageable(t, p)
            case Absent => Manageable(t, p) && HasState(t, p, FileState("", 0, false))
            case Regular(contents, mode) => Manageable(t, p) && HasState(t, p, FileState(contents, mode, true))
  {
  }

  lemma CaptureIsManageable(t: Tree, states: map<Path, FileState>)
    requires Captured(t, states)
    ensures forall p :: p in states ==> Manageable(t, p) && p != []
  {
  }

  lemma PartStaysWithin(script: seq<Action>, n: nat, declared: set<Path>)
    requires StaysWithin(script, declared) && n <= |script|
    ensures StaysWithin(script[..n], declared)
  {
  }

  lemma TouchedIsManageable(before: Tree, t: Tree, declared: set<Path>)
    requires Touched(before, t, declared)
    ensures Wf(t) && forall p :: p in declared ==> Manageable(t, p)
  {
  }

  lemma Beginning(left: Tree, states: map<Path, FileState>)
    requires Wf(left)
    ensures Progress(left, left, states, {}) && AllManageable(left, {})
  {
  }

  lemma ProgressIsWf(left: Tree, t: Tree, states: map<Path, FileState>, done: set<Path>)
    requires Progress(left, t, states, done)
    ensures Wf(t)
  {
  }
}
