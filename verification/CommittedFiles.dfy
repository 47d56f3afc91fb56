// What a committed binding command leaves in the project: every file it has to
// write holds its rendered contents, and no other file has changed.
module CommittedFiles {
  import opened FileTree
  import opened Bindings
  import opened Transactions
  import opened Mutations

  // ---------------------------------------------------------------------
  // What a command has to write
  // ---------------------------------------------------------------------

  // The files with rendered contents; handler and stub files only when they
  // are missing, since they belong to the user afterwards.
  function Outputs(c: Command, missing: set<Path>): set<Path> {
    match c
    case BindServer(b, _) => {SERVER_CODE, MANIFEST} + (missing * set p | p in ServicePaths(b))
    case BindClient(_, replaced, _) => {CLIENT_CODE, MANIFEST} + if replaced then {} else {LOCAL_CONFIG}
    case UnbindServer(_) => {SERVER_CODE, MANIFEST}
    case UnbindClient(_) => {CLIENT_CODE, LOCAL_CONFIG, MANIFEST}
    case Generate(m, registered) =>
      {CLIENT_CODE, MANIFEST} + (if registered then {SERVER_CODE} else {})
      + (missing * set p | p in AllServicePaths(m.servers))
    case ReconcileEmpty(registered) => {CLIENT_CODE} + if registered then {SERVER_CODE} else {}
  }

  // Whether the command ends with a go command on go.mod and go.sum.
  predicate Tidies(c: Command) {
    match c
    case BindServer(b, skipTidy) => !skipTidy && b.version != ""
    case BindClient(b, _, skipTidy) => !skipTidy && b.version != ""
    case UnbindServer(workspace) => !workspace
    case UnbindClient(workspace) => !workspace
    case Generate(m, _) => !HasWorkspaceBindings(m)
    case ReconcileEmpty(_) => true
  }

  // Whether the command adds a requirement to go.mod.
  predicate Requires(c: Command) {
    match c
    case BindServer(b, _) => b.version != ""
    case BindClient(b, _, _) => b.version != ""
    case Generate(m, _) => exists b :: b in m.servers + m.clients && b.version != ""
    case _ => false
  }

  // The script without the go command.
  function Writes(c: Command, render: Path -> Bytes, missing: set<Path>): seq<Action> {
    Script(c, render, missing, [])
  }

  // ---------------------------------------------------------------------
  // Scripts that only write rendered files
  // ---------------------------------------------------------------------

  // The files that a script writes.
  function Files(script: seq<Action>): set<Path> {
    set a | a in script && a.Write? :: a.path
  }

  // Every write has the rendered contents, every directory is made for a file
  // that is written, and there is no go command.
  ghost predicate Renders(script: seq<Action>, render: Path -> Bytes) {
    forall a :: a in script ==> !a.GoCommand? && (a.Write? ==> a.contents == render(a.path))
  }

  lemma RendersJoins(x: seq<Action>, y: seq<Action>, render: Path -> Bytes)
    ensures Renders(x, render) && Renders(y, render) ==> Renders(x + y, render)
    ensures Files(x + y) == Files(x) + Files(y)
  {
  }

  lemma SaveRenders(p: Path, render: Path -> Bytes)
    ensures Renders(Save(p, render), render) && Files(Save(p, render)) == {p}
  {
    assert Write(p, render(p)) in Save(p, render);
  }

  lemma WriteRenders(p: Path, render: Path -> Bytes)
    ensures Renders([Write(p, render(p))], render) && Files([Write(p, render(p))]) == {p}
  {
  }

  lemma NothingRenders(render: Path -> Bytes)
    ensures Renders([], render) && Files([]) == {}
  {
  }

  lemma {:induction false} SaveMissingRenders(paths: seq<Path>, missing: set<Path>, render: Path -> Bytes)
    ensures Renders(SaveMissing(paths, missing, render), render)
    ensures Files(SaveMissing(paths, missing, render)) == missing * set p | p in paths
    decreases |paths|
  {
    hide Renders, Files, Save;
    NothingRenders(render);
    if paths != [] {
      var n := |paths| - 1;
      assert paths == paths[..n] + [paths[n]];
      SaveMissingRenders(paths[..n], missing, render);
      SaveRenders(paths[n], render);
      RendersJoins(SaveMissing(paths[..n], missing, render), Save(paths[n], render), render);
    }
  }

  lemma RequirementRenders(b: Binding, render: Path -> Bytes)
    ensures Renders(AddRequirement(b, render), render)
    ensures Files(AddRequirement(b, render)) == if b.version != "" then {GO_MOD} else {}
  {
    hide Renders, Files;
    NothingRenders(render);
    WriteRenders(GO_MOD, render);
  }

  lemma {:induction false} RequirementsRender(bindings: seq<Binding>, render: Path -> Bytes)
    ensures Renders(AddRequirements(bindings, render), render)
    ensures Files(AddRequirements(bindings, render)) ==
              if exists b :: b in bindings && b.version != "" then {GO_MOD} else {}
    decreases |bindings|
  {
    hide Renders, Files, AddRequirement;
    NothingRenders(render);
    if bindings != [] {
      var n := |bindings| - 1;
      assert bindings == bindings[..n] + [bindings[n]];
      RequirementsRender(bindings[..n], render);
      RequirementRenders(bindings[n], render);
      RendersJoins(AddRequirements(bindings[..n], render), AddRequirement(bindings[n], render), render);
    }
  }

  // The script of a command writes exactly its outputs, and go.mod when it adds
  // a requirement, and ends with the go command when it tidies.
  lemma ScriptRenders(c: Command, render: Path -> Bytes, missing: set<Path>)
    ensures Renders(Writes(c, render, missing), render)
    ensures Files(Writes(c, render, missing)) == Outputs(c, missing) + if Requires(c) then {GO_MOD} else {}
  {
    hide Renders, Files, Save, SaveMissing, AddRequirement, AddRequirements, ServicePaths, AllServicePaths,
      HasWorkspaceBindings;
    NothingRenders(render);
    SaveRenders(SERVER_CODE, render);
    SaveRenders(CLIENT_CODE, render);
    SaveRenders(MANIFEST, render);
    WriteRenders(LOCAL_CONFIG, render);
    match c {
      case BindServer(b, skipTidy) =>
        RequirementRenders(b, render);
        SaveMissingRenders(ServicePaths(b), missing, render);
        FiveRender(AddRequirement(b, render), Save(SERVER_CODE, render), SaveMissing(ServicePaths(b), missing, render),
          Save(MANIFEST, render), [], render);
      case BindClient(b, replaced, _) =>
        RequirementRenders(b, render);
        FiveRender(AddRequirement(b, render), Save(CLIENT_CODE, render),
          if replaced then [] else [Write(LOCAL_CONFIG, render(LOCAL_CONFIG))], Save(MANIFEST, render), [], render);
      case UnbindServer(_) =>
        RendersJoins(Save(SERVER_CODE, render), Save(MANIFEST, render), render);
        RendersJoins(Save(SERVER_CODE, render) + Save(MANIFEST, render), [], render);
      case UnbindClient(_) =>
        var one := Save(CLIENT_CODE, render) + [Write(LOCAL_CONFIG, render(LOCAL_CONFIG))];
        RendersJoins(Save(CLIENT_CODE, render), [Write(LOCAL_CONFIG, render(LOCAL_CONFIG))], render);
        RendersJoins(one, Save(MANIFEST, render), render);
        RendersJoins(one + Save(MANIFEST, render), [], render);
      case Generate(m, registered) =>
        RequirementsRender(m.servers + m.clients, render);
        SaveMissingRenders(AllServicePaths(m.servers), missing, render);
        var server := if registered then Save(SERVER_CODE, render) else [];
        FiveRender(AddRequirements(m.servers + m.clients, render), server,
          SaveMissing(AllServicePaths(m.servers), missing, render), Save(CLIENT_CODE, render), Save(MANIFEST, render),
          render);
        RendersJoins(AddRequirements(m.servers + m.clients, render) + server
          + SaveMissing(AllServicePaths(m.servers), missing, render) + Save(CLIENT_CODE, render)
          + Save(MANIFEST, render), [], render);
      case ReconcileEmpty(registered) =>
        var server := if registered then Save(SERVER_CODE, render) else [];
        RendersJoins(server, Save(CLIENT_CODE, render), render);
        RendersJoins(server + Save(CLIENT_CODE, render), [], render);
    }
  }

  lemma FiveRender(v: seq<Action>, w: seq<Action>, x: seq<Action>, y: seq<Action>, z: seq<Action>,
      render: Path -> Bytes)
    requires Renders(v, render) && Renders(w, render) && Renders(x, render) && Renders(y, render) && Renders(z, render)
    ensures Renders(v + w + x + y + z, render)
    ensures Files(v + w + x + y + z) == Files(v) + Files(w) + Files(x) + Files(y) + Files(z)
  {
    hide Renders, Files;
    RendersJoins(v, w, render);
    RendersJoins(v + w, x, render);
    RendersJoins(v + w + x, y, render);
    RendersJoins(v + w + x + y, z, render);
  }

  lemma ScriptEnds(c: Command, render: Path -> Bytes, missing: set<Path>, tidy: seq<Action>)
    ensures Script(c, render, missing, tidy) == Writes(c, render, missing) + if Tidies(c) then tidy else []
  {
    hide Save, SaveMissing, AddRequirement, AddRequirements, ServicePaths, AllServicePaths, HasWorkspaceBindings;
  }

  // ---------------------------------------------------------------------
  // The tree after a script
  // ---------------------------------------------------------------------

  ghost predicate HoldsRendered(t: Tree, p: Path, render: Path -> Bytes) {
    p in t && t[p].File? && t[p].contents == render(p)
  }

  // A rendered action that succeeds leaves its file, and every other node that
  // was there.
  lemma ActionLeaves(t: Tree, a: Action, render: Path -> Bytes)
    requires Wf(t) && !a.GoCommand? && Manageable(t, a.path) && (a.Write? ==> a.contents == render(a.path))
    requires Perform(t, a).error == None
    ensures
      var u := Perform(t, a).tree;
      && (forall q :: q in t && (a.Write? ==> q != a.path) ==> q in u && u[q] == t[q])
      && (a.Write? ==> HoldsRendered(u, a.path, render))
  {
    hide Wf, Reachable, MkdirAll, WriteFile, Locate;
    match a
    case MakeDirectories(p) =>
      NotTheRoot(t, p);
      MakeRoom(t, p);
    case Write(p, contents) =>
      NotTheRoot(t, p);
      WriteChanges(t, p, contents);
      ManageableHoldsFile(t, p);
      WriteFileStraight(t, p, contents, NEW_FILE_MODE);
  }

  lemma ManageableHoldsFile(t: Tree, p: Path)
    requires Manageable(t, p)
    ensures p in t ==> t[p].File?
  {
  }

  lemma {:induction false} ScriptLeaves(before: Tree, script: seq<Action>, declared: set<Path>, render: Path -> Bytes)
    requires Wf(before) && PrefixFree(declared) && (forall p :: p in declared ==> Manageable(before, p))
    requires StaysWithin(script, declared) && Renders(script, render) && PerformAll(before, script).error == None
    ensures forall p :: p in Files(script) ==> HoldsRendered(PerformAll(before, script).tree, p, render)
    ensures forall p :: p in before && p !in Files(script) ==>
              p in PerformAll(before, script).tree && PerformAll(before, script).tree[p] == before[p]
    decreases |script|
  {
    hide Wf, Manageable, PrefixFree, Perform;
    if script == [] {
      NothingRenders(render);
    } else {
      var n := |script| - 1;
      var t, a := PerformAll(before, script[..n]).tree, script[n];
      assert script == script[..n] + [a];
      RendersParts(script[..n], a, render);
      ScriptLeaves(before, script[..n], declared, render);
      ScriptStaysTouched(before, declared, script[..n]);
      assert a.path in Targets(a);
      ActionLeaves(t, a, render);
      OneMoreFile(before, t, Perform(t, a).tree, script[..n], a, render);
    }
  }

  lemma RendersParts(script: seq<Action>, a: Action, render: Path -> Bytes)
    requires Renders(script + [a], render)
    ensures Renders(script, render) && !a.GoCommand? && (a.Write? ==> a.contents == render(a.path))
    ensures Files(script + [a]) == Files(script) + if a.Write? then {a.path} else {}
  {
    assert a in script + [a];
    assert forall b :: b in script ==> b in script + [a];
  }

  lemma OneMoreFile(before: Tree, t: Tree, u: Tree, script: seq<Action>, a: Action, render: Path -> Bytes)
    requires !a.GoCommand?
    requires forall p :: p in Files(script) ==> HoldsRendered(t, p, render)
    requires forall p :: p in before && p !in Files(script) ==> p in t && t[p] == before[p]
    requires forall q :: q in t && (a.Write? ==> q != a.path) ==> q in u && u[q] == t[q]
    requires a.Write? ==> HoldsRendered(u, a.path, render)
    ensures
      var files := Files(script) + if a.Write? then {a.path} else {};
      && (forall p :: p in files ==> HoldsRendered(u, p, render))
      && (forall p :: p in before && p !in files ==> p in u && u[p] == before[p])
  {
    hide Files;
  }

  // ---------------------------------------------------------------------
  // A committed command
  // ---------------------------------------------------------------------

  // Every output holds its rendered contents; go.mod and go.sum are what the
  // go command left, or else go.mod holds the added requirement; no other file
  // changed, and besides outputs only directories were added.
  ghost predicate CommandDone(c: Command, render: Path -> Bytes, missing: set<Path>, goMod: FileState, goSum: FileState,
      before: Tree, after: Tree) {
    && (forall p :: p in Outputs(c, missing) ==> HoldsRendered(after, p, render))
    && (if Tidies(c) then HasState(after, GO_MOD, goMod) && HasState(after, GO_SUM, goSum)
        else
          && (Requires(c) ==> HoldsRendered(after, GO_MOD, render))
          && (!Requires(c) && GO_MOD in before ==> GO_MOD in after && after[GO_MOD] == before[GO_MOD])
          && (GO_SUM in before ==> GO_SUM in after && after[GO_SUM] == before[GO_SUM]))
    && OthersKept(Outputs(c, missing) + {GO_MOD, GO_SUM}, before, after)
  }

  ghost predicate OthersKept(written: set<Path>, before: Tree, after: Tree) {
    && (forall p :: p in before && p !in written ==> p in after && after[p] == before[p])
    && (forall p :: p in after && p !in before && p !in written ==> after[p] == Dir(NEW_DIRECTORY_MODE))
  }

  lemma OthersAreKept(files: set<Path>, written: set<Path>, before: Tree, t: Tree, u: Tree)
    requires OthersKept(files, before, t) && files <= written && {GO_MOD, GO_SUM} <= written
    requires forall p :: p !in {GO_MOD, GO_SUM} ==> (p in u <==> p in t) && (p in t ==> u[p] == t[p])
    ensures OthersKept(written, before, t) && OthersKept(written, before, u)
  {
    forall p | p in u && p !in before && p !in written ensures u[p] == Dir(NEW_DIRECTORY_MODE) {
      assert p !in {GO_MOD, GO_SUM} && p !in files;
    }
  }

  lemma CommittedCommandIsDone(c: Command, render: Path -> Bytes, missing: set<Path>, goMod: FileState,
      goSum: FileState, before: Tree)
    requires Wf(before) && (forall p :: p in Declared(c) ==> Manageable(before, p))
    requires PerformAll(before, Script(c, render, missing, [GoCommand(goMod, goSum)])).error == None
    ensures CommandDone(c, render, missing, goMod, goSum, before,
              PerformAll(before, Script(c, render, missing, [GoCommand(goMod, goSum)])).tree)
  {
    hide Script, Declared, Outputs, Renders, Files, Wf, Manageable, Perform, StaysWithin, PrefixFree, Tidies, Requires,
      HoldsRendered, Touched;
    var writes, tidy := Writes(c, render, missing), [GoCommand(goMod, goSum)];
    var script := Script(c, render, missing, tidy);
    ScriptEnds(c, render, missing, tidy);
    ScriptRenders(c, render, missing);
    OutputsAreNotGo(c, missing);
    WritesStayWithin(c, render, missing, goMod, goSum);
    WrittenIsPrefixFree(c, render, missing, goMod, goSum);
    var t := PerformAll(before, writes).tree;
    SplitScript(before, writes, script, GoCommand(goMod, goSum));
    ScriptLeaves(before, writes, Files(writes), render);
    ScriptStaysTouched(before, Files(writes), writes);
    OnlyDirectories(before, t, Files(writes));
    GoLeaves(t, goMod, goSum);
    PutTogether(c, render, missing, goMod, goSum, before, t, Perform(t, GoCommand(goMod, goSum)).tree);
  }

  lemma SplitScript(before: Tree, writes: seq<Action>, script: seq<Action>, last: Action)
    requires script == writes || script == writes + [last]
    ensures PerformAll(before, script).error == None ==> PerformAll(before, writes).error == None
    ensures script == writes + [last] && PerformAll(before, script).error == None ==>
              PerformAll(before, script) == Perform(PerformAll(before, writes).tree, last)
  {
    hide Perform;
    if script == writes + [last] {
      assert script[..|script| - 1] == writes && script[|script| - 1] == last;
    }
  }

  lemma PutTogether(c: Command, render: Path -> Bytes, missing: set<Path>, goMod: FileState, goSum: FileState,
      before: Tree, t: Tree, u: Tree)
    requires GO_MOD !in Outputs(c, missing) && GO_SUM !in Outputs(c, missing)
    requires
      var files := Outputs(c, missing) + if Requires(c) then {GO_MOD} else {};
      && (forall p :: p in files ==> HoldsRendered(t, p, render))
      && OthersKept(files, before, t)
    requires HasState(u, GO_MOD, goMod) && HasState(u, GO_SUM, goSum)
    requires forall p :: p !in {GO_MOD, GO_SUM} ==> (p in u <==> p in t) && (p in t ==> u[p] == t[p])
    ensures CommandDone(c, render, missing, goMod, goSum, before, if Tidies(c) then u else t)
  {
    hide Outputs, Tidies, Requires, HasState;
    GoFilesDiffer();
    OthersAreKept(Outputs(c, missing) + (if Requires(c) then {GO_MOD} else {}), Outputs(c, missing) + {GO_MOD, GO_SUM},
      before, t, u);
    var after := if Tidies(c) then u else t;
    forall p | p in Outputs(c, missing) ensures HoldsRendered(after, p, render) {
      assert HoldsRendered(t, p, render);
    }
    if !Tidies(c) && Requires(c) { assert HoldsRendered(t, GO_MOD, render); }
  }

  lemma GoFilesDiffer()
    ensures GO_MOD != GO_SUM
  {
    assert GO_MOD[0] != GO_SUM[0];
  }

  lemma OnlyDirectories(before: Tree, t: Tree, declared: set<Path>)
    requires Touched(before, t, declared)
    ensures forall q :: q in t && q !in before && q !in declared ==> t[q] == Dir(NEW_DIRECTORY_MODE)
  {
    forall q | q in t && q !in before && q !in declared ensures t[q] == Dir(NEW_DIRECTORY_MODE) {
      assert IsNewDirectory(t, q, declared);
    }
  }

  lemma GoLeaves(t: Tree, goMod: FileState, goSum: FileState)
    ensures
      var u := Perform(t, GoCommand(goMod, goSum)).tree;
      && HasState(u, GO_MOD, goMod) && HasState(u, GO_SUM, goSum)
      && forall p :: p !in {GO_MOD, GO_SUM} ==> (p in u <==> p in t) && (p in t ==> u[p] == t[p])
  {
    assert GO_MOD[0] != GO_SUM[0];
  }

  lemma OutputsAreNotGo(c: Command, missing: set<Path>)
    ensures GO_MOD !in Outputs(c, missing) && GO_SUM !in Outputs(c, missing)
  {
    hide ServicePaths, AllServicePaths;
    match c
    case BindServer(b, _) => ServicePathsAreManaged(b);
    case Generate(m, _) => AllServicePathsAreManaged(m.servers);
    case _ =>
  }

  // The files written are declared, so they can be managed and do not nest.
  lemma WritesStayWithin(c: Command, render: Path -> Bytes, missing: set<Path>, goMod: FileState, goSum: FileState)
    ensures StaysWithin(Writes(c, render, missing), Files(Writes(c, render, missing)))
    ensures Files(Writes(c, render, missing)) <= set p | p in Declared(c)
  {
    hide Script, Declared, Renders, Outputs, Requires, Tidies;
    ScriptEnds(c, render, missing, [GoCommand(goMod, goSum)]);
    CommandsStayWithinDeclaredPaths(c, render, missing, goMod, goSum);
    var writes, script := Writes(c, render, missing), Script(c, render, missing, [GoCommand(goMod, goSum)]);
    forall a | a in writes && a.Write? ensures a.path in Declared(c) {
      var i :| 0 <= i < |writes| && writes[i] == a;
      assert script[i] == a && a.path in Targets(a);
    }
    DirectoriesAreForFiles(c, render, missing);
  }

  lemma WrittenIsPrefixFree(c: Command, render: Path -> Bytes, missing: set<Path>, goMod: FileState, goSum: FileState)
    ensures PrefixFree(Files(Writes(c, render, missing)))
  {
    hide Script, Declared, Files;
    WritesStayWithin(c, render, missing, goMod, goSum);
    DeclaredPathsArePrefixFree(c);
  }

  // Directories are made only for files that are written.
  ghost predicate Paired(script: seq<Action>) {
    forall a :: a in script && a.MakeDirectories? ==> a.path in Files(script)
  }

  lemma PairedJoins(x: seq<Action>, y: seq<Action>)
    requires Paired(x) && Paired(y)
    ensures Paired(x + y)
  {
    assert Files(x + y) == Files(x) + Files(y);
  }

  lemma {:induction false} SaveMissingIsPaired(paths: seq<Path>, missing: set<Path>, render: Path -> Bytes)
    ensures Paired(SaveMissing(paths, missing, render))
    decreases |paths|
  {
    hide Paired, Save;
    EmptyIsPaired();
    if paths != [] {
      SaveMissingIsPaired(paths[..|paths| - 1], missing, render);
      SaveIsPaired(paths[|paths| - 1], render);
      PairedJoins(SaveMissing(paths[..|paths| - 1], missing, render), Save(paths[|paths| - 1], render));
    }
  }

  lemma EmptyIsPaired()
    ensures Paired([])
  {
  }

  lemma SaveIsPaired(p: Path, render: Path -> Bytes)
    ensures Paired(Save(p, render))
  {
    SaveRenders(p, render);
  }

  lemma WriteIsPaired(p: Path, contents: Bytes)
    ensures Paired([Write(p, contents)])
  {
  }

  lemma {:induction false} RequirementsArePaired(bindings: seq<Binding>, render: Path -> Bytes)
    ensures Paired(AddRequirements(bindings, render))
    decreases |bindings|
  {
    hide Paired;
    EmptyIsPaired();
    WriteIsPaired(GO_MOD, render(GO_MOD));
    if bindings != [] {
      RequirementsArePaired(bindings[..|bindings| - 1], render);
      PairedJoins(AddRequirements(bindings[..|bindings| - 1], render),
          AddRequirement(bindings[|bindings| - 1], render));
    }
  }

  lemma FiveArePaired(v: seq<Action>, w: seq<Action>, x: seq<Action>, y: seq<Action>, z: seq<Action>)
    requires Paired(v) && Paired(w) && Paired(x) && Paired(y) && Paired(z)
    ensures Paired(v + w + x + y + z)
  {
    hide Paired;
    PairedJoins(v, w);
    PairedJoins(v + w, x);
    PairedJoins(v + w + x, y);
    PairedJoins(v + w + x + y, z);
  }

  lemma DirectoriesAreForFiles(c: Command, render: Path -> Bytes, missing: set<Path>)
    ensures Paired(Writes(c, render, missing))
    ensures StaysWithin(Writes(c, render, missing), Files(Writes(c, render, missing)))
  {
    PartsArePaired(c, render, missing);
    hide Script, Renders, Paired;
    ScriptRenders(c, render, missing);
    PairedStaysWithin(Writes(c, render, missing), render);
  }

  lemma PairedStaysWithin(script: seq<Action>, render: Path -> Bytes)
    requires Paired(script) && Renders(script, render)
    ensures StaysWithin(script, Files(script))
  {
    forall i | 0 <= i < |script| ensures Targets(script[i]) <= Files(script) {
      assert script[i] in script;
    }
  }

  lemma PartsArePaired(c: Command, render: Path -> Bytes, missing: set<Path>)
    ensures Paired(Writes(c, render, missing))
  {
    hide Paired, Save, SaveMissing, AddRequirements, ServicePaths, AllServicePaths, HasWorkspaceBindings;
    EmptyIsPaired();
    SaveIsPaired(SERVER_CODE, render);
    SaveIsPaired(CLIENT_CODE, render);
    SaveIsPaired(MANIFEST, render);
    WriteIsPaired(LOCAL_CONFIG, render(LOCAL_CONFIG));
    WriteIsPaired(GO_MOD, render(GO_MOD));
    match c {
      case BindServer(b, _) =>
        SaveMissingIsPaired(ServicePaths(b), missing, render);
        FiveArePaired(AddRequirement(b, render), Save(SERVER_CODE, render),
            SaveMissing(ServicePaths(b), missing, render), Save(MANIFEST, render), []);
      case BindClient(b, replaced, _) =>
        FiveArePaired(AddRequirement(b, render), Save(CLIENT_CODE, render),
          if replaced then [] else [Write(LOCAL_CONFIG, render(LOCAL_CONFIG))], Save(MANIFEST, render), []);
      case UnbindServer(_) =>
        PairedJoins(Save(SERVER_CODE, render), Save(MANIFEST, render));
        PairedJoins(Save(SERVER_CODE, render) + Save(MANIFEST, render), []);
      case UnbindClient(_) =>
        var one := Save(CLIENT_CODE, render) + [Write(LOCAL_CONFIG, render(LOCAL_CONFIG))];
        PairedJoins(Save(CLIENT_CODE, render), [Write(LOCAL_CONFIG, render(LOCAL_CONFIG))]);
        PairedJoins(one, Save(MANIFEST, render));
        PairedJoins(one + Save(MANIFEST, render), []);
      case Generate(m, registered) =>
        RequirementsArePaired(m.servers + m.clients, render);
        SaveMissingIsPaired(AllServicePaths(m.servers), missing, render);
        var server := if registered then Save(SERVER_CODE, render) else [];
        FiveArePaired(AddRequirements(m.servers + m.clients, render), server,
          SaveMissing(AllServicePaths(m.servers), missing, render), Save(CLIENT_CODE, render), Save(MANIFEST, render));
        PairedJoins(AddRequirements(m.servers + m.clients, render) + server
          + SaveMissing(AllServicePaths(m.servers), missing, render) + Save(CLIENT_CODE, render)
          + Save(MANIFEST, render), []);
      case ReconcileEmpty(registered) =>
        var server := if registered then Save(SERVER_CODE, render) else [];
        PairedJoins(server, Save(CLIENT_CODE, render));
        PairedJoins(server + Save(CLIENT_CODE, render), []);
    }
  }
}
