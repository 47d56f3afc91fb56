// The files each binding command declares, and the files it writes
// (internal/generator/rpcbinding/binding.go). Rendered contents are a
// parameter; `missing` says which handler and stub files have to be created.
module Mutations {
  import opened FileTree
  import opened Bindings
  import opened Transactions

  const MANIFEST: Path := [".jgo", "rpc.json"]
  const LOCAL_CONFIG: Path := ["configs", "local.yaml"]
  const SERVER_CODE: Path := ["internal", "transport", "grpc", "external.gen.go"]
  const CLIENT_CODE: Path := ["internal", "rpcclient", "clients.gen.go"]

  function ServicePath(file: Name): Path {
    ["internal", "service", file]
  }

  // The handler file and the stub files of a server binding.
  function ServicePaths(b: Binding): seq<Path> {
    var files := ServiceFiles(b);
    seq(|files|, i requires 0 <= i < |files| => ServicePath(files[i]))
  }

  function AllServicePaths(servers: seq<Binding>): seq<Path> {
    if servers == [] then [] else AllServicePaths(servers[..|servers| - 1]) + ServicePaths(servers[|servers| - 1])
  }

  // ---------------------------------------------------------------------
  // Declared paths
  // ---------------------------------------------------------------------

  datatype Command =
    | BindServer(b: Binding, skipTidy: bool)
    | BindClient(b: Binding, replaced: bool, skipTidy: bool)
    | UnbindServer(workspace: bool)
    | UnbindClient(workspace: bool)
    | Generate(m: Manifest, registered: bool)
    | ReconcileEmpty(registered: bool)

  function Declared(c: Command): seq<Path> {
    match c
    case BindServer(b, _) => [GO_MOD, GO_SUM, MANIFEST, SERVER_CODE] + ServicePaths(b)
    case BindClient(_, _, _) => [GO_MOD, GO_SUM, MANIFEST, LOCAL_CONFIG, CLIENT_CODE]
    case UnbindServer(_) => [GO_MOD, GO_SUM, MANIFEST, SERVER_CODE]
    case UnbindClient(_) => [GO_MOD, GO_SUM, MANIFEST, LOCAL_CONFIG, CLIENT_CODE]
    case Generate(m, registered) =>
      [GO_MOD, GO_SUM, MANIFEST, CLIENT_CODE] + (if registered then [SERVER_CODE] else []) + AllServicePaths(m.servers)
    case ReconcileEmpty(registered) => [GO_MOD, GO_SUM, CLIENT_CODE] + if registered then [SERVER_CODE] else []
  }

  // ---------------------------------------------------------------------
  // Written paths, step by step
  // ---------------------------------------------------------------------

  // writeGo and saveManifest make the directory first.
  function Save(p: Path, render: Path -> Bytes): seq<Action> {
    [MakeDirectories(p), Write(p, render(p))]
  }

  function SaveMissing(paths: seq<Path>, missing: set<Path>, render: Path -> Bytes): seq<Action> {
    if paths == [] then []
    else
      var rest := SaveMissing(paths[..|paths| - 1], missing, render);
      var last := paths[|paths| - 1];
      if last in missing then rest + Save(last, render) else rest
  }

  function AddRequirement(b: Binding, render: Path -> Bytes): seq<Action> {
    if b.version == "" then [] else [Write(GO_MOD, render(GO_MOD))]
  }

  function AddRequirements(bindings: seq<Binding>, render: Path -> Bytes): seq<Action> {
    if bindings == [] then []
    else AddRequirements(bindings[..|bindings| - 1], render) + AddRequirement(bindings[|bindings| - 1], render)
  }

  predicate HasWorkspaceBindings(m: Manifest) {
    exists b :: b in m.servers + m.clients && b.version == ""
  }

  function Script(c: Command, render: Path -> Bytes, missing: set<Path>, tidy: seq<Action>): seq<Action> {
    match c
    case BindServer(b, skipTidy) =>
      AddRequirement(b, render) + Save(SERVER_CODE, render) + SaveMissing(ServicePaths(b), missing, render)
      + Save(MANIFEST, render) + (if skipTidy || b.version == "" then [] else tidy)
    case BindClient(b, replaced, skipTidy) =>
      AddRequirement(b, render) + Save(CLIENT_CODE, render)
      + (if replaced then [] else [Write(LOCAL_CONFIG, render(LOCAL_CONFIG))])
      + Save(MANIFEST, render) + (if skipTidy || b.version == "" then [] else tidy)
    case UnbindServer(workspace) =>
      Save(SERVER_CODE, render) + Save(MANIFEST, render) + (if workspace then [] else tidy)
    case UnbindClient(workspace) =>
      Save(CLIENT_CODE, render) + [Write(LOCAL_CONFIG, render(LOCAL_CONFIG))] + Save(MANIFEST, render)
      + (if workspace then [] else tidy)
    case Generate(m, registered) =>
      AddRequirements(m.servers + m.clients, render) + (if registered then Save(SERVER_CODE, render) else [])
      + SaveMissing(AllServicePaths(m.servers), missing, render) + Save(CLIENT_CODE, render) + Save(MANIFEST, render)
      + (if HasWorkspaceBindings(m) then [] else tidy)
    case ReconcileEmpty(registered) =>
      (if registered then Save(SERVER_CODE, render) else []) + Save(CLIENT_CODE, render) + tidy
  }

  // The set of paths a script writes.
  function Written(script: seq<Action>): set<Path> {
    set a, p | a in script && p in Targets(a) :: p
  }

  lemma WrittenJoins(a: seq<Action>, b: seq<Action>)
    ensures Written(a + b) == Written(a) + Written(b)
  {
    hide Targets;
  }

  lemma WrittenStaysWithin(script: seq<Action>, declared: set<Path>)
    ensures Written(script) <= declared <==> StaysWithin(script, declared)
  {
    hide Targets;
    if Written(script) <= declared {
      forall i | 0 <= i < |script| ensures Targets(script[i]) <= declared {
        forall p | p in Targets(script[i]) ensures p in declared { assert p in Written(script); }
      }
    }
  }

  lemma SaveWrites(p: Path, render: Path -> Bytes)
    ensures Written(Save(p, render)) == {p}
  {
    assert Targets(MakeDirectories(p)) == {p} && Targets(Write(p, render(p))) == {p};
    assert MakeDirectories(p) in Save(p, render);
  }

  lemma {:induction false} SaveMissingWrites(paths: seq<Path>, missing: set<Path>, render: Path -> Bytes)
    ensures Written(SaveMissing(paths, missing, render)) == missing * set p | p in paths
    decreases |paths|
  {
    hide Targets, Written, Save;
    if paths == [] {
      NothingWritten();
    } else {
      var n := |paths| - 1;
      var last := paths[n];
      assert paths == paths[..n] + [last];
      SaveMissingWrites(paths[..n], missing, render);
      SaveWrites(last, render);
      WrittenJoins(SaveMissing(paths[..n], missing, render), Save(last, render));
    }
  }

  lemma NothingWritten()
    ensures Written([]) == {}
  {
  }

  lemma WriteWrites(p: Path, contents: Bytes)
    ensures Written([Write(p, contents)]) == {p}
  {
    assert Targets(Write(p, contents)) == {p};
  }

  lemma {:induction false} RequirementsWrite(bindings: seq<Binding>, render: Path -> Bytes)
    ensures Written(AddRequirements(bindings, render)) <= {GO_MOD}
    decreases |bindings|
  {
    hide Targets, Written;
    NothingWritten();
    WriteWrites(GO_MOD, render(GO_MOD));
    if bindings != [] {
      var n := |bindings| - 1;
      RequirementsWrite(bindings[..n], render);
      WrittenJoins(AddRequirements(bindings[..n], render), AddRequirement(bindings[n], render));
    }
  }

  // Every command writes only paths that it declares, whatever files are
  // missing and whatever the go command does to go.mod and go.sum.
  lemma CommandsStayWithinDeclaredPaths(c: Command, render: Path -> Bytes, missing: set<Path>, goMod: FileState,
      goSum: FileState)
    ensures StaysWithin(Script(c, render, missing, [GoCommand(goMod, goSum)]), set p | p in Declared(c))
  {
    hide Targets, Written, Save, SaveMissing, AddRequirements, AddRequirement, ServicePaths, AllServicePaths,
      HasWorkspaceBindings, StaysWithin;
    var tidy := [GoCommand(goMod, goSum)];
    var script := Script(c, render, missing, tidy);
    var declared := set p | p in Declared(c);
    TidyWrites(goMod, goSum);
    NothingWritten();
    SaveWrites(SERVER_CODE, render);
    SaveWrites(CLIENT_CODE, render);
    SaveWrites(MANIFEST, render);
    WriteWrites(LOCAL_CONFIG, render(LOCAL_CONFIG));
    match c {
      case BindServer(b, skipTidy) =>
        RequirementWrites(b, render);
        SaveMissingWrites(ServicePaths(b), missing, render);
        var one := AddRequirement(b, render) + Save(SERVER_CODE, render);
        var two := one + SaveMissing(ServicePaths(b), missing, render);
        var three := two + Save(MANIFEST, render);
        WrittenJoins(AddRequirement(b, render), Save(SERVER_CODE, render));
        WrittenJoins(one, SaveMissing(ServicePaths(b), missing, render));
        WrittenJoins(two, Save(MANIFEST, render));
        WrittenJoins(three, if skipTidy || b.version == "" then [] else tidy);
      case BindClient(b, replaced, skipTidy) =>
        RequirementWrites(b, render);
        var config := if replaced then [] else [Write(LOCAL_CONFIG, render(LOCAL_CONFIG))];
        var one := AddRequirement(b, render) + Save(CLIENT_CODE, render);
        WrittenJoins(AddRequirement(b, render), Save(CLIENT_CODE, render));
        WrittenJoins(one, config);
        WrittenJoins(one + config, Save(MANIFEST, render));
        WrittenJoins(one + config + Save(MANIFEST, render), if skipTidy || b.version == "" then [] else tidy);
      case UnbindServer(workspace) =>
        WrittenJoins(Save(SERVER_CODE, render), Save(MANIFEST, render));
        WrittenJoins(Save(SERVER_CODE, render) + Save(MANIFEST, render), if workspace then [] else tidy);
      case UnbindClient(workspace) =>
        var one := Save(CLIENT_CODE, render) + [Write(LOCAL_CONFIG, render(LOCAL_CONFIG))];
        WrittenJoins(Save(CLIENT_CODE, render), [Write(LOCAL_CONFIG, render(LOCAL_CONFIG))]);
        WrittenJoins(one, Save(MANIFEST, render));
        WrittenJoins(one + Save(MANIFEST, render), if workspace then [] else tidy);
      case Generate(m, registered) =>
        GenerateStaysWithin(m, registered, render, missing, tidy);
      case ReconcileEmpty(registered) =>
        var server := if registered then Save(SERVER_CODE, render) else [];
        WrittenJoins(server, Save(CLIENT_CODE, render));
        WrittenJoins(server + Save(CLIENT_CODE, render), tidy);
    }
    WrittenStaysWithin(script, declared);
  }

  lemma GenerateStaysWithin(m: Manifest, registered: bool, render: Path -> Bytes, missing: set<Path>, tidy: seq<Action>)
    requires Written(tidy) == {GO_MOD, GO_SUM}
    ensures Written(Script(Generate(m, registered), render, missing, tidy)) <=
              set p | p in Declared(Generate(m, registered))
  {
    hide Targets, Written, Save, SaveMissing, AddRequirements, AllServicePaths, HasWorkspaceBindings;
    NothingWritten();
    SaveWrites(SERVER_CODE, render);
    SaveWrites(CLIENT_CODE, render);
    SaveWrites(MANIFEST, render);
    RequirementsWrite(m.servers + m.clients, render);
    SaveMissingWrites(AllServicePaths(m.servers), missing, render);
    var server := if registered then Save(SERVER_CODE, render) else [];
    var one := AddRequirements(m.servers + m.clients, render) + server;
    var two := one + SaveMissing(AllServicePaths(m.servers), missing, render);
    var three := two + Save(CLIENT_CODE, render);
    var four := three + Save(MANIFEST, render);
    WrittenJoins(AddRequirements(m.servers + m.clients, render), server);
    WrittenJoins(one, SaveMissing(AllServicePaths(m.servers), missing, render));
    WrittenJoins(two, Save(CLIENT_CODE, render));
    WrittenJoins(three, Save(MANIFEST, render));
    WrittenJoins(four, if HasWorkspaceBindings(m) then [] else tidy);
  }

  lemma TidyWrites(goMod: FileState, goSum: FileState)
    ensures Written([GoCommand(goMod, goSum)]) == {GO_MOD, GO_SUM}
  {
    assert Targets(GoCommand(goMod, goSum)) == {GO_MOD, GO_SUM};
    assert GoCommand(goMod, goSum) in [GoCommand(goMod, goSum)];
  }

  lemma RequirementWrites(b: Binding, render: Path -> Bytes)
    ensures Written(AddRequirement(b, render)) <= {GO_MOD}
  {
    NothingWritten();
    WriteWrites(GO_MOD, render(GO_MOD));
  }

  // ---------------------------------------------------------------------
  // No declared path lies below another
  // ---------------------------------------------------------------------

  predicate IsServicePath(p: Path) {
    |p| == 3 && p[..2] == ["internal", "service"]
  }

  predicate IsManagedPath(p: Path) {
    p in {GO_MOD, GO_SUM, MANIFEST, LOCAL_CONFIG, SERVER_CODE, CLIENT_CODE} || IsServicePath(p)
  }

  lemma ManagedPathsDoNotNest(p: Path, q: Path)
    requires IsManagedPath(p) && IsManagedPath(q)
    ensures !(p < q)
  {
    assert p <= q ==> p[0] == q[0] && (|p| >= 2 ==> p[1] == q[1]);
  }

  lemma ServicePathsAreManaged(b: Binding)
    ensures forall p :: p in ServicePaths(b) ==> IsServicePath(p)
  {
    hide ServiceFiles;
  }

  lemma {:induction false} AllServicePathsAreManaged(servers: seq<Binding>)
    ensures forall p :: p in AllServicePaths(servers) ==> IsServicePath(p)
    decreases |servers|
  {
    hide ServicePaths, IsServicePath;
    if servers != [] {
      AllServicePathsAreManaged(servers[..|servers| - 1]);
      ServicePathsAreManaged(servers[|servers| - 1]);
    }
  }

  lemma DeclaredPathsArePrefixFree(c: Command)
    ensures PrefixFree(set p | p in Declared(c))
  {
    hide ServicePaths, AllServicePaths, IsServicePath;
    match c {
      case BindServer(b, _) => ServicePathsAreManaged(b);
      case Generate(m, _) => AllServicePathsAreManaged(m.servers);
      case _ =>
    }
    forall p, q | p in Declared(c) && q in Declared(c) ensures !(p < q) {
      ManagedPathsDoNotNest(p, q);
    }
  }

  // A command that fails after any number of its steps leaves every file of
  // the project as it was, up to new directories.
  method Execute(store: Store, c: Command, render: Path -> Bytes, missing: set<Path>,
                 goMod: FileState, goSum: FileState, failsAt: FileTree.Option<nat>) returns (v: Verdict)
    requires Wf(store.tree)
    requires failsAt.Some? ==> failsAt.value <= |Script(c, render, missing, [GoCommand(goMod, goSum)])|
    modifies store
    ensures
      var o := PerformAll(old(store.tree), Script(c, render, missing, [GoCommand(goMod, goSum)]));
      && (v == Committed <==>
            && failsAt.None? && o.error.None?
            && forall p :: p in Declared(c) ==> Manageable(old(store.tree), p))
      && (v == Committed ==> store.tree == o.tree)
    ensures v == RefusedPath ==> store.tree == old(store.tree)
    ensures v.RolledBackAfterError? ==> v.failures == 0 && SameUpToNewDirectories(old(store.tree), store.tree)
  {
    hide Script, Declared, PerformAll, StaysWithin, PrefixFree, Manageable, Wf, SameUpToNewDirectories;
    CommandsStayWithinDeclaredPaths(c, render, missing, goMod, goSum);
    DeclaredPathsArePrefixFree(c);
    v := store.MutateFiles(Declared(c), Script(c, render, missing, [GoCommand(goMod, goSum)]), failsAt);
  }
}
