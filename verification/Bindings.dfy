// The binding manifest and its validator
// (internal/generator/rpcbinding/binding.go).
module Bindings {
  import opened Text
  import opened Naming

  datatype Method = Method(name: string, request: string, response: string)

  datatype Binding = Binding(name: string, modulePath: string, version: string, package: string, goPackage: string,
                             service: string, handler: string, methods: seq<Method>, address: string)

  datatype Manifest = Manifest(servers: seq<Binding>, clients: seq<Binding>)

  const EMPTY := Manifest([], [])

  // ---------------------------------------------------------------------
  // One binding
  // ---------------------------------------------------------------------

  function Key(b: Binding): string {
    b.package + "\0" + b.service
  }

  function HandlerType(b: Binding): string {
    b.handler + "Handler"
  }

  function MethodNames(b: Binding): seq<string> {
    seq(|b.methods|, i requires 0 <= i < |b.methods| => b.methods[i].name)
  }

  function ServiceFiles(b: Binding): seq<string> {
    Files(HandlerType(b), MethodNames(b))
  }

  predicate Blank(s: string) {
    Trim(s) == ""
  }

  predicate MethodOk(m: Method) {
    ExportedIdentifier(m.name) && ExportedIdentifier(m.request) && ExportedIdentifier(m.response)
  }

  ghost predicate MethodsOk(b: Binding) {
    (forall i :: 0 <= i < |b.methods| ==> MethodOk(b.methods[i])) && NoDuplicates(MethodNames(b))
  }

  predicate Complete(b: Binding) {
    !Blank(b.modulePath) && !Blank(b.package) && !Blank(b.service)
  }

  ghost predicate ServerOk(b: Binding) {
    Complete(b) && ValidHandlerName(b.handler) && MethodsOk(b) && NoDuplicates(ServiceFiles(b))
  }

  ghost predicate ClientOk(b: Binding) {
    ValidName(b.name) && Complete(b) && MethodsOk(b)
  }

  // The validator refuses a binding with valid handler name and methods for its
  // own files exactly when two of its method names fold alike.
  lemma OwnFilesCollideExactly(b: Binding)
    requires ValidHandlerName(b.handler) && MethodsOk(b)
    ensures NoDuplicates(ServiceFiles(b)) <==>
              forall i, j :: 0 <= i < j < |b.methods| ==> Fold(b.methods[i].name) != Fold(b.methods[j].name)
  {
    hide Fold, Files;
    var names := MethodNames(b);
    forall i | 0 <= i < |names| ensures IsExported(names[i]) { assert MethodOk(b.methods[i]); }
    assert IsExported(HandlerType(b));
    OneBindingCollidesExactly(HandlerType(b), names);
    assert forall i :: 0 <= i < |names| ==> names[i] == b.methods[i].name;
  }

  // ---------------------------------------------------------------------
  // Validity of a manifest: a property of its bindings taken one at a time
  // and two at a time
  // ---------------------------------------------------------------------

  ghost predicate ServersAgree(b: Binding, c: Binding) {
    Key(b) != Key(c) && HandlerType(b) != HandlerType(c) && forall f :: f in ServiceFiles(b) ==> f !in ServiceFiles(c)
  }

  ghost predicate ClientsAgree(b: Binding, c: Binding) {
    b.name != c.name && Exported(b.name) != Exported(c.name)
  }

  ghost predicate ValidServers(xs: seq<Binding>) {
    && (forall i :: 0 <= i < |xs| ==> ServerOk(xs[i]))
    && (forall i, j :: 0 <= i < j < |xs| ==> ServersAgree(xs[i], xs[j]))
  }

  ghost predicate ValidClients(xs: seq<Binding>) {
    && (forall i :: 0 <= i < |xs| ==> ClientOk(xs[i]))
    && (forall i, j :: 0 <= i < j < |xs| ==> ClientsAgree(xs[i], xs[j]))
  }

  ghost predicate Valid(m: Manifest) {
    ValidServers(m.servers) && ValidClients(m.clients)
  }

  // ---------------------------------------------------------------------
  // validateBindingMethods
  // ---------------------------------------------------------------------

  method ValidateMethods(b: Binding) returns (ok: bool)
    ensures ok <==> MethodsOk(b)
  {
    hide MethodOk;
    var seen: set<string> := {};
    for i := 0 to |b.methods|
      invariant forall j :: 0 <= j < i ==> MethodOk(b.methods[j])
      invariant seen == set j | 0 <= j < i :: b.methods[j].name
      invariant forall j, k :: 0 <= j < k < i ==> b.methods[j].name != b.methods[k].name
    {
      if !MethodOk(b.methods[i]) { return false; }
      if b.methods[i].name in seen {
        var j :| 0 <= j < i && b.methods[j].name == b.methods[i].name;
        assert MethodNames(b)[j] == MethodNames(b)[i];
        return false;
      }
      seen := seen + {b.methods[i].name};
    }
    return true;
  }

  // ---------------------------------------------------------------------
  // validateManifest
  // ---------------------------------------------------------------------

  ghost function Keys(xs: seq<Binding>): set<string> {
    set i | 0 <= i < |xs| :: Key(xs[i])
  }

  ghost function HandlerTypes(xs: seq<Binding>): set<string> {
    set i | 0 <= i < |xs| :: HandlerType(xs[i])
  }

  ghost function AllFiles(xs: seq<Binding>): set<string> {
    set i, f | 0 <= i < |xs| && f in ServiceFiles(xs[i]) :: f
  }

  ghost function Names(xs: seq<Binding>): set<string> {
    set i | 0 <= i < |xs| :: xs[i].name
  }

  ghost function Fields(xs: seq<Binding>): set<string> {
    set i | 0 <= i < |xs| :: Exported(xs[i].name)
  }

  lemma ValidServersPrefix(xs: seq<Binding>, n: nat)
    requires n <= |xs| && ValidServers(xs)
    ensures ValidServers(xs[..n])
  {
    hide ServerOk, ServersAgree;
  }

  lemma ValidClientsPrefix(xs: seq<Binding>, n: nat)
    requires n <= |xs| && ValidClients(xs)
    ensures ValidClients(xs[..n])
  {
    hide ClientOk, ClientsAgree;
  }

  lemma ServersStep(xs: seq<Binding>, b: Binding)
    requires ValidServers(xs)
    ensures ValidServers(xs + [b]) <==>
              && ServerOk(b)
              && Key(b) !in Keys(xs)
              && HandlerType(b) !in HandlerTypes(xs)
              && forall f :: f in ServiceFiles(b) ==> f !in AllFiles(xs)
  {
    hide ServerOk, Key, HandlerType, ServiceFiles;
    var ys := xs + [b];
    assert forall i :: 0 <= i < |xs| ==> ys[i] == xs[i];
    assert ys[|xs|] == b;
    if ValidServers(ys) {
      assert forall i :: 0 <= i < |xs| ==> ServersAgree(ys[i], ys[|xs|]);
    }
    if ServerOk(b) && Key(b) !in Keys(xs) && HandlerType(b) !in HandlerTypes(xs)
       && forall f :: f in ServiceFiles(b) ==> f !in AllFiles(xs) {
      forall i | 0 <= i < |xs| ensures ServersAgree(xs[i], b) {
        assert Key(xs[i]) in Keys(xs) && HandlerType(xs[i]) in HandlerTypes(xs);
        assert forall f :: f in ServiceFiles(xs[i]) ==> f in AllFiles(xs);
      }
    }
  }

  lemma ClientsStep(xs: seq<Binding>, b: Binding)
    requires ValidClients(xs)
    ensures ValidClients(xs + [b]) <==>
              ClientOk(b) && b.name !in Names(xs) && Exported(b.name) !in Fields(xs)
  {
    hide ClientOk;
    var ys := xs + [b];
    assert forall i :: 0 <= i < |xs| ==> ys[i] == xs[i];
    assert ys[|xs|] == b;
    if ValidClients(ys) {
      assert forall i :: 0 <= i < |xs| ==> ClientsAgree(ys[i], ys[|xs|]);
    }
    if ClientOk(b) && b.name !in Names(xs) && Exported(b.name) !in Fields(xs) {
      forall i | 0 <= i < |xs| ensures ClientsAgree(xs[i], b) {
        assert xs[i].name in Names(xs) && Exported(xs[i].name) in Fields(xs);
      }
    }
  }

  lemma ServerSetsGrow(xs: seq<Binding>, b: Binding)
    ensures Keys(xs + [b]) == Keys(xs) + {Key(b)}
    ensures HandlerTypes(xs + [b]) == HandlerTypes(xs) + {HandlerType(b)}
    ensures AllFiles(xs + [b]) == AllFiles(xs) + set f | f in ServiceFiles(b)
  {
    hide Key, HandlerType, ServiceFiles;
    var ys := xs + [b];
    assert forall i :: 0 <= i < |xs| ==> ys[i] == xs[i];
    assert ys[|xs|] == b;
  }

  lemma ClientSetsGrow(xs: seq<Binding>, b: Binding)
    ensures Names(xs + [b]) == Names(xs) + {b.name}
    ensures Fields(xs + [b]) == Fields(xs) + {Exported(b.name)}
  {
    var ys := xs + [b];
    assert forall i :: 0 <= i < |xs| ==> ys[i] == xs[i];
    assert ys[|xs|] == b;
  }

  // Claims the service files of one binding: succeeds exactly when they are
  // pairwise different and none is claimed yet.
  method ClaimFiles(claimed: set<string>, paths: seq<string>) returns (ok: bool, after: set<string>)
    ensures ok <==> NoDuplicates(paths) && forall f :: f in paths ==> f !in claimed
    ensures ok ==> after == claimed + set f | f in paths
  {
    after := claimed;
    for i := 0 to |paths|
      invariant after == claimed + set f | f in paths[..i]
      invariant NoDuplicates(paths[..i]) && forall f :: f in paths[..i] ==> f !in claimed
    {
      assert paths[..i + 1] == paths[..i] + [paths[i]];
      if paths[i] in after {
        if paths[i] !in claimed {
          var j :| 0 <= j < i && paths[j] == paths[i];
        }
        return false, after;
      }
      after := after + {paths[i]};
    }
    assert paths[..|paths|] == paths;
    ok := true;
  }

  method ValidateServers(xs: seq<Binding>) returns (ok: bool)
    ensures ok <==> ValidServers(xs)
  {
    hide Key, HandlerType, ServiceFiles, MethodsOk, ValidServers, ValidHandlerName, Complete, Keys, HandlerTypes,
      AllFiles, NoDuplicates;
    var keys: set<string>, handlers: set<string>, files: set<string> := {}, {}, {};
    NoServers();
    assert xs[..0] == [];
    for i := 0 to |xs|
      invariant ValidServers(xs[..i])
      invariant keys == Keys(xs[..i]) && handlers == HandlerTypes(xs[..i]) && files == AllFiles(xs[..i])
    {
      var b := xs[i];
      assert xs[..i + 1] == xs[..i] + [b];
      ServersStep(xs[..i], b);
      ServerSetsGrow(xs[..i], b);
      if !ValidServers(xs[..i + 1]) { NotPrefix(xs, i + 1); }
      if !Complete(b) { return false; }
      if !ValidHandlerName(b.handler) { return false; }
      if Key(b) in keys { return false; }
      keys := keys + {Key(b)};
      if HandlerType(b) in handlers { return false; }
      handlers := handlers + {HandlerType(b)};
      var methodsOk := ValidateMethods(b);
      if !methodsOk { return false; }
      var filesOk, after := ClaimFiles(files, ServiceFiles(b));
      if !filesOk { return false; }
      files := after;
    }
    assert xs[..|xs|] == xs;
    return true;
  }

  lemma NotPrefix(xs: seq<Binding>, n: nat)
    requires n <= |xs| && !ValidServers(xs[..n])
    ensures !ValidServers(xs)
  {
    if ValidServers(xs) { ValidServersPrefix(xs, n); }
  }

  lemma NotClientPrefix(xs: seq<Binding>, n: nat)
    requires n <= |xs| && !ValidClients(xs[..n])
    ensures !ValidClients(xs)
  {
    if ValidClients(xs) { ValidClientsPrefix(xs, n); }
  }

  lemma NoServers()
    ensures ValidServers([]) && Keys([]) == {} && HandlerTypes([]) == {} && AllFiles([]) == {}
    ensures ValidClients([]) && Names([]) == {} && Fields([]) == {}
  {
  }

  method ValidateClients(xs: seq<Binding>) returns (ok: bool)
    ensures ok <==> ValidClients(xs)
  {
    hide MethodsOk, ValidClients, ValidName, Exported, Complete, Names, Fields;
    var clients: set<string>, fields: set<string> := {}, {};
    NoServers();
    assert xs[..0] == [];
    for i := 0 to |xs|
      invariant ValidClients(xs[..i])
      invariant clients == Names(xs[..i]) && fields == Fields(xs[..i])
    {
      var b := xs[i];
      assert xs[..i + 1] == xs[..i] + [b];
      ClientsStep(xs[..i], b);
      ClientSetsGrow(xs[..i], b);
      if !ValidClients(xs[..i + 1]) { NotClientPrefix(xs, i + 1); }
      if !ValidName(b.name) || !Complete(b) { return false; }
      if b.name in clients { return false; }
      clients := clients + {b.name};
      if Exported(b.name) in fields { return false; }
      fields := fields + {Exported(b.name)};
      var methodsOk := ValidateMethods(b);
      if !methodsOk { return false; }
    }
    assert xs[..|xs|] == xs;
    return true;
  }

  // The validator accepts exactly the valid manifests.
  method ValidateManifest(m: Manifest) returns (ok: bool)
    ensures ok <==> Valid(m)
  {
    ok := ValidateServers(m.servers);
    if ok { ok := ValidateClients(m.clients); }
  }
}
