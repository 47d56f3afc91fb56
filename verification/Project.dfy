// The commands on a project's manifest file, and the package aliases of its
// generated code (internal/generator/rpcbinding/binding.go).
module Projects {
  import opened Text
  import opened Naming
  import opened Bindings
  import opened Canonical
  import opened Manifests
  import opened Runs

  // A refused operation or a failed mutation leaves the manifest file alone.
  ghost function Committed(o: Outcome, mutated: bool): Outcome {
    if o.Done? && !mutated then Refused(MutationFailed) else o
  }

  ghost predicate Follows(before: Manifest, o: Outcome, after: Manifest) {
    after == if o.Done? then o.m else before
  }

  // The canonical manifest is written; the write canonicalizes once more.
  lemma SaveKeepsCanonical(m: Manifest)
    requires IsCanonical(m)
    ensures Canonicalize(m) == m
  {
    hide Strict, Sort;
    SortedIsFixed(Servers, m.servers);
    SortedIsFixed(Clients, m.clients);
  }

  // An answer for the package and service that were asked for.
  predicate Same(resolved: Binding, asked: Binding) {
    resolved.package == asked.package && resolved.service == asked.service
  }

  // The filter of unbind, in place: entries that do not match move down over
  // those that do.
  method CompactServers(servers: array<Binding>, service: string, package: string) returns (kept: nat, found: bool)
    modifies servers
    ensures kept <= servers.Length
    ensures servers[..kept] == OtherServers(old(servers[..]), service, package)
    ensures found <==> exists b :: b in old(servers[..]) && Matches(b, service, package)
  {
    kept, found := 0, false;
    ghost var was := servers[..];
    for i := 0 to servers.Length
      invariant kept <= i && forall j :: i <= j < servers.Length ==> servers[j] == was[j]
      invariant servers[..kept] == OtherServers(was[..i], service, package)
      invariant found <==> exists b :: b in was[..i] && Matches(b, service, package)
    {
      var b := servers[i];
      assert was[..i + 1] == was[..i] + [b] && was[..i + 1][..i] == was[..i];
      if Matches(b, service, package) {
        found := true;
      } else {
        servers[kept] := b;
        kept := kept + 1;
      }
    }
    assert was[..servers.Length] == was;
  }

  method CompactClients(clients: array<Binding>, name: string) returns (kept: nat, found: bool)
    modifies clients
    ensures kept <= clients.Length
    ensures clients[..kept] == OtherClients(old(clients[..]), name)
    ensures found <==> exists b :: b in old(clients[..]) && b.name == name
  {
    kept, found := 0, false;
    ghost var was := clients[..];
    for i := 0 to clients.Length
      invariant kept <= i && forall j :: i <= j < clients.Length ==> clients[j] == was[j]
      invariant clients[..kept] == OtherClients(was[..i], name)
      invariant found <==> exists b :: b in was[..i] && b.name == name
    {
      var b := clients[i];
      assert was[..i + 1] == was[..i] + [b] && was[..i + 1][..i] == was[..i];
      if b.name == name {
        found := true;
      } else {
        clients[kept] := b;
        kept := kept + 1;
      }
    }
    assert was[..clients.Length] == was;
  }

  method CountMatches(xs: seq<Binding>, service: string) returns (n: nat)
    ensures n == CountService(xs, service)
  {
    n := 0;
    for i := 0 to |xs|
      invariant n == CountService(xs[..i], service)
    {
      assert xs[..i + 1][..i] == xs[..i];
      if xs[i].service == service { n := n + 1; }
    }
    assert xs[..|xs|] == xs;
  }

  // The scan of BindServer for an entry with the same key, which keeps its
  // handler name.
  method Replace(xs: seq<Binding>, b: Binding, normalized: string) returns (fixed: bool, replaced: bool,
      servers: seq<Binding>)
    ensures var i := IndexOfKey(xs, Key(b));
            && (fixed <==> i < |xs| && normalized != "" && normalized != xs[i].handler)
            && (!fixed ==> (replaced <==> i < |xs|))
            && (!fixed ==> servers == if replaced then xs[i := b.(handler := xs[i].handler)] else xs)
  {
    hide Key;
    servers := xs;
    for index := 0 to |servers|
      invariant servers == xs
      invariant forall j :: 0 <= j < index ==> Key(servers[j]) != Key(b)
    {
      var existing := servers[index];
      if Key(existing) == Key(b) {
        assert IndexOfKey(xs, Key(b)) == index;
        if normalized != "" && normalized != existing.handler { return true, false, xs; }
        servers := servers[index := b.(handler := existing.handler)];
        return false, true, servers;
      }
    }
    return false, false, servers;
  }

  class Project {
    // The contents of .jgo/rpc.json.
    var manifest: Manifest

    constructor ()
      ensures manifest == EMPTY
    {
      manifest := EMPTY;
    }

    method BindServer(b: Binding, handlerName: string, mutated: bool) returns (o: Outcome)
      modifies this
      ensures o == Committed(BoundServer(old(manifest), b, handlerName), mutated)
      ensures Follows(old(manifest), o, manifest)
    {
      hide Valid, IsCanonical, Key, ValidHandlerName, DefaultHandlerName, NormalizeHandlerName, Canonicalize;
      var loadable := ValidateManifest(manifest);
      if !loadable { return Refused(InvalidManifest); }
      var requested := Trim(handlerName);
      var normalized := NormalizeHandlerName(requested);
      if requested != "" && !ValidHandlerName(normalized) { return Refused(InvalidHandlerName); }
      var fixed, replaced, servers := Replace(manifest.servers, b, normalized);
      if fixed { return Refused(HandlerIsFixed); }
      if !replaced {
        var handler := if normalized == "" then DefaultHandlerName(b.service) else normalized;
        if !ValidHandlerName(handler) { return Refused(InvalidHandlerName); }
        servers := servers + [b.(handler := handler)];
      }
      BindServerKeeps(manifest, b, handlerName);
      var state := Canonicalize(manifest.(servers := servers));
      var valid := ValidateManifest(state);
      if !valid { return Refused(InvalidManifest); }
      if !mutated { return Refused(MutationFailed); }
      SaveKeepsCanonical(state);
      manifest := Canonicalize(state);
      return Done(state);
    }

    method BindClient(b: Binding, name: string, address: string, mutated: bool) returns (o: Outcome)
      requires Resolved(b)
      modifies this
      ensures o == Committed(BoundClient(old(manifest), b, name, address), mutated)
      ensures Follows(old(manifest), o, manifest)
    {
      hide Valid, IsCanonical, ValidName, Exported, Canonicalize, DefaultClientName, Trim, Resolved;
      var bound := b.(name := Trim(name));
      if bound.name == "" { bound := bound.(name := DefaultClientName(b.service)); }
      if !ValidName(bound.name) { return Refused(InvalidClientName); }
      var fieldName := Exported(bound.name);
      if fieldName == "" { return Refused(NoUsableField); }
      bound := bound.(address := Trim(address));
      if bound.address == "" { bound := bound.(address := "127.0.0.1:9090"); }
      var loadable := ValidateManifest(manifest);
      if !loadable { return Refused(InvalidManifest); }
      var clients := manifest.clients;
      var replaced := false;
      for index := 0 to |clients|
        invariant !replaced && clients == manifest.clients
        invariant forall j :: 0 <= j < index ==> clients[j].name != bound.name && Exported(clients[j].name) != fieldName
      {
        var existing := clients[index];
        if existing.name == bound.name {
          if existing.service != bound.service { return Refused(NameRepurposed); }
          if existing.package != bound.package { return Refused(PackageDiffers); }
          clients := clients[index := bound.(address := existing.address)];
          replaced := true;
          break;
        }
        if Exported(existing.name) == fieldName { return Refused(FieldsConflict); }
      }
      if !replaced { clients := clients + [bound]; }
      BindClientKeeps(manifest, b, name, address);
      var state := Canonicalize(manifest.(clients := clients));
      if !mutated { return Refused(MutationFailed); }
      SaveKeepsCanonical(state);
      manifest := Canonicalize(state);
      return Done(state);
    }

    // What resolving each entry again answers, in order; a missing answer, or
    // one for another package or service, stands for a failure. `registered`
    // says whether the project has a gRPC transport.
    method Generate(servers: seq<Binding>, clients: seq<Binding>, registered: bool, mutated: bool)
        returns (o: Outcome)
      modifies this
      ensures o ==
        if Valid(old(manifest)) && old(manifest).servers != [] && !registered then Refused(NoTransport)
        else Committed(Regenerated(old(manifest), servers, clients), mutated)
      ensures Follows(old(manifest), o, manifest)
    {
      hide Valid, IsCanonical, Canonicalize;
      var loadable := ValidateManifest(manifest);
      if !loadable { return Refused(InvalidManifest); }
      var m := manifest;
      if |m.servers| == 0 && |m.clients| == 0 {
        return if mutated then Done(m) else Refused(MutationFailed);
      }
      if |m.servers| > 0 && !registered { return Refused(NoTransport); }
      var resolvedServers := [];
      for i := 0 to |m.servers|
        invariant i <= |servers| && |resolvedServers| == i
        invariant forall j :: 0 <= j < i ==> Same(servers[j], m.servers[j])
        invariant forall j :: 0 <= j < i ==> resolvedServers[j] == servers[j].(handler := m.servers[j].handler)
      {
        if i >= |servers| || !Same(servers[i], m.servers[i]) { return Refused(ResolveFailed); }
        resolvedServers := resolvedServers + [servers[i].(handler := m.servers[i].handler)];
      }
      var resolvedClients := [];
      for i := 0 to |m.clients|
        invariant i <= |clients| && |resolvedClients| == i
        invariant forall j :: 0 <= j < i ==> Same(clients[j], m.clients[j])
        invariant forall j :: 0 <= j < i ==>
                    resolvedClients[j] == clients[j].(name := m.clients[j].name, address := m.clients[j].address)
      {
        if i >= |clients| || !Same(clients[i], m.clients[i]) { return Refused(ResolveFailed); }
        resolvedClients :=
          resolvedClients + [clients[i].(name := m.clients[i].name, address := m.clients[i].address)];
      }
      if |servers| != |m.servers| || |clients| != |m.clients| { return Refused(ResolveFailed); }
      var state := Manifest(resolvedServers, resolvedClients);
      assert Answers(servers, m.servers) && Answers(clients, m.clients);
      assert state == Manifest(
        seq(|servers|, i requires 0 <= i < |servers| => servers[i].(handler := m.servers[i].handler)),
        seq(|clients|, i requires 0 <= i < |clients| =>
          clients[i].(name := m.clients[i].name, address := m.clients[i].address)));
      GenerateKeeps(m, servers, clients);
      state := Canonicalize(state);
      var valid := ValidateManifest(state);
      if !valid { return Refused(InvalidManifest); }
      if !mutated { return Refused(MutationFailed); }
      SaveKeepsCanonical(state);
      manifest := Canonicalize(state);
      return Done(state);
    }

    method UnbindServer(service: string, packagePath: string, mutated: bool) returns (o: Outcome)
      modifies this
      ensures o == Committed(UnboundServer(old(manifest), service, packagePath), mutated)
      ensures Follows(old(manifest), o, manifest)
    {
      hide Valid, IsCanonical, Canonicalize, Trim, OtherServers, CountService, Matches;
      var loadable := ValidateManifest(manifest);
      if !loadable { return Refused(InvalidManifest); }
      var package := Trim(packagePath);
      if package == "" {
        var matches := CountMatches(manifest.servers, service);
        if matches > 1 { return Refused(Ambiguous); }
      }
      var loaded := manifest.servers;
      var servers := new Binding[|loaded|](i requires 0 <= i < |loaded| => loaded[i]);
      assert servers[..] == loaded;
      var kept, found := CompactServers(servers, service, package);
      UnbindServerRemovesOne(manifest, service, packagePath);
      if !found { return Refused(NotBound); }
      var state := Canonicalize(manifest.(servers := servers[..kept]));
      if !mutated { return Refused(MutationFailed); }
      SaveKeepsCanonical(state);
      manifest := Canonicalize(state);
      return Done(state);
    }

    method UnbindClient(name: string, mutated: bool) returns (o: Outcome)
      modifies this
      ensures o == Committed(UnboundClient(old(manifest), name), mutated)
      ensures Follows(old(manifest), o, manifest)
    {
      hide Valid, IsCanonical, Canonicalize, OtherClients;
      var loadable := ValidateManifest(manifest);
      if !loadable { return Refused(InvalidManifest); }
      var loaded := manifest.clients;
      var clients := new Binding[|loaded|](i requires 0 <= i < |loaded| => loaded[i]);
      assert clients[..] == loaded;
      var kept, found := CompactClients(clients, name);
      UnbindClientRemovesOne(manifest, name);
      if !found { return Refused(NotBound); }
      var state := Canonicalize(manifest.(clients := clients[..kept]));
      if !mutated { return Refused(MutationFailed); }
      SaveKeepsCanonical(state);
      manifest := Canonicalize(state);
      return Done(state);
    }
  }

  // ---------------------------------------------------------------------
  // bindingPackages
  // ---------------------------------------------------------------------

  function Packages(bindings: seq<Binding>): set<string> {
    set b | b in bindings :: b.package
  }

  // The packages in order of first occurrence.
  function FirstOccurrences(bindings: seq<Binding>): seq<string> {
    if bindings == [] then []
    else
      var rest := FirstOccurrences(bindings[..|bindings| - 1]);
      var package := bindings[|bindings| - 1].package;
      if package in rest then rest else rest + [package]
  }

  lemma {:induction false} FirstOccurrencesAre(bindings: seq<Binding>)
    ensures forall p :: p in FirstOccurrences(bindings) <==> p in Packages(bindings)
    ensures forall i, j :: 0 <= i < j < |FirstOccurrences(bindings)| ==>
      FirstOccurrences(bindings)[i] != FirstOccurrences(bindings)[j]
    decreases |bindings|
  {
    if bindings != [] {
      var n := |bindings| - 1;
      FirstOccurrencesAre(bindings[..n]);
      assert bindings == bindings[..n] + [bindings[n]];
    }
  }

  lemma NoPackages()
    ensures FirstOccurrences([]) == []
  {
  }

  lemma OneMorePackage(bindings: seq<Binding>, n: nat)
    requires n < |bindings|
    ensures var before, package := FirstOccurrences(bindings[..n]), bindings[n].package;
            FirstOccurrences(bindings[..n + 1]) == if package in before then before else before + [package]
  {
    assert bindings[..n + 1][..n] == bindings[..n];
  }

  method BindingPackages(bindings: seq<Binding>) returns (packages: seq<string>, aliases: map<string, string>)
    ensures packages == FirstOccurrences(bindings)
    ensures aliases.Keys == Packages(bindings)
    ensures forall i :: 0 <= i < |packages| ==> packages[i] in aliases && aliases[packages[i]] == "pb" + Decimal(i)
    ensures forall p, q :: p in aliases && q in aliases && p != q ==> aliases[p] != aliases[q]
  {
    hide FirstOccurrences, Packages, Decimal;
    packages, aliases := [], map[];
    assert FirstOccurrences(bindings[..0]) == [] by { assert bindings[..0] == []; NoPackages(); }
    for n := 0 to |bindings|
      invariant packages == FirstOccurrences(bindings[..n])
      invariant forall p :: p in aliases <==> p in packages
      invariant forall i :: 0 <= i < |packages| ==> aliases[packages[i]] == "pb" + Decimal(i)
    {
      OneMorePackage(bindings, n);
      FirstOccurrencesAre(bindings[..n + 1]);
      var package := bindings[n].package;
      if package in aliases { continue; }
      aliases := aliases[package := "pb" + Decimal(|packages|)];
      packages := packages + [package];
    }
    assert bindings[..|bindings|] == bindings;
    FirstOccurrencesAre(bindings);
    AliasesDiffer(packages, aliases);
  }

  lemma AliasesDiffer(packages: seq<string>, aliases: map<string, string>)
    requires forall p :: p in aliases <==> p in packages
    requires forall i :: 0 <= i < |packages| ==> aliases[packages[i]] == "pb" + Decimal(i)
    ensures forall p, q :: p in aliases && q in aliases && p != q ==> aliases[p] != aliases[q]
  {
    forall p, q | p in aliases && q in aliases && p != q ensures aliases[p] != aliases[q] {
      var i :| 0 <= i < |packages| && packages[i] == p;
      var j :| 0 <= j < |packages| && packages[j] == q;
      DecimalIsInjective(i, j);
      assert ("pb" + Decimal(i))[2..] == Decimal(i) && ("pb" + Decimal(j))[2..] == Decimal(j);
    }
  }
}
