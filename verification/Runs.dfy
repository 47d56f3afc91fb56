// What every run of bind, rebind, unbind and generate keeps.
module Runs {
  import opened Text
  import opened Naming
  import opened Bindings
  import opened Canonical
  import opened Manifests

  // What resolve returns: a complete binding with valid methods.
  ghost predicate Resolved(b: Binding) {
    Complete(b) && MethodsOk(b)
  }

  // ---------------------------------------------------------------------
  // Each operation keeps the manifest valid and canonical
  // ---------------------------------------------------------------------

  ghost predicate Loadable(o: Outcome) {
    o.Done? ==> Valid(o.m) && IsCanonical(o.m)
  }

  lemma ServerReplacement(xs: seq<Binding>, i: nat, b: Binding)
    requires i < |xs| && KeysDiffer(xs) && Key(b) == Key(xs[i])
    ensures KeysDiffer(xs[i := b])
  {
    hide Key;
  }

  lemma BindServerKeeps(m: Manifest, b: Binding, handlerName: string)
    ensures Loadable(BoundServer(m, b, handlerName))
  {
    hide Valid, Key, KeysDiffer, NamesDiffer, Checked, IsCanonical, ValidHandlerName, HandlerNameUsable,
      HandlerNameAgrees, ChosenHandler, Keys;
    if Valid(m) {
      ValidKeysDiffer(m);
      FreshIndex(m.servers, b);
      var i := IndexOfKey(m.servers, Key(b));
      if i < |m.servers| {
        var bound := b.(handler := m.servers[i].handler);
        SameKey(bound, b);
        ServerReplacement(m.servers, i, bound);
        CheckedIsSound(m.(servers := m.servers[i := bound]));
      } else {
        var bound := b.(handler := ChosenHandler(b, handlerName));
        SameKey(bound, b);
        AppendKeepsKeys(m.servers, bound);
        CheckedIsSound(m.(servers := m.servers + [bound]));
      }
    }
  }

  lemma SameKey(b: Binding, c: Binding)
    requires b.package == c.package && b.service == c.service
    ensures Key(b) == Key(c)
  {
  }

  lemma ClientAppendIsValid(xs: seq<Binding>, b: Binding)
    requires ValidClients(xs) && ClientOk(b) && FirstClash(xs, b.name) == |xs|
    ensures ValidClients(xs + [b])
  {
    hide ClientOk, Exported;
  }

  lemma ClientReplacementIsValid(xs: seq<Binding>, i: nat, b: Binding)
    requires ValidClients(xs) && ClientOk(b) && i < |xs| && xs[i].name == b.name
    ensures ValidClients(xs[i := b])
  {
    hide ClientOk, Exported;
  }

  lemma NamedClientIsOk(b: Binding, name: string, address: string)
    requires Resolved(b) && ValidName(ClientName(b, name))
    ensures ClientOk(NamedClient(b, name, address))
    ensures forall a :: ClientOk(NamedClient(b, name, address).(address := a))
  {
    hide ClientName, MethodOk, ValidName, NoDuplicates, Complete;
    var c := NamedClient(b, name, address);
    CompleteForgets(b, c);
    forall a ensures ClientOk(c.(address := a)) {
      CompleteForgets(b, c.(address := a));
    }
  }

  lemma CompleteForgets(b: Binding, c: Binding)
    requires Resolved(b)
    requires c.modulePath == b.modulePath && c.package == b.package && c.service == b.service && c.methods == b.methods
    ensures Complete(c) && MethodsOk(c)
  {
    hide Blank, MethodOk, NoDuplicates;
    assert MethodNames(c) == MethodNames(b);
  }

  // BindClient stops at the first client with its name and never calls the
  // validator, yet leaves a valid manifest.
  lemma BindClientKeeps(m: Manifest, b: Binding, name: string, address: string)
    requires Resolved(b)
    ensures Loadable(BoundClient(m, b, name, address))
  {
    hide ClientName, ClientOk, Resolved, ValidName, Exported, IsCanonical, SameBindings, ValidServers, ValidClients,
      DistinctKeys, Canonicalize;
    var o := BoundClient(m, b, name, address);
    if o.Done? {
      var bound := NamedClient(b, name, address);
      NamedClientIsOk(b, name, address);
      var i := FirstClash(m.clients, bound.name);
      ghost var xs;
      if i == |m.clients| {
        ClientAppendIsValid(m.clients, bound);
        xs := m.clients + [bound];
      } else {
        ClientReplacementIsValid(m.clients, i, bound.(address := m.clients[i].address));
        xs := m.clients[i := bound.(address := m.clients[i].address)];
      }
      ValidHasDistinctKeys(m.(clients := xs));
      CanonicalizeIsSound(m.(clients := xs));
    }
  }

  // ---------------------------------------------------------------------
  // Unbinding
  // ---------------------------------------------------------------------

  // xs without its entry i.
  function Without(xs: seq<Binding>, i: nat): seq<Binding>
    requires i < |xs|
  {
    xs[..i] + xs[i + 1..]
  }

  lemma WithoutIsValidServers(xs: seq<Binding>, i: nat)
    requires ValidServers(xs) && i < |xs|
    ensures ValidServers(Without(xs, i))
  {
    hide ServerOk, ServersAgree;
    var ys := Without(xs, i);
    assert forall k :: 0 <= k < |ys| ==> ys[k] == xs[if k < i then k else k + 1];
  }

  lemma WithoutIsValidClients(xs: seq<Binding>, i: nat)
    requires ValidClients(xs) && i < |xs|
    ensures ValidClients(Without(xs, i))
  {
    hide ClientOk, ClientsAgree;
    var ys := Without(xs, i);
    assert forall k :: 0 <= k < |ys| ==> ys[k] == xs[if k < i then k else k + 1];
  }

  lemma WithoutIsStrict(side: Side, xs: seq<Binding>, i: nat)
    requires Strict(side, xs) && i < |xs|
    ensures Strict(side, Without(xs, i))
  {
    hide Before, SortKey;
    var ys := Without(xs, i);
    assert forall k :: 0 <= k < |ys| ==> ys[k] == xs[if k < i then k else k + 1];
  }

  // When exactly one server matches, the others are the list without it.
  lemma {:induction false} OthersOfOneServer(xs: seq<Binding>, i: nat, service: string, package: string)
    requires i < |xs|
    requires forall j :: 0 <= j < |xs| ==> (Matches(xs[j], service, package) <==> j == i)
    ensures OtherServers(xs, service, package) == Without(xs, i)
    decreases |xs|
  {
    var n := |xs| - 1;
    if i == n {
      OthersOfNoServer(xs[..n], service, package);
      assert Without(xs, i) == xs[..n];
    } else {
      OthersOfOneServer(xs[..n], i, service, package);
      assert Without(xs, i) == Without(xs[..n], i) + [xs[n]];
    }
  }

  lemma {:induction false} OthersOfNoServer(xs: seq<Binding>, service: string, package: string)
    requires forall j :: 0 <= j < |xs| ==> !Matches(xs[j], service, package)
    ensures OtherServers(xs, service, package) == xs
    decreases |xs|
  {
    if xs != [] {
      OthersOfNoServer(xs[..|xs| - 1], service, package);
      assert xs == xs[..|xs| - 1] + [xs[|xs| - 1]];
    }
  }

  lemma {:induction false} OthersOfOneClient(xs: seq<Binding>, i: nat, name: string)
    requires i < |xs|
    requires forall j :: 0 <= j < |xs| ==> (xs[j].name == name <==> j == i)
    ensures OtherClients(xs, name) == Without(xs, i)
    decreases |xs|
  {
    var n := |xs| - 1;
    if i == n {
      OthersOfNoClient(xs[..n], name);
      assert Without(xs, i) == xs[..n];
    } else {
      OthersOfOneClient(xs[..n], i, name);
      assert Without(xs, i) == Without(xs[..n], i) + [xs[n]];
    }
  }

  lemma {:induction false} OthersOfNoClient(xs: seq<Binding>, name: string)
    requires forall j :: 0 <= j < |xs| ==> xs[j].name != name
    ensures OtherClients(xs, name) == xs
    decreases |xs|
  {
    if xs != [] {
      OthersOfNoClient(xs[..|xs| - 1], name);
      assert xs == xs[..|xs| - 1] + [xs[|xs| - 1]];
    }
  }

  lemma {:induction false} CountMeans(xs: seq<Binding>, service: string)
    ensures CountService(xs, service) == 0 <==> forall i :: 0 <= i < |xs| ==> xs[i].service != service
    ensures CountService(xs, service) > 1 <==>
              exists i, j :: 0 <= i < j < |xs| && xs[i].service == service && xs[j].service == service
    decreases |xs|
  {
    if xs != [] {
      var n := |xs| - 1;
      var ys := xs[..n];
      CountMeans(ys, service);
      assert forall i :: 0 <= i < n ==> ys[i] == xs[i];
      if xs[n].service == service && CountService(ys, service) > 0 {
        var i :| 0 <= i < n && ys[i].service == service;
        assert xs[i].service == service;
      }
    }
  }

  // A server to unbind is found and unambiguous.
  ghost predicate SingledOut(xs: seq<Binding>, i: nat, service: string, package: string) {
    i < |xs| && forall j :: 0 <= j < |xs| ==> (Matches(xs[j], service, package) <==> j == i)
  }

  // Only server i is gone; in a canonical manifest nothing else moves.
  ghost predicate ServerRemoved(m: Manifest, i: nat, n: Manifest)
    requires i < |m.servers|
  {
    var rest := m.(servers := Without(m.servers, i));
    n == Canonicalize(rest) && (IsCanonical(m) ==> n == rest)
  }

  ghost predicate ClientRemoved(m: Manifest, i: nat, n: Manifest)
    requires i < |m.clients|
  {
    var rest := m.(clients := Without(m.clients, i));
    n == Canonicalize(rest) && (IsCanonical(m) ==> n == rest)
  }

  lemma MatchesAreSingle(m: Manifest, i: nat, service: string, package: string)
    requires Valid(m) && i < |m.servers| && Matches(m.servers[i], service, package)
    requires package == "" ==> CountService(m.servers, service) <= 1
    ensures SingledOut(m.servers, i, service, package)
  {
    hide ValidServers, ValidClients, Key, DistinctKeys;
    ValidKeysDiffer(m);
    CountMeans(m.servers, service);
    forall j | 0 <= j < |m.servers| && j != i ensures !Matches(m.servers[j], service, package) {
      if Matches(m.servers[j], service, package) && package != "" {
        SameKey(m.servers[i], m.servers[j]);
      }
    }
  }

  // UnbindServer refuses exactly when the service is ambiguous or not bound.
  // Otherwise one server matches, that server alone is removed, the rest keep
  // their order, and the result is valid although it is not validated.
  lemma UnbindServerRemovesOne(m: Manifest, service: string, packagePath: string)
    requires Valid(m)
    ensures var o := UnboundServer(m, service, packagePath);
            var package := Trim(packagePath);
            && (o.Done? <==>
                  && (package == "" ==> CountService(m.servers, service) <= 1)
                  && exists b :: b in m.servers && Matches(b, service, package))
            && Loadable(o)
            && (o.Done? ==> exists i :: SingledOut(m.servers, i, service, package) && ServerRemoved(m, i, o.m))
  {
    hide ValidServers, ValidClients, Strict, Sort, Matches, Without, OtherServers, CountService;
    var o := UnboundServer(m, service, packagePath);
    var package := Trim(packagePath);
    if exists b :: b in m.servers && Matches(b, service, package) {
      var b :| b in m.servers && Matches(b, service, package);
      var i :| 0 <= i < |m.servers| && m.servers[i] == b;
      if package == "" ==> CountService(m.servers, service) <= 1 {
        MatchesAreSingle(m, i, service, package);
        OthersOfOneServer(m.servers, i, service, package);
        WithoutIsShorter(m.servers, i);
        WithoutServer(m, i);
        assert o.Done?;
      }
    } else {
      OthersOfNoServer(m.servers, service, package);
    }
  }

  lemma WithoutIsShorter(xs: seq<Binding>, i: nat)
    requires i < |xs|
    ensures |Without(xs, i)| == |xs| - 1
  {
  }

  lemma WithoutServer(m: Manifest, i: nat)
    requires Valid(m) && i < |m.servers|
    ensures Valid(Canonicalize(m.(servers := Without(m.servers, i))))
    ensures IsCanonical(Canonicalize(m.(servers := Without(m.servers, i))))
    ensures IsCanonical(m) ==>
        Canonicalize(m.(servers := Without(m.servers, i))) == m.(servers := Without(m.servers, i))
  {
    hide ValidServers, ValidClients, Without, DistinctKeys, Strict, Sort, Elements;
    var n := m.(servers := Without(m.servers, i));
    WithoutIsValidServers(m.servers, i);
    ValidHasDistinctKeys(n);
    CanonicalizeIsSound(n);
    if IsCanonical(m) {
      WithoutIsStrict(Servers, m.servers, i);
      SortedIsFixed(Servers, n.servers);
      SortedIsFixed(Clients, n.clients);
    }
  }

  lemma WithoutClient(m: Manifest, i: nat)
    requires Valid(m) && i < |m.clients|
    ensures Valid(Canonicalize(m.(clients := Without(m.clients, i))))
    ensures IsCanonical(Canonicalize(m.(clients := Without(m.clients, i))))
    ensures IsCanonical(m) ==>
        Canonicalize(m.(clients := Without(m.clients, i))) == m.(clients := Without(m.clients, i))
  {
    hide ValidServers, ValidClients, Without, DistinctKeys, Strict, Sort, Elements;
    var n := m.(clients := Without(m.clients, i));
    WithoutIsValidClients(m.clients, i);
    ValidHasDistinctKeys(n);
    CanonicalizeIsSound(n);
    if IsCanonical(m) {
      WithoutIsStrict(Clients, m.clients, i);
      SortedIsFixed(Servers, n.servers);
      SortedIsFixed(Clients, n.clients);
    }
  }

  ghost predicate ClientAt(xs: seq<Binding>, i: nat, name: string) {
    i < |xs| && forall j :: 0 <= j < |xs| ==> (xs[j].name == name <==> j == i)
  }

  lemma UnbindClientRemovesOne(m: Manifest, name: string)
    requires Valid(m)
    ensures var o := UnboundClient(m, name);
            && (o.Done? <==> exists b :: b in m.clients && b.name == name)
            && Loadable(o)
            && (o.Done? ==> exists i :: ClientAt(m.clients, i, name) && ClientRemoved(m, i, o.m))
  {
    hide ValidServers, ValidClients, Strict, Sort, Without, OtherClients, DistinctKeys, Key;
    var o := UnboundClient(m, name);
    ValidKeysDiffer(m);
    if exists b :: b in m.clients && b.name == name {
      var b :| b in m.clients && b.name == name;
      var i :| 0 <= i < |m.clients| && m.clients[i] == b;
      assert ClientAt(m.clients, i, name);
      OthersOfOneClient(m.clients, i, name);
      WithoutIsShorter(m.clients, i);
      WithoutClient(m, i);
      assert o.Done?;
    } else {
      OthersOfNoClient(m.clients, name);
    }
  }

  // ---------------------------------------------------------------------
  // Generate
  // ---------------------------------------------------------------------

  lemma GenerateKeeps(m: Manifest, servers: seq<Binding>, clients: seq<Binding>)
    ensures Loadable(Regenerated(m, servers, clients))
  {
    if m == EMPTY { EmptyIsLoadable(); }
    hide ValidServers, ValidClients, Checked, Strict, Sort, KeysDiffer, NamesDiffer;
    var o := Regenerated(m, servers, clients);
    if o.Done? && m != EMPTY {
      var n := Manifest(
        seq(|servers|, i requires 0 <= i < |servers| => servers[i].(handler := m.servers[i].handler)),
        seq(|clients|, i requires 0 <= i < |clients| =>
          clients[i].(name := m.clients[i].name, address := m.clients[i].address)));
      ValidKeysDiffer(m);
      assert KeysDiffer(n.servers) by { AnswersKeepKeys(n.servers, m.servers); }
      assert NamesDiffer(n.clients) by { AnswersKeepNames(n.clients, m.clients); }
      CheckedIsSound(n);
    }
  }

  lemma AnswersKeepKeys(xs: seq<Binding>, ys: seq<Binding>)
    requires Answers(xs, ys) && KeysDiffer(ys)
    ensures KeysDiffer(xs)
  {
    forall i | 0 <= i < |xs| ensures Key(xs[i]) == Key(ys[i]) {}
  }

  lemma AnswersKeepNames(xs: seq<Binding>, ys: seq<Binding>)
    requires |xs| == |ys| && NamesDiffer(ys)
    requires forall i :: 0 <= i < |xs| ==> xs[i].name == ys[i].name
    ensures NamesDiffer(xs)
  {
  }

  // ---------------------------------------------------------------------
  // Runs
  // ---------------------------------------------------------------------

  datatype Step =
    | BindServer(b: Binding, handlerName: string)
    | BindClient(b: Binding, name: string, address: string)
    | UnbindServer(service: string, packagePath: string)
    | UnbindClient(name: string)
    | Generate(servers: seq<Binding>, clients: seq<Binding>)

  ghost function Try(m: Manifest, step: Step): Outcome {
    match step
    case BindServer(b, handlerName) => BoundServer(m, b, handlerName)
    case BindClient(b, name, address) => BoundClient(m, b, name, address)
    case UnbindServer(service, packagePath) => UnboundServer(m, service, packagePath)
    case UnbindClient(name) => UnboundClient(m, name)
    case Generate(servers, clients) => Regenerated(m, servers, clients)
  }

  // A refused operation, and one whose file mutation fails, leave the manifest.
  ghost function After(m: Manifest, step: Step, mutated: bool): Manifest {
    var o := Try(m, step);
    if o.Done? && mutated then o.m else m
  }

  ghost predicate WellFormed(step: Step) {
    step.BindClient? ==> Resolved(step.b)
  }

  ghost function Run(m: Manifest, steps: seq<(Step, bool)>): Manifest {
    if steps == [] then m else After(Run(m, steps[..|steps| - 1]), steps[|steps| - 1].0, steps[|steps| - 1].1)
  }

  lemma StepKeeps(m: Manifest, step: Step, mutated: bool)
    requires Valid(m) && IsCanonical(m) && WellFormed(step)
    ensures Valid(After(m, step, mutated)) && IsCanonical(After(m, step, mutated))
  {
    hide Valid, IsCanonical, BoundServer, BoundClient, UnboundServer, UnboundClient, Regenerated, Canonicalize;
    match step
    case BindServer(b, handlerName) => BindServerKeeps(m, b, handlerName);
    case BindClient(b, name, address) => BindClientKeeps(m, b, name, address);
    case UnbindServer(service, packagePath) => UnbindServerRemovesOne(m, service, packagePath);
    case UnbindClient(name) => UnbindClientRemovesOne(m, name);
    case Generate(servers, clients) => GenerateKeeps(m, servers, clients);
  }

  // Every run from the empty manifest leaves a manifest that the validator
  // accepts and that is in canonical order.
  lemma {:induction false} EveryRunIsLoadable(steps: seq<(Step, bool)>)
    requires forall i :: 0 <= i < |steps| ==> WellFormed(steps[i].0)
    ensures Valid(Run(EMPTY, steps)) && IsCanonical(Run(EMPTY, steps))
    decreases |steps|
  {
    hide Valid, IsCanonical, After;
    if steps == [] {
      EmptyIsLoadable();
    } else {
      var n := |steps| - 1;
      EveryRunIsLoadable(steps[..n]);
      StepKeeps(Run(EMPTY, steps[..n]), steps[n].0, steps[n].1);
    }
  }

  lemma EmptyIsLoadable()
    ensures Valid(EMPTY) && IsCanonical(EMPTY)
  {
  }

  // Two runs that end with the same bindings end with the same manifest.
  lemma OrderDoesNotMatter(steps: seq<(Step, bool)>, others: seq<(Step, bool)>)
    requires forall i :: 0 <= i < |steps| ==> WellFormed(steps[i].0)
    requires forall i :: 0 <= i < |others| ==> WellFormed(others[i].0)
    requires SameBindings(Run(EMPTY, steps), Run(EMPTY, others))
    ensures Run(EMPTY, steps) == Run(EMPTY, others)
  {
    hide Valid, IsCanonical, Run, SameBindings;
    EveryRunIsLoadable(steps);
    EveryRunIsLoadable(others);
    CanonicalFormIsUnique(Run(EMPTY, steps), Run(EMPTY, others));
  }
}
