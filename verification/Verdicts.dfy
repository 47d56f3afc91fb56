// When each binding command is accepted, why it is refused otherwise, and what
// an accepted one leaves (internal/generator/rpcbinding/binding.go).
module Verdicts {
  import opened Text
  import opened Naming
  import opened FieldNames
  import opened Bindings
  import opened Canonical
  import opened Manifests
  import opened Runs

  // ---------------------------------------------------------------------
  // Servers
  // ---------------------------------------------------------------------

  // The handler name that a request stands for; none when it is blank.
  function Asked(handlerName: string): string {
    NormalizeHandlerName(Trim(handlerName))
  }

  lemma BlankAsksNothing(handlerName: string)
    requires Blank(handlerName)
    ensures Asked(handlerName) == ""
  {
  }

  // The manifest after an accepted command, up to its order.
  ghost predicate Leaves(o: Outcome, m: Manifest, servers: seq<Binding>, clients: seq<Binding>) {
    && o.Done? && Valid(o.m) && IsCanonical(o.m)
    && Elements(o.m.servers) == Elements(servers) && Elements(o.m.clients) == Elements(clients)
    && |o.m.servers| == |servers| && |o.m.clients| == |clients|
  }

  // Binding a bound service again, at any version and with any methods: the
  // entry is replaced and keeps its handler, unless another handler is asked
  // for or the new entry does not agree with the others.
  lemma RebindServerExactly(m: Manifest, b: Binding, handlerName: string, i: nat)
    requires Valid(m) && i < |m.servers| && Key(m.servers[i]) == Key(b)
    ensures
      var o, handler := BoundServer(m, b, handlerName), m.servers[i].handler;
      var servers := m.servers[i := b.(handler := handler)];
      var usable := Blank(handlerName) || ValidHandlerName(Asked(handlerName));
      var agrees := Blank(handlerName) || Asked(handlerName) == handler;
      && (o.Done? <==> usable && agrees && ValidServers(servers))
      && (o.Done? <==> Leaves(o, m, servers, m.clients))
      && (o == Refused(InvalidHandlerName) <==> !usable)
      && (o == Refused(HandlerIsFixed) <==> usable && !agrees)
      && (o == Refused(InvalidManifest) <==> usable && agrees && !ValidServers(servers))
  {
    hide ValidServers, ValidClients, Key, KeysDiffer, NamesDiffer, Checked, IsCanonical, ValidHandlerName,
      NormalizeHandlerName, Elements;
    ValidKeysDiffer(m);
    OnlyIndex(m.servers, b, i);
    ValidNamesAreNamed(Asked(handlerName));
    if Blank(handlerName) { BlankAsksNothing(handlerName); }
    var bound := b.(handler := m.servers[i].handler);
    SameKey(bound, b);
    ServerReplacement(m.servers, i, bound);
    CheckedMeans(m.(servers := m.servers[i := bound]));
  }

  // Binding a bound service again under the handler name that it has is
  // refused exactly when that name has an underscore, which only a default
  // name can have, or when the new entry does not agree with the others.
  lemma RebindUnderSameName(m: Manifest, b: Binding, i: nat)
    requires Valid(m) && i < |m.servers| && Key(m.servers[i]) == Key(b)
    ensures
      var handler := m.servers[i].handler;
      var o := BoundServer(m, b, handler);
      && (o.Done? <==>
            NoUnderscore(handler) && ValidServers(m.servers[i := b.(handler := handler)]))
      && (!NoUnderscore(handler) ==> o == Refused(HandlerIsFixed) || o == Refused(InvalidHandlerName))
  {
    var handler := m.servers[i].handler;
    assert ServerOk(m.servers[i]);
    NameIsNotBlank(handler);
    AskedNameExactly(handler);
    hide ValidServers, ValidClients, Key, ValidHandlerName, NormalizeHandlerName, Blank, BoundServer, Trim;
    RebindServerExactly(m, b, handler, i);
  }

  predicate NoUnderscore(s: string) {
    forall i :: 0 <= i < |s| ==> s[i] != '_'
  }

  lemma NameIsNotBlank(handler: string)
    requires ValidHandlerName(handler)
    ensures !Blank(handler)
  {
    hide Trim;
    IdentifierIsTrimmed(handler);
  }

  lemma ValidNamesAreNamed(s: string)
    ensures ValidHandlerName(s) ==> s != ""
  {
  }

  lemma OnlyIndex(xs: seq<Binding>, b: Binding, i: nat)
    requires KeysDiffer(xs) && i < |xs| && Key(xs[i]) == Key(b)
    ensures IndexOfKey(xs, Key(b)) == i
  {
    hide Key;
    var j := IndexOfKey(xs, Key(b));
    assert j < |xs|;
  }

  // Binding a service that is not bound yet.
  lemma BindServerExactly(m: Manifest, b: Binding, handlerName: string)
    requires Valid(m) && forall c :: c in m.servers ==> Key(c) != Key(b)
    ensures
      var o := BoundServer(m, b, handlerName);
      var chosen := if Asked(handlerName) == "" then DefaultHandlerName(b.service) else Asked(handlerName);
      var servers := m.servers + [b.(handler := chosen)];
      var usable := (Blank(handlerName) || ValidHandlerName(Asked(handlerName))) && ValidHandlerName(chosen);
      && (o.Done? <==> usable && ValidServers(servers))
      && (o.Done? <==> Leaves(o, m, servers, m.clients))
      && (o == Refused(InvalidHandlerName) <==> !usable)
      && (o == Refused(InvalidManifest) <==> usable && !ValidServers(servers))
  {
    hide ValidServers, ValidClients, Key, KeysDiffer, NamesDiffer, Checked, IsCanonical, ValidHandlerName,
      NormalizeHandlerName, DefaultHandlerName, Elements;
    ValidKeysDiffer(m);
    FreshIndex(m.servers, b);
    var bound := b.(handler := ChosenHandler(b, handlerName));
    SameKey(bound, b);
    AppendKeepsKeys(m.servers, bound);
    CheckedMeans(m.(servers := m.servers + [bound]));
  }

  lemma CheckedMeans(m: Manifest)
    requires KeysDiffer(m.servers) && NamesDiffer(m.clients)
    ensures Checked(m).Done? <==> Valid(m)
    ensures Checked(m).Done? <==> Leaves(Checked(m), m, m.servers, m.clients)
    ensures !Checked(m).Done? ==> Checked(m) == Refused(InvalidManifest)
  {
    hide Valid, KeysDiffer, NamesDiffer, IsCanonical, Elements;
    CheckedIsSound(m);
    CanonicalizeKeepsLength(m);
  }

  lemma CanonicalizeKeepsLength(m: Manifest)
    ensures |Canonicalize(m).servers| == |m.servers| && |Canonicalize(m).clients| == |m.clients|
  {
    hide Sort;
    SortKeepsLength(Servers, m.servers);
    SortKeepsLength(Clients, m.clients);
  }

  lemma {:induction false} SortKeepsLength(side: Side, xs: seq<Binding>)
    ensures |Sort(side, xs)| == |xs|
    decreases |xs|
  {
    if xs != [] {
      SortKeepsLength(side, xs[1..]);
      InsertLengthens(side, xs[0], Sort(side, xs[1..]));
    }
  }

  lemma {:induction false} InsertLengthens(side: Side, b: Binding, xs: seq<Binding>)
    ensures |Insert(side, b, xs)| == |xs| + 1
    decreases |xs|
  {
    hide Before;
    if xs != [] { InsertLengthens(side, b, xs[1..]); }
  }

  // ---------------------------------------------------------------------
  // Clients
  // ---------------------------------------------------------------------

  lemma OnlyClash(xs: seq<Binding>, name: string, i: nat)
    requires ValidClients(xs) && i < |xs| && xs[i].name == name
    ensures FirstClash(xs, name) == i
  {
    hide ClientOk, Exported;
    forall j | 0 <= j < i ensures xs[j].name != name && Exported(xs[j].name) != Exported(name) {
      assert ClientsAgree(xs[j], xs[i]);
    }
  }

  // Binding a client under a name that is in use: the entry is replaced and
  // keeps its address when service and package are those it was bound to.
  lemma RebindClientExactly(m: Manifest, b: Binding, name: string, address: string, i: nat)
    requires Valid(m) && Resolved(b) && i < |m.clients| && m.clients[i].name == ClientName(b, name)
    ensures
      var o := BoundClient(m, b, name, address);
      var rebound := b.(name := m.clients[i].name, address := m.clients[i].address);
      var usable := Exported(m.clients[i].name) != "";
      && (o.Done? <==> usable && m.clients[i].service == b.service && m.clients[i].package == b.package)
      && (o.Done? <==> Leaves(o, m, m.servers, m.clients[i := rebound]))
      && (o == Refused(NoUsableField) <==> !usable)
      && (o == Refused(NameRepurposed) <==> usable && m.clients[i].service != b.service)
      && (o == Refused(PackageDiffers) <==>
            usable && m.clients[i].service == b.service && m.clients[i].package != b.package)
  {
    hide ClientName, ClientOk, Resolved, ValidName, Exported, IsCanonical, ValidServers, ValidClients, Canonicalize,
      DistinctKeys, Elements, Trim;
    var bound := NamedClient(b, name, address);
    OnlyClash(m.clients, bound.name, i);
    NameIsValid(m.clients, i);
    NamedClientIsOk(b, name, address);
    var rebound := bound.(address := m.clients[i].address);
    assert rebound == b.(name := m.clients[i].name, address := m.clients[i].address);
    ClientReplacementIsValid(m.clients, i, rebound);
    CanonicalizedLeaves(m.(clients := m.clients[i := rebound]));
  }

  lemma NameIsValid(xs: seq<Binding>, i: nat)
    requires ValidClients(xs) && i < |xs|
    ensures ValidName(xs[i].name)
  {
    assert ClientOk(xs[i]);
  }

  lemma CanonicalizedLeaves(m: Manifest)
    requires Valid(m)
    ensures Leaves(Done(Canonicalize(m)), m, m.servers, m.clients)
  {
    hide ValidServers, ValidClients, Canonicalize, IsCanonical, Elements, DistinctKeys;
    ValidHasDistinctKeys(m);
    CanonicalizeIsSound(m);
    CanonicalizeKeepsLength(m);
  }

  // Binding a client under a new name.
  lemma BindClientExactly(m: Manifest, b: Binding, name: string, address: string)
    requires Valid(m) && Resolved(b) && forall c :: c in m.clients ==> c.name != ClientName(b, name)
    ensures
      var o := BoundClient(m, b, name, address);
      var chosen := ClientName(b, name);
      var bound := b.(name := chosen, address := if Blank(address) then "127.0.0.1:9090" else Trim(address));
      var taken := exists c :: c in m.clients && Exported(c.name) == Exported(chosen);
      && (o.Done? <==> ValidName(chosen) && Exported(chosen) != "" && !taken)
      && (o.Done? <==> Leaves(o, m, m.servers, m.clients + [bound]))
      && (o == Refused(InvalidClientName) <==> !ValidName(chosen))
      && (o == Refused(NoUsableField) <==> ValidName(chosen) && Exported(chosen) == "")
      && (o == Refused(FieldsConflict) <==> ValidName(chosen) && Exported(chosen) != "" && taken)
  {
    hide ClientName, ClientOk, Resolved, ValidName, Exported, IsCanonical, ValidServers, ValidClients, Canonicalize,
      DistinctKeys, Elements, Trim;
    var bound := NamedClient(b, name, address);
    var i := FirstClash(m.clients, bound.name);
    if i < |m.clients| {
      assert m.clients[i] in m.clients;
    } else if ValidName(bound.name) {
      NamedClientIsOk(b, name, address);
      ClientAppendIsValid(m.clients, bound);
      CanonicalizedLeaves(m.(clients := m.clients + [bound]));
    }
  }

  // ---------------------------------------------------------------------
  // Generate
  // ---------------------------------------------------------------------

  // What generate makes of each list: every entry as it was resolved again,
  // with the handler, or the name and address, that it had.
  function Refreshed(resolved: Binding, bound: Binding): Binding {
    resolved.(handler := bound.handler)
  }

  function RefreshedClient(resolved: Binding, bound: Binding): Binding {
    resolved.(name := bound.name, address := bound.address)
  }

  ghost predicate RefreshedLists(m: Manifest, servers: seq<Binding>, clients: seq<Binding>, n: Manifest) {
    && |n.servers| == |m.servers| == |servers| && |n.clients| == |m.clients| == |clients|
    && (forall i :: 0 <= i < |servers| ==> n.servers[i] == Refreshed(servers[i], m.servers[i]))
    && (forall i :: 0 <= i < |clients| ==> n.clients[i] == RefreshedClient(clients[i], m.clients[i]))
  }

  // With bindings to generate, generate is accepted when everything could be
  // resolved and the refreshed bindings agree; then every entry carries what
  // was resolved, its methods and version among it.
  lemma GenerateExactly(m: Manifest, servers: seq<Binding>, clients: seq<Binding>, n: Manifest)
    requires Valid(m) && m != EMPTY
    requires Answers(servers, m.servers) && Answers(clients, m.clients) ==> RefreshedLists(m, servers, clients, n)
    ensures
      var o := Regenerated(m, servers, clients);
      var answered := Answers(servers, m.servers) && Answers(clients, m.clients);
      && (o.Done? <==> answered && Valid(n))
      && (o.Done? <==> answered && Leaves(o, m, n.servers, n.clients))
      && (o == Refused(ResolveFailed) <==> !answered)
      && (o == Refused(InvalidManifest) <==> answered && !Valid(n))
  {
    hide ValidServers, ValidClients, KeysDiffer, NamesDiffer, Checked, IsCanonical, Elements;
    ValidKeysDiffer(m);
    if Answers(servers, m.servers) && Answers(clients, m.clients) {
      assert n.servers == seq(|servers|, i requires 0 <= i < |servers| => servers[i].(handler := m.servers[i].handler));
      assert n.clients == seq(|clients|, i requires 0 <= i < |clients| =>
        clients[i].(name := m.clients[i].name, address := m.clients[i].address));
      AnswersKeepKeys(n.servers, m.servers);
      AnswersKeepNames(n.clients, m.clients);
      CheckedMeans(n);
    }
  }

  // ---------------------------------------------------------------------
  // Unbinding
  // ---------------------------------------------------------------------

  predicate BoundTwice(xs: seq<Binding>, service: string) {
    exists i, j :: 0 <= i < j < |xs| && xs[i].service == service && xs[j].service == service
  }

  predicate IsBound(xs: seq<Binding>, service: string, package: string) {
    exists b :: b in xs && b.service == service && (package == "" || b.package == package)
  }

  // Without a package, a service bound from several packages is ambiguous; what
  // is not bound cannot be unbound.
  lemma UnbindServerExactly(m: Manifest, service: string, packagePath: string)
    requires Valid(m)
    ensures
      var o, package := UnboundServer(m, service, packagePath), Trim(packagePath);
      var several, bound := BoundTwice(m.servers, service), IsBound(m.servers, service, package);
      && (o.Done? <==> bound && !(package == "" && several))
      && (o == Refused(Ambiguous) <==> package == "" && several)
      && (o == Refused(NotBound) <==> !bound)
      && (o.Done? ==>
            Loadable(o) && exists i :: SingledOut(m.servers, i, service, package) && ServerRemoved(m, i, o.m))
  {
    hide ValidServers, ValidClients, Trim, Canonicalize, OtherServers, CountService, SingledOut, ServerRemoved,
      Loadable;
    UnbindServerRemovesOne(m, service, packagePath);
    CountsSeveral(m.servers, service);
  }

  lemma {:induction false} CountsSome(xs: seq<Binding>, service: string)
    ensures CountService(xs, service) > 0 <==> exists i :: 0 <= i < |xs| && xs[i].service == service
    decreases |xs|
  {
    if xs != [] {
      var n := |xs| - 1;
      CountsSome(xs[..n], service);
      if i :| 0 <= i < n && xs[..n][i].service == service { assert xs[i].service == service; }
      if i :| 0 <= i < |xs| && xs[i].service == service { assert i < n ==> xs[..n][i].service == service; }
    }
  }

  lemma {:induction false} CountsSeveral(xs: seq<Binding>, service: string)
    ensures CountService(xs, service) > 1 <==> BoundTwice(xs, service)
    decreases |xs|
  {
    if xs != [] {
      var n := |xs| - 1;
      CountsSeveral(xs[..n], service);
      CountsSome(xs[..n], service);
      TwiceSnoc(xs[..n], xs[n], service);
      assert xs == xs[..n] + [xs[n]];
    }
  }

  lemma TwiceSnoc(xs: seq<Binding>, b: Binding, service: string)
    ensures BoundTwice(xs + [b], service) <==>
              BoundTwice(xs, service)
              || (b.service == service && exists i :: 0 <= i < |xs| && xs[i].service == service)
  {
    var ys := xs + [b];
    assert ys[|xs|] == b && forall i :: 0 <= i < |xs| ==> ys[i] == xs[i];
    if i, j :| 0 <= i < j < |xs| && xs[i].service == service && xs[j].service == service {
      assert ys[i].service == service && ys[j].service == service;
    }
    if i :| 0 <= i < |xs| && xs[i].service == service && b.service == service {
      assert ys[i].service == service && ys[|xs|].service == service;
    }
  }

  // ---------------------------------------------------------------------
  // A manifest that cannot be loaded
  // ---------------------------------------------------------------------

  lemma NothingWithoutManifest(m: Manifest, step: Step)
    requires !Valid(m)
    ensures Try(m, step).Refused?
    ensures !step.BindClient? ==> Try(m, step) == Refused(InvalidManifest)
  {
    hide Valid, Canonicalize, Checked;
  }
}
