// What no operation on the manifest can change: the handler of a bound server,
// and the service, package and address of a bound client. A bind touches the
// entry it names and no other.
module Stability {
  import opened Text
  import opened Naming
  import opened Bindings
  import opened Canonical
  import opened Manifests
  import opened Runs

  ghost predicate SameIdentity(m: Manifest, n: Manifest) {
    && (forall b, c :: b in m.servers && c in n.servers && Key(b) == Key(c) ==> c.handler == b.handler)
    && (forall b, c :: b in m.clients && c in n.clients && b.name == c.name ==>
          c.service == b.service && c.package == b.package && c.address == b.address)
  }

  // Between two lists, entries other than those that satisfy `named` are the
  // same.
  ghost predicate OnlyTouches(xs: seq<Binding>, ys: seq<Binding>, named: Binding -> bool) {
    forall c :: !named(c) ==> (c in xs <==> c in ys)
  }

  lemma UniqueKey(xs: seq<Binding>, b: Binding, c: Binding)
    requires KeysDiffer(xs) && b in xs && c in xs && Key(b) == Key(c)
    ensures b == c
  {
    hide Key;
  }

  lemma UniqueName(xs: seq<Binding>, b: Binding, c: Binding)
    requires NamesDiffer(xs) && b in xs && c in xs && b.name == c.name
    ensures b == c
  {
  }

  lemma SortMembers(side: Side, xs: seq<Binding>, c: Binding)
    ensures c in Sort(side, xs) <==> c in xs
  {
    SortElements(side, xs);
    assert c in Elements(Sort(side, xs)) <==> c in Elements(xs);
  }

  // ---------------------------------------------------------------------
  // Servers
  // ---------------------------------------------------------------------

  // An accepted server bind leaves exactly one entry under its key, the
  // resolved binding with some handler, and no other entry changes.
  lemma BindServerTouchesOne(m: Manifest, b: Binding, handlerName: string)
    requires Valid(m)
    ensures var o := BoundServer(m, b, handlerName);
            o.Done? ==>
              && OnlyTouches(m.servers, o.m.servers, c => Key(c) == Key(b))
              && OnlyTouches(m.clients, o.m.clients, c => false)
              && (exists c :: c in o.m.servers && Key(c) == Key(b))
              && (forall c :: c in o.m.servers && Key(c) == Key(b) ==> c == b.(handler := c.handler))
              && (forall c :: c in o.m.servers && Key(c) == Key(b) ==>
                    if Key(b) in Keys(m.servers) then
                      exists earlier :: earlier in m.servers && Key(earlier) == Key(b) && c.handler == earlier.handler
                    else c.handler == ChosenHandler(b, handlerName))
  {
    hide ValidServers, ValidClients, Key, KeysDiffer, NamesDiffer, Sort, ValidHandlerName, HandlerNameUsable,
      HandlerNameAgrees, ChosenHandler, Keys;
    var o := BoundServer(m, b, handlerName);
    if o.Done? {
      ValidKeysDiffer(m);
      FreshIndex(m.servers, b);
      var i := IndexOfKey(m.servers, Key(b));
      var h := if i < |m.servers| then m.servers[i].handler else ChosenHandler(b, handlerName);
      var bound := b.(handler := h);
      SameKey(bound, b);
      var xs := if i < |m.servers| then m.servers[i := bound] else m.servers + [bound];
      assert o.m == Canonicalize(m.(servers := xs));
      forall c ensures c in o.m.servers <==> c in xs { SortMembers(Servers, xs, c); }
      forall c ensures c in o.m.clients <==> c in m.clients { SortMembers(Clients, m.clients, c); }
      assert xs[i] == bound;
      PlacedServer(m.servers, i, bound, xs);
      if i < |m.servers| { assert m.servers[i] in m.servers; }
    }
  }

  lemma PlacedServer(xs: seq<Binding>, i: nat, bound: Binding, ys: seq<Binding>)
    requires KeysDiffer(xs) && i <= |xs|
    requires if i < |xs| then Key(xs[i]) == Key(bound) && ys == xs[i := bound]
             else (forall j :: 0 <= j < |xs| ==> Key(xs[j]) != Key(bound)) && ys == xs + [bound]
    ensures forall c :: Key(c) != Key(bound) ==> (c in xs <==> c in ys)
    ensures forall c :: c in ys && Key(c) == Key(bound) ==> c == bound
  {
    hide Key;
    forall c | Key(c) != Key(bound) ensures c in xs <==> c in ys {
      if c in xs {
        var j :| 0 <= j < |xs| && xs[j] == c;
        assert ys[j] == c;
      }
      if c in ys {
        var j :| 0 <= j < |ys| && ys[j] == c;
        assert xs[j] == c;
      }
    }
  }

  // ---------------------------------------------------------------------
  // Clients
  // ---------------------------------------------------------------------

  lemma BindClientTouchesOne(m: Manifest, b: Binding, name: string, address: string)
    requires Valid(m)
    ensures var o := BoundClient(m, b, name, address);
            var bound := NamedClient(b, name, address);
            o.Done? ==>
              && OnlyTouches(m.clients, o.m.clients, (c: Binding) => c.name == bound.name)
              && OnlyTouches(m.servers, o.m.servers, c => false)
              && (exists c :: c in o.m.clients && c.name == bound.name)
              && (forall c :: c in o.m.clients && c.name == bound.name ==> c == bound.(address := c.address))
              && (forall c :: c in o.m.clients && c.name == bound.name ==>
                    if bound.name in Names(m.clients) then
                      exists earlier ::
                        earlier in m.clients && earlier.name == bound.name && c.address == earlier.address
                        && c.service == earlier.service && c.package == earlier.package
                    else c.address == bound.address)
  {
    hide ValidServers, ValidClients, Key, KeysDiffer, NamesDiffer, Sort, ValidName, Exported, NamedClient;
    var o := BoundClient(m, b, name, address);
    if o.Done? {
      ValidKeysDiffer(m);
      var named := NamedClient(b, name, address);
      var i := FirstClash(m.clients, named.name);
      var bound := if i < |m.clients| then named.(address := m.clients[i].address) else named;
      var xs := if i < |m.clients| then m.clients[i := bound] else m.clients + [bound];
      assert o.m == Canonicalize(m.(clients := xs));
      forall c ensures c in o.m.clients <==> c in xs { SortMembers(Clients, xs, c); }
      forall c ensures c in o.m.servers <==> c in m.servers { SortMembers(Servers, m.servers, c); }
      assert xs[i] == bound;
      PlacedClient(m.clients, i, bound, xs);
      if i < |m.clients| { assert m.clients[i] in m.clients; }
    }
  }

  lemma PlacedClient(xs: seq<Binding>, i: nat, bound: Binding, ys: seq<Binding>)
    requires NamesDiffer(xs) && i <= |xs|
    requires if i < |xs| then xs[i].name == bound.name && ys == xs[i := bound]
             else (forall j :: 0 <= j < |xs| ==> xs[j].name != bound.name) && ys == xs + [bound]
    ensures forall c: Binding :: c.name != bound.name ==> (c in xs <==> c in ys)
    ensures forall c :: c in ys && c.name == bound.name ==> c == bound
    ensures bound.name in Names(xs) <==> i < |xs|
  {
    forall c: Binding | c.name != bound.name ensures c in xs <==> c in ys {
      if c in xs {
        var j :| 0 <= j < |xs| && xs[j] == c;
        assert ys[j] == c;
      }
      if c in ys {
        var j :| 0 <= j < |ys| && ys[j] == c;
        assert xs[j] == c;
      }
    }
  }

  // ---------------------------------------------------------------------
  // Identity over steps and runs
  // ---------------------------------------------------------------------

  lemma SubsetKeepsIdentity(m: Manifest, n: Manifest)
    requires KeysDiffer(m.servers) && NamesDiffer(m.clients)
    requires forall c :: c in n.servers ==> c in m.servers
    requires forall c :: c in n.clients ==> c in m.clients
    ensures SameIdentity(m, n)
  {
    hide Key, KeysDiffer, NamesDiffer;
    forall b, c | b in m.servers && c in n.servers && Key(b) == Key(c) ensures c.handler == b.handler {
      UniqueKey(m.servers, b, c);
    }
    forall b, c | b in m.clients && c in n.clients && b.name == c.name
      ensures c.service == b.service && c.package == b.package && c.address == b.address {
      UniqueName(m.clients, b, c);
    }
  }

  lemma BindServerKeepsIdentity(m: Manifest, b: Binding, handlerName: string)
    requires Valid(m)
    ensures BoundServer(m, b, handlerName).Done? ==> SameIdentity(m, BoundServer(m, b, handlerName).m)
  {
    hide Valid, BoundServer, Key, ChosenHandler, KeysDiffer, NamesDiffer, Keys;
    var o := BoundServer(m, b, handlerName);
    if o.Done? {
      ValidKeysDiffer(m);
      BindServerTouchesOne(m, b, handlerName);
      forall x, y | x in m.servers && y in o.m.servers && Key(x) == Key(y) ensures y.handler == x.handler {
        if Key(y) == Key(b) {
          KeyIsThere(m.servers, x);
          var earlier :| earlier in m.servers && Key(earlier) == Key(b) && y.handler == earlier.handler;
          UniqueKey(m.servers, x, earlier);
        } else {
          UniqueKey(m.servers, x, y);
        }
      }
      forall x, y | x in m.clients && y in o.m.clients && x.name == y.name ensures x == y {
        UniqueName(m.clients, x, y);
      }
    }
  }

  lemma KeyIsThere(xs: seq<Binding>, b: Binding)
    requires b in xs
    ensures Key(b) in Keys(xs) && b.name in Names(xs)
  {
    hide Key;
  }

  lemma BindClientKeepsIdentity(m: Manifest, b: Binding, name: string, address: string)
    requires Valid(m)
    ensures BoundClient(m, b, name, address).Done? ==> SameIdentity(m, BoundClient(m, b, name, address).m)
  {
    hide Valid, BoundClient, Key, NamedClient, KeysDiffer, NamesDiffer, Names;
    var o := BoundClient(m, b, name, address);
    if o.Done? {
      ValidKeysDiffer(m);
      BindClientTouchesOne(m, b, name, address);
      var bound := NamedClient(b, name, address);
      forall x, y | x in m.servers && y in o.m.servers && Key(x) == Key(y) ensures x == y {
        UniqueKey(m.servers, x, y);
      }
      forall x, y | x in m.clients && y in o.m.clients && x.name == y.name
        ensures y.service == x.service && y.package == x.package && y.address == x.address {
        if y.name == bound.name {
          KeyIsThere(m.clients, x);
          var earlier :| earlier in m.clients && earlier.name == bound.name && y.address == earlier.address
                      && y.service == earlier.service && y.package == earlier.package;
          UniqueName(m.clients, x, earlier);
        } else {
          UniqueName(m.clients, x, y);
        }
      }
    }
  }

  lemma UnbindKeepsIdentity(m: Manifest, step: Step)
    requires Valid(m) && (step.UnbindServer? || step.UnbindClient?)
    ensures Try(m, step).Done? ==> SameIdentity(m, Try(m, step).m)
  {
    hide Valid, Key, KeysDiffer, NamesDiffer, Sort, OtherServers, OtherClients, CountService, SameIdentity;
    var o := Try(m, step);
    if o.Done? {
      ValidKeysDiffer(m);
      var servers := if step.UnbindServer? then OtherServers(m.servers, step.service, Trim(step.packagePath))
          else m.servers;
      var clients := if step.UnbindClient? then OtherClients(m.clients, step.name) else m.clients;
      assert o.m == Canonicalize(Manifest(servers, clients));
      forall c | c in o.m.servers ensures c in m.servers {
        SortMembers(Servers, servers, c);
        if step.UnbindServer? { OtherServersAreSome(m.servers, step.service, Trim(step.packagePath), c); }
      }
      forall c | c in o.m.clients ensures c in m.clients {
        SortMembers(Clients, clients, c);
        if step.UnbindClient? { OtherClientsAreSome(m.clients, step.name, c); }
      }
      SubsetKeepsIdentity(m, o.m);
    }
  }

  lemma {:induction false} OtherServersAreSome(xs: seq<Binding>, service: string, package: string, c: Binding)
    ensures c in OtherServers(xs, service, package) <==> c in xs && !Matches(c, service, package)
    decreases |xs|
  {
    hide Matches;
    if xs != [] {
      OtherServersAreSome(xs[..|xs| - 1], service, package, c);
      assert xs == xs[..|xs| - 1] + [xs[|xs| - 1]];
    }
  }

  lemma {:induction false} OtherClientsAreSome(xs: seq<Binding>, name: string, c: Binding)
    ensures c in OtherClients(xs, name) <==> c in xs && c.name != name
    decreases |xs|
  {
    if xs != [] {
      OtherClientsAreSome(xs[..|xs| - 1], name, c);
      assert xs == xs[..|xs| - 1] + [xs[|xs| - 1]];
    }
  }

  lemma GenerateKeepsIdentity(m: Manifest, servers: seq<Binding>, clients: seq<Binding>)
    requires Valid(m)
    ensures var o := Regenerated(m, servers, clients);
            o.Done? ==> SameIdentity(m, o.m)
  {
    hide Valid, Key, KeysDiffer, NamesDiffer, Sort;
    var o := Regenerated(m, servers, clients);
    ValidKeysDiffer(m);
    if m == EMPTY {
      SubsetKeepsIdentity(m, m);
    } else if o.Done? {
      var xs := seq(|servers|, i requires 0 <= i < |servers| => servers[i].(handler := m.servers[i].handler));
      var ys := seq(|clients|, i requires 0 <= i < |clients| =>
        clients[i].(name := m.clients[i].name, address := m.clients[i].address));
      assert o.m == Canonicalize(Manifest(xs, ys));
      forall b, c | b in m.servers && c in o.m.servers && Key(b) == Key(c) ensures c.handler == b.handler {
        SortMembers(Servers, xs, c);
        var i :| 0 <= i < |xs| && xs[i] == c;
        SameKey(c, m.servers[i]);
        UniqueKey(m.servers, b, m.servers[i]);
      }
      forall b, c | b in m.clients && c in o.m.clients && b.name == c.name
        ensures c.service == b.service && c.package == b.package && c.address == b.address {
        SortMembers(Clients, ys, c);
        var i :| 0 <= i < |ys| && ys[i] == c;
        UniqueName(m.clients, b, m.clients[i]);
      }
    }
  }

  // No step of any kind changes the identity of what stays bound.
  lemma StepKeepsIdentity(m: Manifest, step: Step, mutated: bool)
    requires Valid(m)
    ensures SameIdentity(m, After(m, step, mutated))
  {
    hide Valid, BoundServer, BoundClient, UnboundServer, UnboundClient, Regenerated, SameIdentity;
    ValidKeysDiffer(m);
    SubsetKeepsIdentity(m, m);
    match step
    case BindServer(b, handlerName) => BindServerKeepsIdentity(m, b, handlerName);
    case BindClient(b, name, address) => BindClientKeepsIdentity(m, b, name, address);
    case UnbindServer(_, _) => UnbindKeepsIdentity(m, step);
    case UnbindClient(_) => UnbindKeepsIdentity(m, step);
    case Generate(servers, clients) => GenerateKeepsIdentity(m, servers, clients);
  }

  // As long as a key stays bound in a run, its handler stays the same.
  lemma {:induction false} HandlersAreFixed(steps: seq<(Step, bool)>, i: nat, key: string, b: Binding, c: Binding)
    requires forall k :: 0 <= k < |steps| ==> WellFormed(steps[k].0)
    requires i <= |steps|
    requires forall k :: i <= k <= |steps| ==> key in Keys(Run(EMPTY, steps[..k]).servers)
    requires b in Run(EMPTY, steps[..i]).servers && Key(b) == key
    requires c in Run(EMPTY, steps).servers && Key(c) == key
    ensures c.handler == b.handler
    decreases |steps|
  {
    hide Run, Valid, IsCanonical, Key, After, Keys;
    assert steps[..|steps|] == steps;
    EveryRunIsLoadable(steps);
    if i == |steps| {
      ValidKeysDiffer(Run(EMPTY, steps));
      UniqueKey(Run(EMPTY, steps).servers, b, c);
    } else {
      var n := |steps| - 1;
      var before := steps[..n];
      EveryRunIsLoadable(before);
      RunStep(steps);
      var d := ServerOf(Run(EMPTY, before).servers, key);
      assert before[..i] == steps[..i];
      forall k | i <= k <= |before| ensures key in Keys(Run(EMPTY, before[..k]).servers) {
        assert before[..k] == steps[..k];
      }
      HandlersAreFixed(before, i, key, b, d);
      StepKeepsIdentity(Run(EMPTY, before), steps[n].0, steps[n].1);
    }
  }

  lemma RunStep(steps: seq<(Step, bool)>)
    requires steps != []
    ensures Run(EMPTY, steps) == After(Run(EMPTY, steps[..|steps| - 1]), steps[|steps| - 1].0, steps[|steps| - 1].1)
  {
  }

  lemma ServerOf(xs: seq<Binding>, key: string) returns (b: Binding)
    requires key in Keys(xs)
    ensures b in xs && Key(b) == key
  {
    var i :| 0 <= i < |xs| && Key(xs[i]) == key;
    b := xs[i];
  }
}
