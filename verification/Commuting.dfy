// Laws between operations on the manifest: fresh binds commute, a repeated
// bind changes nothing, and unbinding undoes a fresh bind.
module Commuting {
  import opened Text
  import opened Naming
  import opened Bindings
  import opened Canonical
  import opened Manifests
  import opened Runs

  // The second operation runs only if the first is accepted.
  ghost function Then(o: Outcome, step: Step): Outcome {
    if o.Done? then Try(o.m, step) else o
  }

  ghost predicate Agree(o: Outcome, p: Outcome) {
    (o.Done? <==> p.Done?) && (o.Done? ==> o.m == p.m)
  }

  // ---------------------------------------------------------------------
  // Fresh servers
  // ---------------------------------------------------------------------

  function NamedServer(b: Binding, handlerName: string): Binding {
    b.(handler := ChosenHandler(b, handlerName))
  }

  predicate ServerNameOk(b: Binding, handlerName: string) {
    HandlerNameUsable(handlerName) && ValidHandlerName(ChosenHandler(b, handlerName))
  }

  // A fresh server is accepted exactly when its handler name is usable and it
  // agrees with the servers already bound.
  lemma FreshServer(m: Manifest, b: Binding, handlerName: string)
    requires Valid(m) && IsCanonical(m) && Key(b) !in Keys(m.servers)
    ensures var o := BoundServer(m, b, handlerName);
            var bound := NamedServer(b, handlerName);
            && (o.Done? <==> ServerNameOk(b, handlerName) && ValidServers(m.servers + [bound]))
            && (o.Done? ==>
                  && Valid(o.m) && IsCanonical(o.m)
                  && Elements(o.m.servers) == Elements(m.servers) + {bound}
                  && o.m.clients == m.clients)
  {
    hide ValidServers, ValidClients, Key, KeysDiffer, NamesDiffer, Checked, Strict, ValidHandlerName,
      HandlerNameUsable, ChosenHandler, Keys, Sort, HandlerNameAgrees;
    var bound := NamedServer(b, handlerName);
    ValidKeysDiffer(m);
    FreshIndex(m.servers, b);
    SameKey(bound, b);
    AppendKeepsKeys(m.servers, bound);
    var n := m.(servers := m.servers + [bound]);
    CheckedIsSound(n);
    ElementsAppend(m.servers, bound);
    var o := BoundServer(m, b, handlerName);
    if o.Done? { StrictIsUnique(Clients, o.m.clients, m.clients); }
  }

  lemma ElementsAppend(xs: seq<Binding>, b: Binding)
    ensures Elements(xs + [b]) == Elements(xs) + {b}
  {
  }

  lemma KeysFollowElements(xs: seq<Binding>, ys: seq<Binding>, key: string)
    requires Elements(xs) == Elements(ys) && key in Keys(xs)
    ensures key in Keys(ys)
  {
    hide Key;
    var i :| 0 <= i < |xs| && Key(xs[i]) == key;
    assert xs[i] in Elements(ys);
    var j :| 0 <= j < |ys| && ys[j] == xs[i];
  }

  lemma TwoFreshServers(m: Manifest, b: Binding, handlerName: string, c: Binding, otherName: string)
    requires Valid(m) && IsCanonical(m)
    requires Key(b) !in Keys(m.servers) && Key(c) !in Keys(m.servers) && Key(b) != Key(c)
    ensures var o := Then(BoundServer(m, b, handlerName), BindServer(c, otherName));
            var x, y := NamedServer(b, handlerName), NamedServer(c, otherName);
            && (o.Done? <==>
                  ServerNameOk(b, handlerName) && ServerNameOk(c, otherName) && ValidServers(m.servers + [x] + [y]))
            && (o.Done? ==>
                  && IsCanonical(o.m)
                  && Elements(o.m.servers) == Elements(m.servers) + {x, y}
                  && o.m.clients == m.clients)
  {
    hide Valid, ValidServers, Key, Keys, Strict, IsCanonical, BoundServer, ServerNameOk, NamedServer, ChosenHandler,
      Elements;
    var x, y := NamedServer(b, handlerName), NamedServer(c, otherName);
    FreshServer(m, b, handlerName);
    var first := BoundServer(m, b, handlerName);
    if first.Done? {
      NewKeyOnly(first.m.servers, m.servers, b, handlerName, Key(c));
      FreshServer(first.m, c, otherName);
      SecondServerAgrees(m, first.m, x, y, c, otherName, b, handlerName);
    }
    FirstTwoAreValid(m.servers, x, y);
  }

  lemma FirstTwoAreValid(xs: seq<Binding>, x: Binding, y: Binding)
    ensures ValidServers(xs + [x] + [y]) ==> ValidServers(xs + [x])
  {
    hide ValidServers;
    if ValidServers(xs + [x] + [y]) {
      ValidServersPrefix(xs + [x] + [y], |xs| + 1);
      assert (xs + [x] + [y])[..|xs| + 1] == xs + [x];
    }
  }

  lemma NewKeyOnly(ys: seq<Binding>, xs: seq<Binding>, b: Binding, handlerName: string, key: string)
    requires Elements(ys) == Elements(xs) + {NamedServer(b, handlerName)} && key !in Keys(xs) && key != Key(b)
    ensures key !in Keys(ys)
  {
    hide ChosenHandler, Key;
    SameKey(NamedServer(b, handlerName), b);
    if key in Keys(ys) {
      ElementsAppend(xs, NamedServer(b, handlerName));
      KeysFollowElements(ys, xs + [NamedServer(b, handlerName)], key);
      ServerSetsGrow(xs, NamedServer(b, handlerName));
    }
  }

  lemma SecondServerAgrees(m: Manifest, n: Manifest, x: Binding, y: Binding, c: Binding, otherName: string,
      b: Binding, handlerName: string)
    requires Valid(m) && Valid(n)
    requires x == NamedServer(b, handlerName) && y == NamedServer(c, otherName)
    requires Elements(n.servers) == Elements(m.servers) + {x}
    requires Key(b) !in Keys(m.servers) && Key(c) !in Keys(m.servers) && Key(b) != Key(c) && Key(c) !in Keys(n.servers)
    ensures ValidServers(n.servers + [y]) <==> ValidServers(m.servers + [x] + [y])
  {
    hide ValidServers, ValidClients, Key, Keys, DistinctKeys, KeysDiffer, ChosenHandler, Elements;
    SameKey(x, b);
    SameKey(y, c);
    ValidKeysDiffer(m);
    ValidKeysDiffer(n);
    AppendKeepsKeys(m.servers, x);
    ServerSetsGrow(m.servers, x);
    AppendKeepsKeys(m.servers + [x], y);
    AppendKeepsKeys(n.servers, y);
    DifferentKeysAreDistinct(m.servers + [x] + [y]);
    DifferentKeysAreDistinct(n.servers + [y]);
    ElementsAppend(m.servers, x);
    ElementsAppend(m.servers + [x], y);
    ElementsAppend(n.servers, y);
    SameValidity(n.servers + [y], m.servers + [x] + [y]);
  }

  lemma SameValidity(xs: seq<Binding>, ys: seq<Binding>)
    requires Elements(xs) == Elements(ys) && DistinctKeys(Servers, xs) && DistinctKeys(Servers, ys)
    ensures ValidServers(xs) <==> ValidServers(ys)
  {
    hide *;
    if ValidServers(xs) { ServerValidityForgetsOrder(xs, ys); }
    if ValidServers(ys) { ServerValidityForgetsOrder(ys, xs); }
  }

  // Binding two fresh servers in either order is accepted or refused alike and
  // gives the same manifest.
  lemma FreshServersCommute(m: Manifest, b: Binding, handlerName: string, c: Binding, otherName: string)
    requires Valid(m) && IsCanonical(m)
    requires Key(b) !in Keys(m.servers) && Key(c) !in Keys(m.servers) && Key(b) != Key(c)
    ensures Agree(Then(BoundServer(m, b, handlerName), BindServer(c, otherName)),
                  Then(BoundServer(m, c, otherName), BindServer(b, handlerName)))
  {
    hide Valid, Key, Keys, Strict, Then, ServerNameOk, ChosenHandler, ValidServers, Elements;
    TwoFreshServers(m, b, handlerName, c, otherName);
    TwoFreshServers(m, c, otherName, b, handlerName);
    var x, y := NamedServer(b, handlerName), NamedServer(c, otherName);
    SwapLastTwo(m, b, handlerName, c, otherName);
    var o := Then(BoundServer(m, b, handlerName), BindServer(c, otherName));
    var p := Then(BoundServer(m, c, otherName), BindServer(b, handlerName));
    if o.Done? {
      assert {x, y} == {y, x};
      StrictIsUnique(Servers, o.m.servers, p.m.servers);
    }
  }

  lemma SwapLastTwo(m: Manifest, b: Binding, handlerName: string, c: Binding, otherName: string)
    requires Valid(m)
    requires Key(b) !in Keys(m.servers) && Key(c) !in Keys(m.servers) && Key(b) != Key(c)
    ensures var x, y := NamedServer(b, handlerName), NamedServer(c, otherName);
            ValidServers(m.servers + [x] + [y]) <==> ValidServers(m.servers + [y] + [x])
  {
    hide ValidServers, ValidClients, Key, Keys, DistinctKeys, KeysDiffer, ChosenHandler, Elements;
    var x, y := NamedServer(b, handlerName), NamedServer(c, otherName);
    SameKey(x, b);
    SameKey(y, c);
    ValidKeysDiffer(m);
    AppendKeepsKeys(m.servers, x);
    AppendKeepsKeys(m.servers, y);
    ServerSetsGrow(m.servers, x);
    ServerSetsGrow(m.servers, y);
    AppendKeepsKeys(m.servers + [x], y);
    AppendKeepsKeys(m.servers + [y], x);
    DifferentKeysAreDistinct(m.servers + [x] + [y]);
    DifferentKeysAreDistinct(m.servers + [y] + [x]);
    ElementsAppend(m.servers, x);
    ElementsAppend(m.servers, y);
    ElementsAppend(m.servers + [x], y);
    ElementsAppend(m.servers + [y], x);
    SameValidity(m.servers + [x] + [y], m.servers + [y] + [x]);
  }

  // ---------------------------------------------------------------------
  // Fresh clients
  // ---------------------------------------------------------------------

  predicate ClientNameOk(name: string) {
    ValidName(name) && Exported(name) != ""
  }

  lemma ClashMeans(xs: seq<Binding>, name: string)
    requires name !in Names(xs)
    ensures FirstClash(xs, name) == |xs| <==> Exported(name) !in Fields(xs)
    ensures FirstClash(xs, name) < |xs| ==> xs[FirstClash(xs, name)].name != name
  {
    hide Exported;
    var i := FirstClash(xs, name);
    if i < |xs| { assert xs[i].name in Names(xs) && Exported(xs[i].name) in Fields(xs); }
  }

  lemma FreshClient(m: Manifest, b: Binding, name: string, address: string)
    requires Valid(m) && IsCanonical(m) && Resolved(b) && ClientName(b, name) !in Names(m.clients)
    ensures var o := BoundClient(m, b, name, address);
            var bound := NamedClient(b, name, address);
            && (o.Done? <==> ClientNameOk(bound.name) && Exported(bound.name) !in Fields(m.clients))
            && (o.Done? ==>
                  && Valid(o.m) && IsCanonical(o.m)
                  && Elements(o.m.clients) == Elements(m.clients) + {bound}
                  && o.m.servers == m.servers)
  {
    hide ClientName, ClientOk, Resolved, ValidName, Exported, Strict, ValidServers, ValidClients, DistinctKeys, Names,
      Fields, Sort;
    var o := BoundClient(m, b, name, address);
    var bound := NamedClient(b, name, address);
    ClashMeans(m.clients, bound.name);
    if o.Done? {
      BindClientKeeps(m, b, name, address);
      SortedIsFixed(Servers, m.servers);
      SortElements(Clients, m.clients + [bound]);
      ElementsAppend(m.clients, bound);
    }
  }

  lemma NamesFollowElements(xs: seq<Binding>, ys: seq<Binding>)
    requires Elements(xs) == Elements(ys)
    ensures Names(xs) == Names(ys) && Fields(xs) == Fields(ys)
  {
    hide Exported;
    forall i | 0 <= i < |xs| ensures xs[i].name in Names(ys) && Exported(xs[i].name) in Fields(ys) {
      assert xs[i] in Elements(ys);
      var j :| 0 <= j < |ys| && ys[j] == xs[i];
    }
    forall i | 0 <= i < |ys| ensures ys[i].name in Names(xs) && Exported(ys[i].name) in Fields(xs) {
      assert ys[i] in Elements(xs);
      var j :| 0 <= j < |xs| && xs[j] == ys[i];
    }
  }

  lemma TwoFreshClients(m: Manifest, b: Binding, name: string, address: string, c: Binding, other: string,
      elsewhere: string)
    requires Valid(m) && IsCanonical(m) && Resolved(b) && Resolved(c)
    requires ClientName(b, name) !in Names(m.clients) && ClientName(c, other) !in Names(m.clients)
    requires ClientName(b, name) != ClientName(c, other)
    ensures var o := Then(BoundClient(m, b, name, address), BindClient(c, other, elsewhere));
            var x, y := NamedClient(b, name, address), NamedClient(c, other, elsewhere);
            && (o.Done? <==>
                  && ClientNameOk(x.name) && ClientNameOk(y.name)
                  && Exported(x.name) !in Fields(m.clients) && Exported(y.name) !in Fields(m.clients)
                  && Exported(x.name) != Exported(y.name))
            && (o.Done? ==>
                  IsCanonical(o.m) && Elements(o.m.clients) == Elements(m.clients) + {x, y} && o.m.servers == m.servers)
  {
    hide Valid, IsCanonical, Resolved, ClientName, BoundClient, Elements, Names, Fields, Exported, ValidName;
    var x, y := NamedClient(b, name, address), NamedClient(c, other, elsewhere);
    FreshClient(m, b, name, address);
    var first := BoundClient(m, b, name, address);
    if first.Done? {
      ElementsAppend(m.clients, x);
      NamesFollowElements(first.m.clients, m.clients + [x]);
      ClientSetsGrow(m.clients, x);
      FreshClient(first.m, c, other, elsewhere);
    }
  }

  lemma FreshClientsCommute(m: Manifest, b: Binding, name: string, address: string, c: Binding, other: string,
      elsewhere: string)
    requires Valid(m) && IsCanonical(m) && Resolved(b) && Resolved(c)
    requires ClientName(b, name) !in Names(m.clients) && ClientName(c, other) !in Names(m.clients)
    requires ClientName(b, name) != ClientName(c, other)
    ensures Agree(Then(BoundClient(m, b, name, address), BindClient(c, other, elsewhere)),
                  Then(BoundClient(m, c, other, elsewhere), BindClient(b, name, address)))
  {
    hide Valid, Resolved, Then, Strict, Elements, Names, Fields, Exported, ValidName, ClientName;
    TwoFreshClients(m, b, name, address, c, other, elsewhere);
    TwoFreshClients(m, c, other, elsewhere, b, name, address);
    var x, y := NamedClient(b, name, address), NamedClient(c, other, elsewhere);
    var o := Then(BoundClient(m, b, name, address), BindClient(c, other, elsewhere));
    var p := Then(BoundClient(m, c, other, elsewhere), BindClient(b, name, address));
    if o.Done? {
      assert {x, y} == {y, x};
      StrictIsUnique(Clients, o.m.clients, p.m.clients);
    }
  }

  // ---------------------------------------------------------------------
  // A server and a client, fresh or not
  // ---------------------------------------------------------------------

  // What a bind does on one side depends on that side alone.
  lemma ServerSideOnly(m: Manifest, n: Manifest, b: Binding, handlerName: string)
    requires Valid(m) && IsCanonical(m) && Valid(n) && IsCanonical(n) && m.servers == n.servers
    ensures var o, p := BoundServer(m, b, handlerName), BoundServer(n, b, handlerName);
            && (o.Done? <==> p.Done?)
            && (o.Done? ==> o.m.clients == m.clients && p.m.clients == n.clients && o.m.servers == p.m.servers)
  {
    hide ValidServers, ValidClients, Strict, Sort, ValidHandlerName, HandlerNameUsable, ChosenHandler,
      HandlerNameAgrees, Key;
    SortedIsFixed(Clients, m.clients);
    SortedIsFixed(Clients, n.clients);
  }

  lemma ClientSideOnly(m: Manifest, n: Manifest, b: Binding, name: string, address: string)
    requires Valid(m) && IsCanonical(m) && Valid(n) && IsCanonical(n) && m.clients == n.clients
    ensures var o, p := BoundClient(m, b, name, address), BoundClient(n, b, name, address);
            && (o.Done? <==> p.Done?)
            && (o.Done? ==> o.m.servers == m.servers && p.m.servers == n.servers && o.m.clients == p.m.clients)
  {
    hide ValidServers, ValidClients, Strict, Sort, ValidName, Exported, NamedClient;
    SortedIsFixed(Servers, m.servers);
    SortedIsFixed(Servers, n.servers);
  }

  lemma ServerAndClientCommute(m: Manifest, b: Binding, handlerName: string, c: Binding, name: string, address: string)
    requires Valid(m) && IsCanonical(m) && Resolved(c)
    ensures Agree(Then(BoundServer(m, b, handlerName), BindClient(c, name, address)),
                  Then(BoundClient(m, c, name, address), BindServer(b, handlerName)))
  {
    hide Valid, IsCanonical, Resolved, BoundServer, BoundClient;
    BindServerKeeps(m, b, handlerName);
    BindClientKeeps(m, c, name, address);
    ServerSideOnly(m, m, b, handlerName);
    ClientSideOnly(m, m, c, name, address);
    var o, p := BoundServer(m, b, handlerName), BoundClient(m, c, name, address);
    if o.Done? { ClientSideOnly(m, o.m, c, name, address); }
    if p.Done? { ServerSideOnly(m, p.m, b, handlerName); }
  }

  // ---------------------------------------------------------------------
  // Repeating a bind
  // ---------------------------------------------------------------------

  lemma BoundServerHolds(m: Manifest, b: Binding, handlerName: string)
    ensures var o := BoundServer(m, b, handlerName);
            o.Done? ==>
              && HandlerNameUsable(handlerName)
              && exists h :: HandlerNameAgrees(handlerName, h) && b.(handler := h) in o.m.servers
  {
    hide ValidServers, ValidClients, Sort, ValidHandlerName, HandlerNameUsable, NormalizeHandlerName, Key,
      DefaultHandlerName;
    var o := BoundServer(m, b, handlerName);
    if o.Done? {
      var i := IndexOfKey(m.servers, Key(b));
      var h := if i < |m.servers| then m.servers[i].handler else ChosenHandler(b, handlerName);
      var bound := b.(handler := h);
      var xs := if i < |m.servers| then m.servers[i := bound] else m.servers + [bound];
      SortElements(Servers, xs);
      assert bound in Elements(xs) by { assert xs[i] == bound; }
      assert bound in Elements(o.m.servers);
      assert HandlerNameAgrees(handlerName, h);
    }
  }

  lemma RebindIsNoChange(m: Manifest, b: Binding, handlerName: string, h: string)
    requires Valid(m) && IsCanonical(m) && HandlerNameUsable(handlerName)
    requires HandlerNameAgrees(handlerName, h) && b.(handler := h) in m.servers
    ensures BoundServer(m, b, handlerName) == Done(m)
  {
    hide ValidServers, ValidClients, Strict, Sort, HandlerNameUsable, NormalizeHandlerName, Key, DefaultHandlerName,
      KeysDiffer, ValidHandlerName;
    var j :| 0 <= j < |m.servers| && m.servers[j] == b.(handler := h);
    SameKey(m.servers[j], b);
    ValidKeysDiffer(m);
    OnlyIndex(m.servers, j);
    assert m.servers[j := m.servers[j]] == m.servers;
    SortedIsFixed(Servers, m.servers);
    SortedIsFixed(Clients, m.clients);
  }

  lemma OnlyIndex(xs: seq<Binding>, j: nat)
    requires KeysDiffer(xs) && j < |xs|
    ensures IndexOfKey(xs, Key(xs[j])) == j
  {
    hide Key;
  }

  // Repeating an accepted bind is accepted and changes nothing.
  lemma RepeatedServerBind(m: Manifest, b: Binding, handlerName: string)
    ensures var o := BoundServer(m, b, handlerName);
            o.Done? ==> BoundServer(o.m, b, handlerName) == o
  {
    hide BoundServer, HandlerNameUsable, HandlerNameAgrees, Valid, IsCanonical;
    var o := BoundServer(m, b, handlerName);
    if o.Done? {
      BindServerKeeps(m, b, handlerName);
      BoundServerHolds(m, b, handlerName);
      var h :| HandlerNameAgrees(handlerName, h) && b.(handler := h) in o.m.servers;
      RebindIsNoChange(o.m, b, handlerName, h);
    }
  }

  lemma SortKeepsMember(side: Side, xs: seq<Binding>, i: nat)
    requires i < |xs|
    ensures xs[i] in Sort(side, xs)
  {
    SortElements(side, xs);
    assert xs[i] in Elements(Sort(side, xs));
  }

  lemma BoundClientHolds(m: Manifest, b: Binding, name: string, address: string)
    ensures var o := BoundClient(m, b, name, address);
            o.Done? ==>
              && ClientNameOk(ClientName(b, name))
              && exists a :: NamedClient(b, name, address).(address := a) in o.m.clients
  {
    hide ValidServers, ValidClients, Sort, ValidName, Exported, ClientName;
    var o := BoundClient(m, b, name, address);
    if o.Done? {
      var bound := NamedClient(b, name, address);
      var i := FirstClash(m.clients, bound.name);
      var a := if i < |m.clients| then m.clients[i].address else bound.address;
      var xs := if i < |m.clients| then m.clients[i := bound.(address := a)] else m.clients + [bound];
      assert o.m.clients == Sort(Clients, xs);
      assert xs[i] == bound.(address := a);
      SortKeepsMember(Clients, xs, i);
    }
  }

  lemma ClashIsTheNamesake(xs: seq<Binding>, j: nat)
    requires ValidClients(xs) && j < |xs|
    ensures FirstClash(xs, xs[j].name) == j
  {
    hide ClientOk, Exported;
  }

  lemma RepeatedClientBind(m: Manifest, b: Binding, name: string, address: string)
    requires Resolved(b)
    ensures var o := BoundClient(m, b, name, address);
            o.Done? ==> BoundClient(o.m, b, name, address) == o
  {
    hide Resolved, ValidServers, ValidClients, Strict, Sort, ClientName, ValidName, Exported, BoundClient;
    var o := BoundClient(m, b, name, address);
    if o.Done? {
      BindClientKeeps(m, b, name, address);
      BoundClientHolds(m, b, name, address);
      var a :| NamedClient(b, name, address).(address := a) in o.m.clients;
      ClientRebindIsNoChange(o.m, b, name, address, a);
    }
  }

  lemma ClientRebindIsNoChange(m: Manifest, b: Binding, name: string, address: string, a: string)
    requires Valid(m) && IsCanonical(m) && ClientNameOk(ClientName(b, name))
    requires NamedClient(b, name, address).(address := a) in m.clients
    ensures BoundClient(m, b, name, address) == Done(m)
  {
    hide ValidServers, ValidClients, Strict, Sort, ClientName, ValidName, Exported;
    var j :| 0 <= j < |m.clients| && m.clients[j] == NamedClient(b, name, address).(address := a);
    ClashIsTheNamesake(m.clients, j);
    assert m.clients[j := m.clients[j]] == m.clients;
    SortedIsFixed(Servers, m.servers);
    SortedIsFixed(Clients, m.clients);
  }

  // ---------------------------------------------------------------------
  // Unbinding a fresh bind
  // ---------------------------------------------------------------------

  lemma RemovalIsUndo(side: Side, xs: seq<Binding>, ys: seq<Binding>, bound: Binding, i: nat)
    requires Strict(side, xs) && Strict(side, ys) && Elements(ys) == Elements(xs) + {bound} && bound !in xs
    requires i < |ys| && ys[i] == bound
    ensures Without(ys, i) == xs
  {
    hide Without, Before, SortKey;
    WithoutIsStrict(side, ys, i);
    StrictHasNoRepeats(side, ys);
    WithoutElements(ys, i);
    StrictIsUnique(side, Without(ys, i), xs);
  }

  lemma StrictHasNoRepeats(side: Side, ys: seq<Binding>)
    requires Strict(side, ys)
    ensures forall i, j :: 0 <= i < j < |ys| ==> ys[i] != ys[j]
  {
    hide SortKey;
    forall i, j | 0 <= i < j < |ys| ensures ys[i] != ys[j] {
      BeforeIsTotal(SortKey(side, ys[i]), SortKey(side, ys[j]));
    }
  }

  lemma WithoutElements(ys: seq<Binding>, i: nat)
    requires i < |ys| && forall j, k :: 0 <= j < k < |ys| ==> ys[j] != ys[k]
    ensures Elements(Without(ys, i)) == Elements(ys) - {ys[i]}
  {
    forall j | 0 <= j < |ys| && j != i ensures ys[j] in Without(ys, i) {
      assert Without(ys, i)[if j < i then j else j - 1] == ys[j];
    }
  }

  // Unbinding a freshly bound server by package restores the manifest.
  // Without the package it restores it exactly when no other package has a
  // server of that service name bound.
  lemma UnbindUndoesServerBind(m: Manifest, b: Binding, handlerName: string)
    requires Valid(m) && IsCanonical(m) && Key(b) !in Keys(m.servers)
    requires Trimmed(b.package) && b.package != ""
    requires BoundServer(m, b, handlerName).Done?
    ensures var n := BoundServer(m, b, handlerName).m;
            && UnboundServer(n, b.service, b.package) == Done(m)
            && (UnboundServer(n, b.service, "") == Done(m) <==> forall c :: c in m.servers ==> c.service != b.service)
  {
    hide Valid, Key, Keys, Strict, BoundServer, UnboundServer, CountService, Without, Elements, ChosenHandler,
      TrimLeft, TrimRight;
    var bound := NamedServer(b, handlerName);
    FreshServer(m, b, handlerName);
    var n := BoundServer(m, b, handlerName).m;
    FreshIsAbsent(m.servers, bound, b);
    BoundIsThere(n.servers, m.servers, bound);
    var i :| 0 <= i < |n.servers| && n.servers[i] == bound;
    RemovalIsUndo(Servers, m.servers, n.servers, bound, i);
    UnbindByPackage(m, n, i, b.service, b.package);
    StrictHasNoRepeats(Servers, n.servers);
    OthersOfThatName(m.servers, n.servers, bound);
    CountMeans(n.servers, b.service);
    if forall c :: c in m.servers ==> c.service != b.service {
      UnbindByPackage(m, n, i, b.service, "");
    } else {
      AmbiguousIsRefused(n, b.service);
    }
  }

  lemma FreshIsAbsent(xs: seq<Binding>, bound: Binding, b: Binding)
    requires Key(b) !in Keys(xs) && bound.package == b.package && bound.service == b.service
    ensures bound !in xs
  {
    forall i | 0 <= i < |xs| ensures xs[i] != bound {
      assert Key(xs[i]) in Keys(xs);
    }
  }

  lemma BoundIsThere(ys: seq<Binding>, xs: seq<Binding>, bound: Binding)
    requires Elements(ys) == Elements(xs) + {bound}
    ensures bound in ys
  {
    assert bound in Elements(ys);
  }

  lemma OthersOfThatName(xs: seq<Binding>, ys: seq<Binding>, bound: Binding)
    requires Elements(ys) == Elements(xs) + {bound} && bound !in xs
    requires forall i, j :: 0 <= i < j < |ys| ==> ys[i] != ys[j]
    ensures (exists c :: c in xs && c.service == bound.service) <==>
            exists i, j :: 0 <= i < j < |ys| && ys[i].service == bound.service && ys[j].service == bound.service
  {
    assert bound in Elements(ys);
    var k :| 0 <= k < |ys| && ys[k] == bound;
    if exists c :: c in xs && c.service == bound.service {
      var c :| c in xs && c.service == bound.service;
      assert c in Elements(ys);
      var l :| 0 <= l < |ys| && ys[l] == c;
      assert ys[if k < l then k else l].service == bound.service && ys[if k < l then l else k].service == bound.service;
    }
    if i, j :| 0 <= i < j < |ys| && ys[i].service == bound.service && ys[j].service == bound.service {
      assert ys[i] in Elements(ys) && ys[j] in Elements(ys);
      var c := if ys[i] == bound then ys[j] else ys[i];
      assert c in Elements(xs);
    }
  }

  lemma AmbiguousIsRefused(n: Manifest, service: string)
    requires CountService(n.servers, service) > 1
    ensures !UnboundServer(n, service, "").Done?
  {
    hide CountService, OtherServers;
    assert Trim("") == "";
  }

  lemma UnbindByPackage(m: Manifest, n: Manifest, i: nat, service: string, package: string)
    requires Valid(n) && IsCanonical(n) && i < |n.servers| && Trimmed(package)
    requires Matches(n.servers[i], service, package)
    requires package == "" ==> CountService(n.servers, service) <= 1
    requires m == n.(servers := Without(n.servers, i))
    ensures UnboundServer(n, service, package) == Done(m)
  {
    hide Valid, Strict, UnboundServer, CountService, Without, Matches, Canonicalize, TrimLeft, TrimRight;
    assert Trim(package) == package;
    UnbindServerRemovesOne(n, service, package);
    var o := UnboundServer(n, service, package);
    assert n.servers[i] in n.servers;
    assert o.Done?;
    var k :| SingledOut(n.servers, k, service, package) && ServerRemoved(n, k, o.m);
    assert k == i;
  }

  lemma UnbindUndoesClientBind(m: Manifest, b: Binding, name: string, address: string)
    requires Valid(m) && IsCanonical(m) && Resolved(b) && ClientName(b, name) !in Names(m.clients)
    requires BoundClient(m, b, name, address).Done?
    ensures UnboundClient(BoundClient(m, b, name, address).m, ClientName(b, name)) == Done(m)
  {
    hide Valid, Resolved, Strict, BoundClient, UnboundClient, Without, Elements, ClientName, Canonicalize;
    var bound := NamedClient(b, name, address);
    FreshClient(m, b, name, address);
    var n := BoundClient(m, b, name, address).m;
    assert forall c :: c in m.clients ==> c.name in Names(m.clients);
    BoundIsThere(n.clients, m.clients, bound);
    var i :| 0 <= i < |n.clients| && n.clients[i] == bound;
    RemovalIsUndo(Clients, m.clients, n.clients, bound, i);
    UnbindClientRemovesOne(n, bound.name);
    var o := UnboundClient(n, bound.name);
    assert n.clients[i] in n.clients;
    assert o.Done?;
    var k :| ClientAt(n.clients, k, bound.name) && ClientRemoved(n, k, o.m);
    assert k == i;
  }

  // ---------------------------------------------------------------------
  // The assumptions of the laws can be met
  // ---------------------------------------------------------------------

  const EXAMPLE := Binding("", "m", "", "p", "p", "S", "", [], "")

  lemma ExampleIsResolved()
    ensures Resolved(EXAMPLE) && Trimmed(EXAMPLE.package) && EXAMPLE.package != ""
  {
    hide Trim;
    assert Trim("m") == "m" && Trim("p") == "p" && Trim("S") == "S";
  }

  lemma ExampleNames()
    ensures Trim("") == "" && NormalizeHandlerName("") == "" && DefaultHandlerName("S") == "S" && ValidHandlerName("S")
    ensures ClientName(EXAMPLE, "s") == "s" && ValidName("s") && Exported("s") == "S"
  {
    hide Trim, Capitalize, DefaultClientName, IsSpace;
    TrimmedLiterals();
    CapitalLiterals();
    assert !HasSuffix("S", "Service") && !HasSuffix("S", "Handler") && !HasSuffix("", "Handler");
  }

  lemma TrimmedLiterals()
    ensures Trim("") == "" && Trim("S") == "S" && Trim("s") == "s"
  {
    hide Trim;
    assert Trimmed("") && Trimmed("S") && Trimmed("s");
  }

  lemma CapitalLiterals()
    ensures Capitalize("", true) == "" && Capitalize("s", true) == "S"
  {
    assert "s"[1..] == "" && Capitalize("", false) == "";
  }

  // From the empty manifest the example is accepted, as a server and as a client.
  lemma ExampleBinds()
    ensures Valid(EMPTY) && IsCanonical(EMPTY)
    ensures Key(EXAMPLE) !in Keys(EMPTY.servers) && BoundServer(EMPTY, EXAMPLE, "").Done?
    ensures ClientName(EXAMPLE, "s") !in Names(EMPTY.clients) && BoundClient(EMPTY, EXAMPLE, "s", "").Done?
  {
    hide BoundServer, BoundClient, Trim, NormalizeHandlerName, DefaultHandlerName, ValidHandlerName, ClientName,
      ValidName, Exported, Resolved, ServiceFiles;
    EmptyIsLoadable();
    ExampleIsResolved();
    ExampleNames();
    FreshServer(EMPTY, EXAMPLE, "");
    CompleteForgets(EXAMPLE, NamedServer(EXAMPLE, ""));
    ExampleServerIsValid(NamedServer(EXAMPLE, ""));
    FreshClient(EMPTY, EXAMPLE, "s", "");
  }

  lemma ExampleServerIsValid(b: Binding)
    requires Complete(b) && MethodsOk(b) && b.methods == [] && ValidHandlerName(b.handler)
    ensures ValidServers(EMPTY.servers + [b])
  {
    hide Complete, ValidHandlerName;
    assert EMPTY.servers + [b] == [b];
    assert |ServiceFiles(b)| == 1;
    assert ServerOk(b);
  }
}
