// Any number of fresh binds, of servers and clients mixed: every order is
// accepted or refused alike, with the same manifest.
module Permuting {
  import opened Naming
  import opened Bindings
  import opened Canonical
  import opened Manifests
  import opened Runs
  import opened Commuting

  // The steps one after the other, up to the first that is refused.
  ghost function InOrder(m: Manifest, steps: seq<Step>): Outcome {
    if steps == [] then Done(m) else Then(InOrder(m, steps[..|steps| - 1]), steps[|steps| - 1])
  }

  // A bind of a service or client name that m does not have.
  ghost predicate FreshStep(m: Manifest, step: Step) {
    match step
    case BindServer(b, _) => Key(b) !in Keys(m.servers)
    case BindClient(b, name, _) => Resolved(b) && ClientName(b, name) !in Names(m.clients)
    case _ => false
  }

  ghost predicate Apart(x: Step, y: Step) {
    && (x.BindServer? && y.BindServer? ==> Key(x.b) != Key(y.b))
    && (x.BindClient? && y.BindClient? ==> ClientName(x.b, x.name) != ClientName(y.b, y.name))
  }

  ghost predicate FreshSteps(m: Manifest, steps: seq<Step>) {
    && (forall i :: 0 <= i < |steps| ==> FreshStep(m, steps[i]))
    && (forall i, j :: 0 <= i < j < |steps| ==> Apart(steps[i], steps[j]))
  }

  function ServersOf(steps: seq<Step>): seq<Binding> {
    if steps == [] then []
    else
      var rest, last := ServersOf(steps[..|steps| - 1]), steps[|steps| - 1];
      if last.BindServer? then rest + [NamedServer(last.b, last.handlerName)] else rest
  }

  function ClientsOf(steps: seq<Step>): seq<Binding> {
    if steps == [] then []
    else
      var rest, last := ClientsOf(steps[..|steps| - 1]), steps[|steps| - 1];
      if last.BindClient? then rest + [NamedClient(last.b, last.name, last.address)] else rest
  }

  ghost predicate NameIsUsable(step: Step) {
    match step
    case BindServer(b, handlerName) => ServerNameOk(b, handlerName)
    case BindClient(b, name, _) => ClientNameOk(ClientName(b, name))
    case _ => true
  }

  // The whole set is acceptable, whatever its order.
  ghost predicate Acceptable(m: Manifest, steps: seq<Step>) {
    && (forall step :: step in steps ==> NameIsUsable(step))
    && ValidServers(m.servers + ServersOf(steps))
    && ValidClients(m.clients + ClientsOf(steps))
  }

  // ---------------------------------------------------------------------
  // Members of the lists
  // ---------------------------------------------------------------------

  lemma {:induction false} ServersAre(steps: seq<Step>, b: Binding)
    ensures b in ServersOf(steps) <==>
              exists i :: 0 <= i < |steps| && steps[i].BindServer? && b == NamedServer(steps[i].b, steps[i].handlerName)
    decreases |steps|
  {
    hide NamedServer;
    if steps != [] {
      var n := |steps| - 1;
      ServersAre(steps[..n], b);
      assert forall i :: 0 <= i < n ==> steps[..n][i] == steps[i];
    }
  }

  lemma {:induction false} ClientsAre(steps: seq<Step>, b: Binding)
    ensures b in ClientsOf(steps) <==>
              exists i :: 0 <= i < |steps| && steps[i].BindClient?
                          && b == NamedClient(steps[i].b, steps[i].name, steps[i].address)
    decreases |steps|
  {
    hide NamedClient;
    if steps != [] {
      var n := |steps| - 1;
      ClientsAre(steps[..n], b);
      assert forall i :: 0 <= i < n ==> steps[..n][i] == steps[i];
    }
  }

  lemma FreshPrefix(m: Manifest, steps: seq<Step>)
    requires FreshSteps(m, steps) && steps != []
    ensures FreshSteps(m, steps[..|steps| - 1])
  {
    hide FreshStep, Apart;
  }

  // The key of the last step is new to everything before it.
  lemma LastServerIsNew(m: Manifest, steps: seq<Step>)
    requires FreshSteps(m, steps) && steps != [] && steps[|steps| - 1].BindServer?
    ensures Key(steps[|steps| - 1].b) !in Keys(m.servers + ServersOf(steps[..|steps| - 1]))
  {
    hide Key, ChosenHandler, ServersOf;
    var n := |steps| - 1;
    var before := steps[..n];
    var xs := m.servers + ServersOf(before);
    assert FreshStep(m, steps[n]);
    forall k | 0 <= k < |xs| ensures Key(xs[k]) != Key(steps[n].b) {
      if k < |m.servers| {
        assert Key(m.servers[k]) in Keys(m.servers);
      } else {
        ServersAre(before, xs[k]);
        var i :| 0 <= i < n && before[i].BindServer? && xs[k] == NamedServer(before[i].b, before[i].handlerName);
        SameKey(xs[k], before[i].b);
        assert Apart(steps[i], steps[n]);
      }
    }
  }

  lemma LastClientIsNew(m: Manifest, steps: seq<Step>)
    requires FreshSteps(m, steps) && steps != [] && steps[|steps| - 1].BindClient?
    ensures ClientName(steps[|steps| - 1].b, steps[|steps| - 1].name) !in
              Names(m.clients + ClientsOf(steps[..|steps| - 1]))
  {
    hide ClientName, ClientsOf;
    var n := |steps| - 1;
    var before := steps[..n];
    var xs := m.clients + ClientsOf(before);
    assert FreshStep(m, steps[n]);
    forall k | 0 <= k < |xs| ensures xs[k].name != ClientName(steps[n].b, steps[n].name) {
      if k < |m.clients| {
        assert m.clients[k].name in Names(m.clients);
      } else {
        ClientsAre(before, xs[k]);
        var i :| 0 <= i < n && before[i].BindClient?
                 && xs[k] == NamedClient(before[i].b, before[i].name, before[i].address);
        assert Apart(steps[i], steps[n]);
      }
    }
  }

  // ---------------------------------------------------------------------
  // What a list of fresh binds does
  // ---------------------------------------------------------------------

  ghost predicate Holds(m: Manifest, steps: seq<Step>, o: Outcome) {
    && (o.Done? <==> Acceptable(m, steps))
    && KeysDiffer(m.servers + ServersOf(steps))
    && NamesDiffer(m.clients + ClientsOf(steps))
    && (o.Done? ==>
          && Valid(o.m) && IsCanonical(o.m)
          && Elements(o.m.servers) == Elements(m.servers + ServersOf(steps))
          && Elements(o.m.clients) == Elements(m.clients + ClientsOf(steps)))
  }

  lemma {:induction false} ManyFreshBinds(m: Manifest, steps: seq<Step>)
    requires Valid(m) && IsCanonical(m) && FreshSteps(m, steps)
    ensures Holds(m, steps, InOrder(m, steps))
    decreases |steps|
  {
    hide Valid, IsCanonical, FreshSteps, Holds, Then, FreshStep;
    if steps == [] {
      NoSteps(m);
    } else {
      FreshPrefix(m, steps);
      ManyFreshBinds(m, steps[..|steps| - 1]);
      LastIsBind(m, steps);
      if steps[|steps| - 1].BindServer? { OneMoreServer(m, steps); } else { OneMoreClient(m, steps); }
    }
  }

  lemma NoSteps(m: Manifest)
    requires Valid(m) && IsCanonical(m)
    ensures Holds(m, [], Done(m))
  {
    hide Strict, KeysDiffer, NamesDiffer, ServerOk, ClientOk, ServersAgree, ClientsAgree;
    ValidKeysDiffer(m);
    assert m.servers + [] == m.servers && m.clients + [] == m.clients;
  }

  lemma LastIsBind(m: Manifest, steps: seq<Step>)
    requires FreshSteps(m, steps) && steps != []
    ensures steps[|steps| - 1].BindServer? || steps[|steps| - 1].BindClient?
    ensures steps[|steps| - 1].BindClient? ==> Resolved(steps[|steps| - 1].b)
  {
    assert FreshStep(m, steps[|steps| - 1]);
  }

  lemma UsableSnoc(steps: seq<Step>)
    requires steps != []
    ensures (forall step :: step in steps ==> NameIsUsable(step)) <==>
              (forall step :: step in steps[..|steps| - 1] ==> NameIsUsable(step)) && NameIsUsable(steps[|steps| - 1])
  {
    hide NameIsUsable;
    assert steps == steps[..|steps| - 1] + [steps[|steps| - 1]];
  }

  lemma OneMoreServer(m: Manifest, steps: seq<Step>)
    requires Valid(m) && FreshSteps(m, steps) && steps != [] && steps[|steps| - 1].BindServer?
    requires Holds(m, steps[..|steps| - 1], InOrder(m, steps[..|steps| - 1]))
    ensures Holds(m, steps, InOrder(m, steps))
  {
    hide ValidServers, ValidClients, KeysDiffer, NamesDiffer, Strict, Elements, NamedServer, ServerNameOk,
      BoundServer, FreshSteps, Keys, Key;
    var n := |steps| - 1;
    var last := steps[n];
    var xs := m.servers + ServersOf(steps[..n]);
    var bound := NamedServer(last.b, last.handlerName);
    assert m.servers + ServersOf(steps) == xs + [bound];
    UsableSnoc(steps);
    LastServerIsNew(m, steps);
    KeyOfNamed(last.b, last.handlerName);
    AppendKeepsKeys(xs, bound);
    ValidFirst(xs, bound);
    var o := InOrder(m, steps[..n]);
    if o.Done? {
      KeyStaysNew(o.m.servers, xs, Key(last.b));
      FreshServer(o.m, last.b, last.handlerName);
      ServersSwap(o.m, xs, bound);
      ElementsAppend(o.m.servers, bound);
      ElementsAppend(xs, bound);
    }
  }

  lemma KeyOfNamed(b: Binding, handlerName: string)
    ensures Key(NamedServer(b, handlerName)) == Key(b)
  {
    hide ChosenHandler;
    SameKey(NamedServer(b, handlerName), b);
  }

  lemma ValidFirst(xs: seq<Binding>, b: Binding)
    ensures ValidServers(xs + [b]) ==> ValidServers(xs)
    ensures ValidClients(xs + [b]) ==> ValidClients(xs)
  {
    hide ValidServers, ValidClients;
    assert (xs + [b])[..|xs|] == xs;
    if ValidServers(xs + [b]) { ValidServersPrefix(xs + [b], |xs|); }
    if ValidClients(xs + [b]) { ValidClientsPrefix(xs + [b], |xs|); }
  }

  lemma KeyStaysNew(ys: seq<Binding>, xs: seq<Binding>, key: string)
    requires Elements(ys) == Elements(xs) && key !in Keys(xs)
    ensures key !in Keys(ys)
  {
    hide Keys, Elements;
    if key in Keys(ys) { KeysFollowElements(ys, xs, key); }
  }

  lemma ServersSwap(n: Manifest, xs: seq<Binding>, bound: Binding)
    requires Valid(n) && Elements(n.servers) == Elements(xs) && KeysDiffer(xs + [bound]) &&
      Key(bound) !in Keys(n.servers)
    ensures ValidServers(n.servers + [bound]) <==> ValidServers(xs + [bound])
  {
    hide ValidServers, ValidClients, Key, Keys, DistinctKeys, KeysDiffer, Elements;
    ValidKeysDiffer(n);
    AppendKeepsKeys(n.servers, bound);
    DifferentKeysAreDistinct(n.servers + [bound]);
    DifferentKeysAreDistinct(xs + [bound]);
    ElementsAppend(n.servers, bound);
    ElementsAppend(xs, bound);
    SameValidity(n.servers + [bound], xs + [bound]);
  }

  lemma OneMoreClient(m: Manifest, steps: seq<Step>)
    requires Valid(m) && FreshSteps(m, steps) && steps != [] && steps[|steps| - 1].BindClient?
    requires Resolved(steps[|steps| - 1].b)
    requires Holds(m, steps[..|steps| - 1], InOrder(m, steps[..|steps| - 1]))
    ensures Holds(m, steps, InOrder(m, steps))
  {
    hide ValidServers, ValidClients, KeysDiffer, NamesDiffer, Strict, Elements, NamedClient, ClientNameOk,
      BoundClient, FreshSteps, Names, ClientName, Resolved;
    var n := |steps| - 1;
    var last := steps[n];
    var xs := m.clients + ClientsOf(steps[..n]);
    var bound := NamedClient(last.b, last.name, last.address);
    assert m.clients + ClientsOf(steps) == xs + [bound];
    UsableSnoc(steps);
    LastClientIsNew(m, steps);
    NameOfNamed(last.b, last.name, last.address);
    AppendKeepsNames(xs, bound);
    ValidFirst(xs, bound);
    var o := InOrder(m, steps[..n]);
    if o.Done? {
      NamesFollowElements(o.m.clients, xs);
      FreshClient(o.m, last.b, last.name, last.address);
      AcceptedClient(xs, last.b, last.name, last.address);
      ElementsAppend(o.m.clients, bound);
      ElementsAppend(xs, bound);
    }
  }

  lemma NameOfNamed(b: Binding, name: string, address: string)
    ensures NamedClient(b, name, address).name == ClientName(b, name)
  {
  }

  lemma AppendKeepsNames(xs: seq<Binding>, b: Binding)
    requires NamesDiffer(xs) && b.name !in Names(xs)
    ensures NamesDiffer(xs + [b])
  {
    assert forall i :: 0 <= i < |xs| ==> xs[i].name in Names(xs);
  }

  lemma AcceptedClient(xs: seq<Binding>, b: Binding, name: string, address: string)
    requires Resolved(b) && ValidClients(xs) && ClientName(b, name) !in Names(xs)
    ensures
      var bound := NamedClient(b, name, address);
      ClientNameOk(bound.name) && Exported(bound.name) !in Fields(xs) <==>
        ClientNameOk(ClientName(b, name)) && ValidClients(xs + [bound])
  {
    hide ValidClients, ClientName, Resolved, ClientOk, ValidName, Exported, Names, Fields;
    var bound := NamedClient(b, name, address);
    ClientsStep(xs, bound);
    if ValidName(ClientName(b, name)) { NamedClientIsOk(b, name, address); }
  }

  // ---------------------------------------------------------------------
  // Any order
  // ---------------------------------------------------------------------

  lemma WithoutOne<T>(xs: seq<T>, p: nat)
    requires p < |xs|
    ensures multiset(xs) == multiset(xs[..p] + xs[p + 1..]) + multiset{xs[p]}
  {
    assert xs == (xs[..p] + [xs[p]]) + xs[p + 1..];
  }

  lemma PlaceOf<T>(xs: seq<T>, x: T) returns (p: nat)
    requires x in multiset(xs)
    ensures p < |xs| && xs[p] == x
  {
    p :| p < |xs| && xs[p] == x;
  }

  // Two places of a list are two places of its permutation.
  lemma PairInPermutation<T>(xs: seq<T>, ys: seq<T>, i: nat, j: nat) returns (p: nat, q: nat)
    requires multiset(xs) == multiset(ys) && i < j < |ys|
    ensures p < |xs| && q < |xs| && p != q && xs[p] == ys[i] && xs[q] == ys[j]
  {
    p := PlaceOf(xs, ys[i]);
    var others, rest := xs[..p] + xs[p + 1..], ys[..i] + ys[i + 1..];
    WithoutOne(xs, p);
    WithoutOne(ys, i);
    assert multiset(others) == multiset(xs) - multiset{ys[i]} == multiset(rest);
    assert rest[j - 1] == ys[j];
    var k := PlaceOf(others, ys[j]);
    q := if k < p then k else k + 1;
  }

  lemma FreshInAnyOrder(m: Manifest, steps: seq<Step>, others: seq<Step>)
    requires FreshSteps(m, steps) && multiset(steps) == multiset(others)
    ensures FreshSteps(m, others)
  {
    hide FreshStep, Apart;
    forall i | 0 <= i < |others| ensures FreshStep(m, others[i]) {
      assert others[i] in multiset(others);
      assert others[i] in steps;
    }
    forall i, j | 0 <= i < j < |others| ensures Apart(others[i], others[j]) {
      var p, q := PairInPermutation(steps, others, i, j);
      ApartIsSymmetric(steps[p], steps[q]);
    }
  }

  lemma ApartIsSymmetric(x: Step, y: Step)
    ensures Apart(x, y) <==> Apart(y, x)
  {
  }

  lemma SameLists(steps: seq<Step>, others: seq<Step>)
    requires multiset(steps) == multiset(others)
    ensures Elements(ServersOf(steps)) == Elements(ServersOf(others))
    ensures Elements(ClientsOf(steps)) == Elements(ClientsOf(others))
    ensures forall step :: step in steps <==> step in others
  {
    hide ServersOf, ClientsOf, NamedServer, NamedClient;
    forall step ensures step in steps <==> step in others {
      assert step in multiset(steps) <==> step in multiset(others);
    }
    forall b ensures b in ServersOf(steps) <==> b in ServersOf(others) { SameServer(steps, others, b); }
    forall b ensures b in ClientsOf(steps) <==> b in ClientsOf(others) { SameClient(steps, others, b); }
  }

  lemma SameServer(steps: seq<Step>, others: seq<Step>, b: Binding)
    requires forall step :: step in steps <==> step in others
    ensures b in ServersOf(steps) <==> b in ServersOf(others)
  {
    hide ServersOf, NamedServer;
    ServersAre(steps, b);
    ServersAre(others, b);
    if i :| 0 <= i < |steps| && steps[i].BindServer? && b == NamedServer(steps[i].b, steps[i].handlerName) {
      assert steps[i] in others;
    }
    if i :| 0 <= i < |others| && others[i].BindServer? && b == NamedServer(others[i].b, others[i].handlerName) {
      assert others[i] in steps;
    }
  }

  lemma SameClient(steps: seq<Step>, others: seq<Step>, b: Binding)
    requires forall step :: step in steps <==> step in others
    ensures b in ClientsOf(steps) <==> b in ClientsOf(others)
  {
    hide ClientsOf, NamedClient;
    ClientsAre(steps, b);
    ClientsAre(others, b);
    if i :| 0 <= i < |steps| && steps[i].BindClient? && b == NamedClient(steps[i].b, steps[i].name, steps[i].address) {
      assert steps[i] in others;
    }
    if i :| 0 <= i < |others| && others[i].BindClient?
            && b == NamedClient(others[i].b, others[i].name, others[i].address) {
      assert others[i] in steps;
    }
  }

  lemma ElementsJoin(xs: seq<Binding>, ys: seq<Binding>)
    ensures Elements(xs + ys) == Elements(xs) + Elements(ys)
  {
  }

  // Any permutation of a list of fresh binds is accepted or refused as a whole
  // alike, and leaves the same manifest.
  lemma FreshBindsPermute(m: Manifest, steps: seq<Step>, others: seq<Step>)
    requires Valid(m) && IsCanonical(m) && FreshSteps(m, steps) && multiset(steps) == multiset(others)
    ensures Agree(InOrder(m, steps), InOrder(m, others))
  {
    hide Valid, IsCanonical, FreshSteps, InOrder, Elements, KeysDiffer, NamesDiffer, ValidServers, ValidClients,
      NameIsUsable;
    FreshInAnyOrder(m, steps, others);
    ManyFreshBinds(m, steps);
    ManyFreshBinds(m, others);
    SameLists(steps, others);
    ElementsJoin(m.servers, ServersOf(steps));
    ElementsJoin(m.servers, ServersOf(others));
    ElementsJoin(m.clients, ClientsOf(steps));
    ElementsJoin(m.clients, ClientsOf(others));
    SameValidLists(m.servers + ServersOf(steps), m.servers + ServersOf(others));
    SameValidClients(m.clients + ClientsOf(steps), m.clients + ClientsOf(others));
    var o, p := InOrder(m, steps), InOrder(m, others);
    if o.Done? { CanonicalFormIsUnique(o.m, p.m); }
  }

  lemma SameValidLists(xs: seq<Binding>, ys: seq<Binding>)
    requires Elements(xs) == Elements(ys) && KeysDiffer(xs) && KeysDiffer(ys)
    ensures ValidServers(xs) <==> ValidServers(ys)
  {
    hide *;
    DifferentKeysAreDistinct(xs);
    DifferentKeysAreDistinct(ys);
    SameValidity(xs, ys);
  }

  lemma SameValidClients(xs: seq<Binding>, ys: seq<Binding>)
    requires Elements(xs) == Elements(ys) && NamesDiffer(xs) && NamesDiffer(ys)
    ensures ValidClients(xs) <==> ValidClients(ys)
  {
    hide *;
    DifferentKeysAreDistinct(xs);
    DifferentKeysAreDistinct(ys);
    if ValidClients(xs) { ClientsForget(xs, ys); }
    if ValidClients(ys) { ClientsForget(ys, xs); }
  }

  lemma ClientsForget(xs: seq<Binding>, ys: seq<Binding>)
    requires ValidClients(xs) && Elements(xs) == Elements(ys) && DistinctKeys(Clients, ys)
    ensures ValidClients(ys)
  {
    hide ValidClients, DistinctKeys;
    ClientValidityForgetsOrder(xs, ys);
  }
}
