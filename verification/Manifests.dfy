// Bind, rebind and unbind of servers and clients
// (internal/generator/rpcbinding/binding.go).
module Manifests {
  import opened Text
  import opened Naming
  import opened Bindings
  import opened Canonical

  datatype Error =
    | InvalidManifest | InvalidHandlerName | HandlerIsFixed
    | InvalidClientName | NoUsableField | NameRepurposed | PackageDiffers | FieldsConflict
    | Ambiguous | NotBound | NoTransport | ResolveFailed | MutationFailed

  datatype Outcome = Done(m: Manifest) | Refused(error: Error)

  // ---------------------------------------------------------------------
  // What each operation makes of the manifest it loads
  // ---------------------------------------------------------------------

  // Canonical order, then the validator.
  ghost function Checked(m: Manifest): Outcome {
    if Valid(Canonicalize(m)) then Done(Canonicalize(m)) else Refused(InvalidManifest)
  }

  function IndexOfKey(xs: seq<Binding>, key: string): (i: nat)
    ensures i <= |xs|
    ensures i < |xs| ==> Key(xs[i]) == key
    ensures forall j :: 0 <= j < i ==> Key(xs[j]) != key
  {
    if xs == [] || Key(xs[0]) == key then 0 else 1 + IndexOfKey(xs[1..], key)
  }

  function ChosenHandler(b: Binding, handlerName: string): string {
    var normalized := NormalizeHandlerName(Trim(handlerName));
    if normalized == "" then DefaultHandlerName(b.service) else normalized
  }

  predicate HandlerNameUsable(handlerName: string) {
    Trim(handlerName) == "" || ValidHandlerName(NormalizeHandlerName(Trim(handlerName)))
  }

  predicate HandlerNameAgrees(handlerName: string, handler: string) {
    NormalizeHandlerName(Trim(handlerName)) in {"", handler}
  }

  ghost function BoundServer(m: Manifest, b: Binding, handlerName: string): Outcome {
    var i := IndexOfKey(m.servers, Key(b));
    if !Valid(m) then Refused(InvalidManifest)
    else if !HandlerNameUsable(handlerName) then Refused(InvalidHandlerName)
    else if i < |m.servers| then
      if !HandlerNameAgrees(handlerName, m.servers[i].handler) then Refused(HandlerIsFixed)
      else Checked(m.(servers := m.servers[i := b.(handler := m.servers[i].handler)]))
    else if !ValidHandlerName(ChosenHandler(b, handlerName)) then Refused(InvalidHandlerName)
    else Checked(m.(servers := m.servers + [b.(handler := ChosenHandler(b, handlerName))]))
  }

  function ClientName(b: Binding, name: string): string {
    if Trim(name) == "" then DefaultClientName(b.service) else Trim(name)
  }

  function NamedClient(b: Binding, name: string, address: string): Binding {
    b.(name := ClientName(b, name), address := if Trim(address) == "" then "127.0.0.1:9090" else Trim(address))
  }

  // Where the scan of BindClient stops: the first client with the same name or
  // the same Go field.
  function FirstClash(xs: seq<Binding>, name: string): (i: nat)
    ensures i <= |xs|
    ensures i < |xs| ==> xs[i].name == name || Exported(xs[i].name) == Exported(name)
    ensures forall j :: 0 <= j < i ==> xs[j].name != name && Exported(xs[j].name) != Exported(name)
  {
    if xs == [] || xs[0].name == name || Exported(xs[0].name) == Exported(name) then 0
    else 1 + FirstClash(xs[1..], name)
  }

  // BindClient puts its result in canonical order and does not validate it.
  ghost function BoundClient(m: Manifest, b: Binding, name: string, address: string): Outcome {
    var bound := NamedClient(b, name, address);
    var i := FirstClash(m.clients, bound.name);
    if !ValidName(bound.name) then Refused(InvalidClientName)
    else if Exported(bound.name) == "" then Refused(NoUsableField)
    else if !Valid(m) then Refused(InvalidManifest)
    else if i == |m.clients| then Done(Canonicalize(m.(clients := m.clients + [bound])))
    else if m.clients[i].name != bound.name then Refused(FieldsConflict)
    else if m.clients[i].service != bound.service then Refused(NameRepurposed)
    else if m.clients[i].package != bound.package then Refused(PackageDiffers)
    else Done(Canonicalize(m.(clients := m.clients[i := bound.(address := m.clients[i].address)])))
  }

  predicate Matches(b: Binding, service: string, package: string) {
    b.service == service && (package == "" || b.package == package)
  }

  function CountService(xs: seq<Binding>, service: string): nat {
    if xs == [] then 0
    else CountService(xs[..|xs| - 1], service) + (if xs[|xs| - 1].service == service then 1 else 0)
  }

  function OtherServers(xs: seq<Binding>, service: string, package: string): seq<Binding> {
    if xs == [] then []
    else
      var rest := OtherServers(xs[..|xs| - 1], service, package);
      if Matches(xs[|xs| - 1], service, package) then rest else rest + [xs[|xs| - 1]]
  }

  function OtherClients(xs: seq<Binding>, name: string): seq<Binding> {
    if xs == [] then []
    else
      var rest := OtherClients(xs[..|xs| - 1], name);
      if xs[|xs| - 1].name == name then rest else rest + [xs[|xs| - 1]]
  }

  ghost function UnboundServer(m: Manifest, service: string, packagePath: string): Outcome {
    var package := Trim(packagePath);
    var others := OtherServers(m.servers, service, package);
    if !Valid(m) then Refused(InvalidManifest)
    else if package == "" && CountService(m.servers, service) > 1 then Refused(Ambiguous)
    else if others == m.servers then Refused(NotBound)
    else Done(Canonicalize(m.(servers := others)))
  }

  ghost function UnboundClient(m: Manifest, name: string): Outcome {
    var others := OtherClients(m.clients, name);
    if !Valid(m) then Refused(InvalidManifest)
    else if others == m.clients then Refused(NotBound)
    else Done(Canonicalize(m.(clients := others)))
  }

  // resolve answers for exactly the package and service it is asked for.
  ghost predicate Answers(resolved: seq<Binding>, asked: seq<Binding>) {
    |resolved| == |asked|
    && forall i :: 0 <= i < |asked| ==>
          resolved[i].package == asked[i].package && resolved[i].service == asked[i].service
  }

  ghost function Regenerated(m: Manifest, servers: seq<Binding>, clients: seq<Binding>): Outcome {
    if !Valid(m) then Refused(InvalidManifest)
    else if m == EMPTY then Done(m)
    else if !Answers(servers, m.servers) || !Answers(clients, m.clients) then Refused(ResolveFailed)
    else Checked(Manifest(
      seq(|servers|, i requires 0 <= i < |servers| => servers[i].(handler := m.servers[i].handler)),
      seq(|clients|, i requires 0 <= i < |clients| =>
        clients[i].(name := m.clients[i].name, address := m.clients[i].address))))
  }

  // ---------------------------------------------------------------------
  // Keys stay distinct
  // ---------------------------------------------------------------------

  ghost predicate KeysDiffer(xs: seq<Binding>) {
    forall i, j :: 0 <= i < j < |xs| ==> Key(xs[i]) != Key(xs[j])
  }

  ghost predicate NamesDiffer(xs: seq<Binding>) {
    forall i, j :: 0 <= i < j < |xs| ==> xs[i].name != xs[j].name
  }

  lemma DifferentKeysAreDistinct(xs: seq<Binding>)
    ensures KeysDiffer(xs) ==> DistinctKeys(Servers, xs)
    ensures NamesDiffer(xs) <==> DistinctKeys(Clients, xs)
  {
    assert forall b: Binding, c: Binding :: b.package == c.package && b.service == c.service ==> Key(b) == Key(c);
  }

  lemma ValidKeysDiffer(m: Manifest)
    requires Valid(m)
    ensures KeysDiffer(m.servers) && DistinctKeys(Servers, m.servers)
    ensures NamesDiffer(m.clients) && DistinctKeys(Clients, m.clients)
  {
    hide ServerOk, ClientOk, DistinctKeys;
    DifferentKeysAreDistinct(m.servers);
    DifferentKeysAreDistinct(m.clients);
  }

  lemma AppendKeepsKeys(xs: seq<Binding>, b: Binding)
    requires KeysDiffer(xs) && Key(b) !in Keys(xs)
    ensures KeysDiffer(xs + [b])
  {
    hide Key;
    assert forall i :: 0 <= i < |xs| ==> Key(xs[i]) in Keys(xs);
  }

  lemma FreshIndex(xs: seq<Binding>, b: Binding)
    ensures IndexOfKey(xs, Key(b)) == |xs| <==> Key(b) !in Keys(xs)
  {
    hide Key;
    var i := IndexOfKey(xs, Key(b));
    if i < |xs| { assert Key(xs[i]) in Keys(xs); }
  }

  lemma CheckedIsSound(m: Manifest)
    requires KeysDiffer(m.servers) && NamesDiffer(m.clients)
    ensures Checked(m).Done? <==> Valid(m)
    ensures Checked(m).Done? ==> Valid(Checked(m).m) && IsCanonical(Checked(m).m) && SameBindings(Checked(m).m, m)
  {
    hide Valid, KeysDiffer, NamesDiffer, DistinctKeys, Canonicalize, IsCanonical, SameBindings;
    DifferentKeysAreDistinct(m.servers);
    DifferentKeysAreDistinct(m.clients);
    CanonicalizeIsSound(m);
  }
}
