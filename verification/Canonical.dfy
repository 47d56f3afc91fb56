// The canonical order of a manifest
// (internal/generator/rpcbinding/binding.go, canonicalizeManifest).
module Canonical {
  import opened Text
  import opened Bindings

  // Servers are ordered by package and then service, clients by name.
  datatype Side = Servers | Clients

  function SortKey(side: Side, b: Binding): (string, string) {
    if side.Servers? then (b.package, b.service) else (b.name, "")
  }

  predicate Before(x: (string, string), y: (string, string)) {
    if x.0 != y.0 then Less(x.0, y.0) else Less(x.1, y.1)
  }

  lemma BeforeIsTotal(x: (string, string), y: (string, string))
    ensures x == y || Before(x, y) || Before(y, x)
    ensures !(Before(x, y) && Before(y, x))
    ensures Before(x, y) ==> x != y
  {
    LessIsTotal(x.0, y.0);
    LessIsTotal(x.1, y.1);
  }

  lemma BeforeIsTransitive(x: (string, string), y: (string, string), z: (string, string))
    requires Before(x, y) && Before(y, z)
    ensures Before(x, z)
  {
    LessIsTotal(x.0, y.0);
    if x.0 != y.0 && y.0 != z.0 { LessIsTransitive(x.0, y.0, z.0); LessIsTotal(y.0, z.0); }
    if x.0 == y.0 && y.0 == z.0 { LessIsTransitive(x.1, y.1, z.1); }
  }

  ghost predicate DistinctKeys(side: Side, xs: seq<Binding>) {
    forall i, j :: 0 <= i < j < |xs| ==> SortKey(side, xs[i]) != SortKey(side, xs[j])
  }

  ghost predicate Ordered(side: Side, xs: seq<Binding>) {
    forall i, j :: 0 <= i < j < |xs| ==> !Before(SortKey(side, xs[j]), SortKey(side, xs[i]))
  }

  ghost predicate Strict(side: Side, xs: seq<Binding>) {
    forall i, j :: 0 <= i < j < |xs| ==> Before(SortKey(side, xs[i]), SortKey(side, xs[j]))
  }

  ghost function Elements(xs: seq<Binding>): set<Binding> {
    set b | b in xs
  }

  // ---------------------------------------------------------------------
  // Sorting
  // ---------------------------------------------------------------------

  function Insert(side: Side, b: Binding, xs: seq<Binding>): seq<Binding> {
    if xs == [] then [b]
    else if Before(SortKey(side, b), SortKey(side, xs[0])) then [b] + xs
    else [xs[0]] + Insert(side, b, xs[1..])
  }

  function Sort(side: Side, xs: seq<Binding>): seq<Binding> {
    if xs == [] then [] else Insert(side, xs[0], Sort(side, xs[1..]))
  }

  lemma ElementsCons(b: Binding, xs: seq<Binding>)
    ensures Elements([b] + xs) == {b} + Elements(xs)
  {
  }

  lemma {:induction false} InsertElements(side: Side, b: Binding, xs: seq<Binding>)
    ensures Elements(Insert(side, b, xs)) == Elements(xs) + {b}
    ensures |Insert(side, b, xs)| == |xs| + 1
    decreases |xs|
  {
    hide Before, SortKey;
    if xs != [] {
      assert xs == [xs[0]] + xs[1..];
      InsertElements(side, b, xs[1..]);
      ElementsCons(xs[0], xs[1..]);
      ElementsCons(xs[0], Insert(side, b, xs[1..]));
      ElementsCons(b, xs);
    }
  }

  lemma {:induction false} SortElements(side: Side, xs: seq<Binding>)
    ensures Elements(Sort(side, xs)) == Elements(xs)
    ensures |Sort(side, xs)| == |xs|
    decreases |xs|
  {
    hide Insert;
    if xs != [] {
      assert xs == [xs[0]] + xs[1..];
      SortElements(side, xs[1..]);
      InsertElements(side, xs[0], Sort(side, xs[1..]));
    }
  }

  lemma {:induction false} InsertStrict(side: Side, b: Binding, xs: seq<Binding>)
    requires Strict(side, xs)
    requires forall x :: x in xs ==> SortKey(side, x) != SortKey(side, b)
    ensures Strict(side, Insert(side, b, xs))
    decreases |xs|
  {
    hide Before, SortKey;
    if xs != [] {
      BeforeIsTotal(SortKey(side, b), SortKey(side, xs[0]));
      if Before(SortKey(side, b), SortKey(side, xs[0])) {
        StrictCons(side, b, xs);
      } else {
        assert Strict(side, xs[1..]);
        InsertStrict(side, b, xs[1..]);
        InsertElements(side, b, xs[1..]);
        var rest := Insert(side, b, xs[1..]);
        if rest != [] {
          assert rest[0] in Elements(rest);
          assert forall x :: x in xs[1..] ==> Before(SortKey(side, xs[0]), SortKey(side, x));
        }
        StrictCons(side, xs[0], rest);
      }
    }
  }

  lemma StrictCons(side: Side, b: Binding, xs: seq<Binding>)
    requires Strict(side, xs) && (xs != [] ==> Before(SortKey(side, b), SortKey(side, xs[0])))
    ensures Strict(side, [b] + xs)
  {
    hide Before, SortKey;
    var ys := [b] + xs;
    forall i, j | 0 <= i < j < |ys| ensures Before(SortKey(side, ys[i]), SortKey(side, ys[j])) {
      if i == 0 {
        if j > 1 { BeforeIsTransitive(SortKey(side, b), SortKey(side, xs[0]), SortKey(side, xs[j - 1])); }
      } else {
        assert ys[i] == xs[i - 1] && ys[j] == xs[j - 1];
      }
    }
  }

  lemma {:induction false} SortStrict(side: Side, xs: seq<Binding>)
    requires DistinctKeys(side, xs)
    ensures Strict(side, Sort(side, xs))
    decreases |xs|
  {
    hide Insert, SortKey;
    if xs != [] {
      var rest := xs[1..];
      SortStrict(side, rest);
      SortElements(side, rest);
      forall x | x in Sort(side, rest) ensures SortKey(side, x) != SortKey(side, xs[0]) {
        assert x in Elements(Sort(side, rest));
        var i :| 0 <= i < |rest| && rest[i] == x;
        assert xs[i + 1] == x;
      }
      InsertStrict(side, xs[0], Sort(side, rest));
    }
  }

  // ---------------------------------------------------------------------
  // A strictly ordered list is determined by its elements
  // ---------------------------------------------------------------------

  lemma StrictHeads(side: Side, xs: seq<Binding>, ys: seq<Binding>)
    requires Strict(side, xs) && Strict(side, ys) && xs != [] && ys != []
    requires xs[0] in ys && ys[0] in xs
    ensures xs[0] == ys[0]
  {
    hide Before, SortKey;
    var i :| 0 <= i < |ys| && ys[i] == xs[0];
    var j :| 0 <= j < |xs| && xs[j] == ys[0];
    BeforeIsTotal(SortKey(side, xs[0]), SortKey(side, ys[0]));
  }

  lemma StrictTail(side: Side, xs: seq<Binding>)
    requires Strict(side, xs) && xs != []
    ensures Strict(side, xs[1..]) && Elements(xs[1..]) == Elements(xs) - {xs[0]}
  {
    hide Before, SortKey;
    assert xs == [xs[0]] + xs[1..];
    forall j | 0 < j < |xs| ensures xs[j] != xs[0] {
      BeforeIsTotal(SortKey(side, xs[0]), SortKey(side, xs[j]));
    }
  }

  lemma SameEmptiness(xs: seq<Binding>, ys: seq<Binding>)
    requires Elements(xs) == Elements(ys)
    ensures xs == [] <==> ys == []
  {
    if xs != [] { assert xs[0] in Elements(ys); }
    if ys != [] { assert ys[0] in Elements(xs); }
  }

  lemma {:induction false} StrictIsUnique(side: Side, xs: seq<Binding>, ys: seq<Binding>)
    requires Strict(side, xs) && Strict(side, ys) && Elements(xs) == Elements(ys)
    ensures xs == ys
    decreases |xs|
  {
    hide Strict;
    SameEmptiness(xs, ys);
    if xs != [] {
      assert xs[0] in Elements(ys);
      assert ys[0] in Elements(xs);
      StrictHeads(side, xs, ys);
      StrictTail(side, xs);
      StrictTail(side, ys);
      StrictIsUnique(side, xs[1..], ys[1..]);
      assert xs == [xs[0]] + xs[1..] && ys == [ys[0]] + ys[1..];
    }
  }

  lemma SortedIsFixed(side: Side, xs: seq<Binding>)
    requires Strict(side, xs)
    ensures Sort(side, xs) == xs
  {
    hide SortKey, Before;
    forall i, j | 0 <= i < j < |xs| ensures SortKey(side, xs[i]) != SortKey(side, xs[j]) {
      BeforeIsTotal(SortKey(side, xs[i]), SortKey(side, xs[j]));
    }
    SortStrict(side, xs);
    SortElements(side, xs);
    StrictIsUnique(side, xs, Sort(side, xs));
  }

  // Whatever sorting algorithm is used: an ordered permutation of a list with
  // distinct keys is the canonical list.
  lemma AnySortIsCanonical(side: Side, xs: seq<Binding>, ys: seq<Binding>)
    requires DistinctKeys(side, xs) && multiset(xs) == multiset(ys) && Ordered(side, ys)
    ensures ys == Sort(side, xs)
  {
    hide SortKey, Before, Sort;
    forall b ensures b in Elements(xs) <==> b in Elements(ys) {
      assert b in multiset(xs) <==> b in xs;
      assert b in multiset(ys) <==> b in ys;
    }
    forall i, j | 0 <= i < j < |ys| ensures Before(SortKey(side, ys[i]), SortKey(side, ys[j])) {
      KeysStayDistinct(side, xs, ys, i, j);
      BeforeIsTotal(SortKey(side, ys[i]), SortKey(side, ys[j]));
    }
    SortStrict(side, xs);
    SortElements(side, xs);
    StrictIsUnique(side, ys, Sort(side, xs));
  }

  lemma KeysStayDistinct(side: Side, xs: seq<Binding>, ys: seq<Binding>, i: nat, j: nat)
    requires DistinctKeys(side, xs) && multiset(xs) == multiset(ys) && i < j < |ys|
    ensures SortKey(side, ys[i]) != SortKey(side, ys[j])
  {
    hide SortKey;
    assert ys[i] in multiset(ys) && ys[j] in multiset(ys);
    var p :| 0 <= p < |xs| && xs[p] == ys[i];
    var q :| 0 <= q < |xs| && xs[q] == ys[j];
    Repeats(ys, i, j);
    CountedOnce(side, xs, ys[i]);
  }

  lemma Repeats(ys: seq<Binding>, i: nat, j: nat)
    requires i < j < |ys|
    ensures ys[i] == ys[j] ==> multiset(ys)[ys[i]] >= 2
  {
    assert ys == ys[..i] + [ys[i]] + ys[i + 1..j] + [ys[j]] + ys[j + 1..];
  }

  lemma {:induction false} CountedOnce(side: Side, xs: seq<Binding>, b: Binding)
    requires DistinctKeys(side, xs)
    ensures multiset(xs)[b] <= 1
    decreases |xs|
  {
    hide SortKey;
    if xs != [] {
      assert xs == [xs[0]] + xs[1..];
      CountedOnce(side, xs[1..], b);
      assert xs[0] !in xs[1..];
    }
  }

  // ---------------------------------------------------------------------
  // Canonical manifests
  // ---------------------------------------------------------------------

  function Canonicalize(m: Manifest): Manifest {
    Manifest(Sort(Servers, m.servers), Sort(Clients, m.clients))
  }

  ghost predicate IsCanonical(m: Manifest) {
    Strict(Servers, m.servers) && Strict(Clients, m.clients)
  }

  ghost predicate SameBindings(m: Manifest, n: Manifest) {
    Elements(m.servers) == Elements(n.servers) && Elements(m.clients) == Elements(n.clients)
  }

  lemma ValidHasDistinctKeys(m: Manifest)
    ensures ValidServers(m.servers) ==> DistinctKeys(Servers, m.servers)
    ensures ValidClients(m.clients) ==> DistinctKeys(Clients, m.clients)
  {
    hide ServerOk, ClientOk;
    assert forall b: Binding, c: Binding :: b.package == c.package && b.service == c.service ==> Key(b) == Key(c);
  }

  lemma ServersAgreeIsSymmetric(b: Binding, c: Binding)
    ensures ServersAgree(b, c) <==> ServersAgree(c, b)
  {
  }

  lemma ServerValidityForgetsOrder(xs: seq<Binding>, ys: seq<Binding>)
    requires ValidServers(xs) && Elements(ys) <= Elements(xs) && DistinctKeys(Servers, ys)
    ensures ValidServers(ys)
  {
    hide ServerOk, ServersAgree;
    forall i | 0 <= i < |ys| ensures ServerOk(ys[i]) {
      assert ys[i] in Elements(xs);
    }
    forall i, j | 0 <= i < j < |ys| ensures ServersAgree(ys[i], ys[j]) {
      assert ys[i] in Elements(ys) && ys[j] in Elements(ys);
      var p :| 0 <= p < |xs| && xs[p] == ys[i];
      var q :| 0 <= q < |xs| && xs[q] == ys[j];
      ServersAgreeIsSymmetric(ys[i], ys[j]);
    }
  }

  lemma ClientValidityForgetsOrder(xs: seq<Binding>, ys: seq<Binding>)
    requires ValidClients(xs) && Elements(ys) <= Elements(xs) && DistinctKeys(Clients, ys)
    ensures ValidClients(ys)
  {
    hide ClientOk;
    forall i | 0 <= i < |ys| ensures ClientOk(ys[i]) {
      assert ys[i] in Elements(xs);
    }
    forall i, j | 0 <= i < j < |ys| ensures ClientsAgree(ys[i], ys[j]) {
      assert ys[i] in Elements(ys) && ys[j] in Elements(ys);
      var p :| 0 <= p < |xs| && xs[p] == ys[i];
      var q :| 0 <= q < |xs| && xs[q] == ys[j];
    }
  }

  // Canonical order keeps the bindings, the validity, and is reached in one step.
  lemma CanonicalizeIsSound(m: Manifest)
    requires DistinctKeys(Servers, m.servers) && DistinctKeys(Clients, m.clients)
    ensures IsCanonical(Canonicalize(m)) && SameBindings(Canonicalize(m), m)
    ensures Valid(Canonicalize(m)) <==> Valid(m)
    ensures Canonicalize(Canonicalize(m)) == Canonicalize(m)
  {
    hide ValidServers, ValidClients, Strict, DistinctKeys, Sort, Elements;
    var c := Canonicalize(m);
    SortStrict(Servers, m.servers);
    SortStrict(Clients, m.clients);
    SortElements(Servers, m.servers);
    SortElements(Clients, m.clients);
    StrictIsDistinct(Servers, c.servers);
    StrictIsDistinct(Clients, c.clients);
    if Valid(m) {
      ServerValidityForgetsOrder(m.servers, c.servers);
      ClientValidityForgetsOrder(m.clients, c.clients);
    }
    if Valid(c) {
      ServerValidityForgetsOrder(c.servers, m.servers);
      ClientValidityForgetsOrder(c.clients, m.clients);
    }
    SortedIsFixed(Servers, c.servers);
    SortedIsFixed(Clients, c.clients);
  }

  lemma StrictIsDistinct(side: Side, xs: seq<Binding>)
    requires Strict(side, xs)
    ensures DistinctKeys(side, xs)
  {
    hide SortKey, Before;
    forall i, j | 0 <= i < j < |xs| ensures SortKey(side, xs[i]) != SortKey(side, xs[j]) {
      BeforeIsTotal(SortKey(side, xs[i]), SortKey(side, xs[j]));
    }
  }

  // Two canonical manifests with the same bindings are the same manifest.
  lemma CanonicalFormIsUnique(m: Manifest, n: Manifest)
    requires IsCanonical(m) && IsCanonical(n) && SameBindings(m, n)
    ensures m == n
  {
    hide Strict, Elements;
    StrictIsUnique(Servers, m.servers, n.servers);
    StrictIsUnique(Clients, m.clients, n.clients);
  }
}
