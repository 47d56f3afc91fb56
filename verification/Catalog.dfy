// Business errors and their catalog (errors): construction with safe
// defaults, the two-index catalog, merging, and the conversion of downstream
// response codes.
module Catalog {
  import opened Text

  const CODE_INTERNAL: int := 90001
  const CODE_MAX: int := 0x7FFF_FFFF
  const MESSAGE_INTERNAL: string := "internal server error"
  const STATUS_INTERNAL: int := 500

  // ---------------------------------------------------------------------
  // Errors
  // ---------------------------------------------------------------------

  datatype Error = Error(code: int, message: string, httpStatus: int)

  const INTERNAL: Error := Error(CODE_INTERNAL, MESSAGE_INTERNAL, STATUS_INTERNAL)

  predicate Presentable(e: Error) {
    0 < e.code <= CODE_MAX && e.message != "" && 400 <= e.httpStatus <= 599
  }

  function Normalize(e: Error): Error {
    if Presentable(e) then e else INTERNAL
  }

  // The options of New are HTTP statuses, applied in order.
  function ApplyStatuses(e: Error, statuses: seq<int>): Error
    decreases |statuses|
  {
    if statuses == [] then e else ApplyStatuses(e.(httpStatus := statuses[0]), statuses[1..])
  }

  function New(code: int, message: string, statuses: seq<int>): Error {
    Normalize(ApplyStatuses(Error(code, Trim(message), STATUS_INTERNAL), statuses))
  }

  // An error value as errors.As walks it: the chain from outermost to
  // innermost. A service error pointer may be nil.
  datatype Link = Foreign(text: string) | Service(error: Error) | NilService

  function PublicValues(chain: seq<Link>): Error {
    if chain == [] then INTERNAL
    else match chain[0]
      case Foreign(_) => PublicValues(chain[1..])
      case Service(e) => e
      case NilService => INTERNAL
  }

  lemma {:induction false} ApplyStatusesKeeps(e: Error, statuses: seq<int>)
    ensures ApplyStatuses(e, statuses).code == e.code && ApplyStatuses(e, statuses).message == e.message
    decreases |statuses|
  {
    if statuses != [] { ApplyStatusesKeeps(e.(httpStatus := statuses[0]), statuses[1..]); }
  }

  // Everything New builds is presentable and has a trimmed message.
  lemma NewIsPresentable(code: int, message: string, statuses: seq<int>)
    ensures Presentable(New(code, message, statuses)) && Trimmed(New(code, message, statuses).message)
  {
    hide Trim, ApplyStatuses, IsSpace;
    ApplyStatusesKeeps(Error(code, Trim(message), STATUS_INTERNAL), statuses);
    LiteralsAreTrimmed();
  }

  lemma LiteralsAreTrimmed()
    ensures Trimmed(MESSAGE_INTERNAL)
  {
  }

  // The last status option wins, 500 without any.
  lemma {:induction false} LastStatusWins(e: Error, statuses: seq<int>)
    ensures ApplyStatuses(e, statuses) ==
              if statuses == [] then e else e.(httpStatus := statuses[|statuses| - 1])
    decreases |statuses|
  {
    if statuses != [] { LastStatusWins(e.(httpStatus := statuses[0]), statuses[1..]); }
  }

  // New builds what it is asked for when that can be presented, and the
  // internal error exactly otherwise.
  lemma NewExactly(code: int, message: string, statuses: seq<int>)
    ensures
      var status := if statuses == [] then STATUS_INTERNAL else statuses[|statuses| - 1];
      New(code, message, statuses) ==
        if 0 < code <= CODE_MAX && Trim(message) != "" && 400 <= status <= 599
        then Error(code, Trim(message), status)
        else INTERNAL
  {
    hide Trim, ApplyStatuses;
    LastStatusWins(Error(code, Trim(message), STATUS_INTERNAL), statuses);
  }

  // The first link of the chain that is a service error, nil or not.
  ghost predicate FirstService(chain: seq<Link>, i: nat) {
    i < |chain| && !chain[i].Foreign? && forall k :: 0 <= k < i ==> chain[k].Foreign?
  }

  // The public values are those of the first service error of the chain; the
  // internal triple when that one is nil or there is none.
  lemma {:induction false} PublicValuesExactly(chain: seq<Link>)
    ensures forall i: nat :: FirstService(chain, i) ==>
              PublicValues(chain) == if chain[i].Service? then chain[i].error else INTERNAL
    ensures (forall k :: 0 <= k < |chain| ==> chain[k].Foreign?) ==> PublicValues(chain) == INTERNAL
    decreases |chain|
  {
    if chain != [] && chain[0].Foreign? {
      PublicValuesExactly(chain[1..]);
      forall i: nat | FirstService(chain, i) ensures i > 0 && FirstService(chain[1..], i - 1) {}
    }
  }

  // Whatever is wrapped around what, the public values are presentable, and
  // they never come from the text of a foreign error.
  lemma {:induction false} PublicValuesArePresentable(chain: seq<Link>)
    requires forall i :: 0 <= i < |chain| && chain[i].Service? ==> Presentable(chain[i].error)
    ensures Presentable(PublicValues(chain))
    ensures PublicValues(chain) == INTERNAL || Service(PublicValues(chain)) in chain
    decreases |chain|
  {
    if chain != [] && chain[0].Foreign? { PublicValuesArePresentable(chain[1..]); }
  }

  // ---------------------------------------------------------------------
  // Definitions and catalogs
  // ---------------------------------------------------------------------

  datatype Definition = Definition(code: int, name: string, message: string, httpStatus: int)

  function Define(code: int, name: string, message: string, httpStatus: int): Definition {
    Definition(code, Trim(name), Trim(message), httpStatus)
  }

  predicate Proper(d: Definition) {
    0 < d.code <= CODE_MAX && d.name != "" && d.message != "" && 400 <= d.httpStatus <= 599
  }

  datatype Catalog = Nil | Table(byCode: map<int, Definition>, byName: map<string, Definition>)

  datatype Result<T> = Ok(value: T) | Err

  const EMPTY: Catalog := Table(map[], map[])

  // The two indexes hold the same proper definitions, each under its own key.
  ghost predicate Consistent(c: Catalog) {
    c.Table? ==>
      && (forall k :: k in c.byCode ==>
            var d := c.byCode[k];
            Proper(d) && d.code == k && d.name in c.byName && c.byName[d.name] == d)
      && (forall n :: n in c.byName ==>
            var d := c.byName[n];
            d.name == n && d.code in c.byCode && c.byCode[d.code] == d)
  }

  // What NewCatalog accepts.
  ghost predicate Acceptable(ds: seq<Definition>) {
    && (forall i :: 0 <= i < |ds| ==> Proper(ds[i]))
    && (forall i, j :: 0 <= i < j < |ds| ==> ds[i].code != ds[j].code && ds[i].name != ds[j].name)
  }

  function ByCode(ds: seq<Definition>): map<int, Definition> {
    if ds == [] then map[] else ByCode(ds[..|ds| - 1])[ds[|ds| - 1].code := ds[|ds| - 1]]
  }

  function ByName(ds: seq<Definition>): map<string, Definition> {
    if ds == [] then map[] else ByName(ds[..|ds| - 1])[ds[|ds| - 1].name := ds[|ds| - 1]]
  }

  function TableOf(ds: seq<Definition>): Catalog {
    Table(ByCode(ds), ByName(ds))
  }

  lemma LastIsNew(ds: seq<Definition>)
    requires Acceptable(ds) && ds != []
    ensures Acceptable(ds[..|ds| - 1])
    ensures forall d :: d in ds[..|ds| - 1] ==> d.code != ds[|ds| - 1].code && d.name != ds[|ds| - 1].name
  {
    hide Proper;
    var before, last := ds[..|ds| - 1], ds[|ds| - 1];
    forall d | d in before ensures d.code != last.code && d.name != last.name {
      var i :| 0 <= i < |before| && before[i] == d;
      assert ds[i] == d;
    }
  }

  lemma {:induction false} CodesHold(ds: seq<Definition>)
    requires Acceptable(ds)
    ensures forall k :: k in ByCode(ds) ==> ByCode(ds)[k] in ds && ByCode(ds)[k].code == k
    ensures forall d :: d in ds ==> d.code in ByCode(ds) && ByCode(ds)[d.code] == d
    decreases |ds|
  {
    if ds != [] {
      var before, last := ds[..|ds| - 1], ds[|ds| - 1];
      var table, longer := ByCode(before), ByCode(ds);
      assert longer == table[last.code := last];
      hide ByCode, Acceptable;
      LastIsNew(ds);
      CodesHold(before);
      assert ds == before + [last];
      forall k | k in longer ensures longer[k] in ds && longer[k].code == k {
        if k != last.code { assert table[k] in before; }
      }
    }
  }

  lemma {:induction false} NamesHold(ds: seq<Definition>)
    requires Acceptable(ds)
    ensures forall k :: k in ByName(ds) ==> ByName(ds)[k] in ds && ByName(ds)[k].name == k
    ensures forall d :: d in ds ==> d.name in ByName(ds) && ByName(ds)[d.name] == d
    decreases |ds|
  {
    if ds != [] {
      var before, last := ds[..|ds| - 1], ds[|ds| - 1];
      var table, longer := ByName(before), ByName(ds);
      assert longer == table[last.name := last];
      hide ByName, Acceptable;
      LastIsNew(ds);
      NamesHold(before);
      assert ds == before + [last];
      forall k | k in longer ensures longer[k] in ds && longer[k].name == k {
        if k != last.name { assert table[k] in before; }
      }
    }
  }

  lemma TableHolds(ds: seq<Definition>)
    requires Acceptable(ds)
    ensures forall k :: k in ByCode(ds) ==> ByCode(ds)[k] in ds && ByCode(ds)[k].code == k
    ensures forall n :: n in ByName(ds) ==> ByName(ds)[n] in ds && ByName(ds)[n].name == n
    ensures forall d :: d in ds ==> d.code in ByCode(ds) && ByCode(ds)[d.code] == d
    ensures forall d :: d in ds ==> d.name in ByName(ds) && ByName(ds)[d.name] == d
  {
    hide ByCode, ByName, Acceptable;
    CodesHold(ds);
    NamesHold(ds);
  }

  lemma TableIsConsistent(ds: seq<Definition>)
    requires Acceptable(ds)
    ensures Consistent(TableOf(ds))
  {
    TableHolds(ds);
  }

  method NewCatalog(ds: seq<Definition>) returns (r: Result<Catalog>)
    ensures r.Ok? <==> Acceptable(ds)
    ensures r.Ok? ==> r.value == TableOf(ds) && Consistent(r.value)
  {
    hide Acceptable, ByCode, ByName, Proper;
    var byCode: map<int, Definition>, byName: map<string, Definition> := map[], map[];
    EmptyTable();
    for i := 0 to |ds|
      invariant Acceptable(ds[..i])
      invariant byCode == ByCode(ds[..i]) && byName == ByName(ds[..i])
    {
      var d := ds[i];
      NextDefinition(ds[..i], d);
      assert ds[..i + 1] == ds[..i] + [d];
      PrefixAcceptable(ds, i + 1);
      if !Proper(d) { return Err; }
      if d.code in byCode { return Err; }
      if d.name in byName { return Err; }
      byCode, byName := byCode[d.code := d], byName[d.name := d];
    }
    assert ds[..|ds|] == ds;
    TableIsConsistent(ds);
    r := Ok(Table(byCode, byName));
  }

  lemma EmptyTable()
    ensures Acceptable([]) && ByCode([]) == map[] && ByName([]) == map[]
  {
  }

  lemma PrefixAcceptable(ds: seq<Definition>, n: nat)
    requires n <= |ds|
    ensures Acceptable(ds) ==> Acceptable(ds[..n])
  {
  }

  lemma NextDefinition(ds: seq<Definition>, d: Definition)
    requires Acceptable(ds)
    ensures Acceptable(ds + [d]) <==> Proper(d) && d.code !in ByCode(ds) && d.name !in ByName(ds)
    ensures ByCode(ds + [d]) == ByCode(ds)[d.code := d] && ByName(ds + [d]) == ByName(ds)[d.name := d]
  {
    hide Acceptable, Proper, ByCode, ByName;
    NextEntries(ds, d);
    OneMoreAcceptable(ds, d);
    TableHolds(ds);
    if d.code in ByCode(ds) { var i := CodeIndex(ds, d.code); }
    if d.name in ByName(ds) { var i := NameIndex(ds, d.name); }
    forall i | 0 <= i < |ds| ensures ds[i].code in ByCode(ds) && ds[i].name in ByName(ds) { assert ds[i] in ds; }
  }

  lemma NextEntries(ds: seq<Definition>, d: Definition)
    ensures ByCode(ds + [d]) == ByCode(ds)[d.code := d] && ByName(ds + [d]) == ByName(ds)[d.name := d]
  {
    var longer := ds + [d];
    assert longer[..|ds|] == ds && longer[|ds|] == d;
  }

  lemma OneMoreAcceptable(ds: seq<Definition>, d: Definition)
    requires Acceptable(ds)
    ensures Acceptable(ds + [d]) <==>
              Proper(d) && forall i :: 0 <= i < |ds| ==> ds[i].code != d.code && ds[i].name != d.name
  {
    hide Proper;
    var longer := ds + [d];
    if Acceptable(longer) {
      assert Proper(longer[|ds|]);
      forall i | 0 <= i < |ds| ensures ds[i].code != d.code && ds[i].name != d.name {
        assert longer[i].code != longer[|ds|].code && longer[i].name != longer[|ds|].name;
      }
    }
  }

  lemma CodeIndex(ds: seq<Definition>, code: int) returns (i: nat)
    requires Acceptable(ds) && code in ByCode(ds)
    ensures i < |ds| && ds[i].code == code
  {
    TableHolds(ds);
    i :| 0 <= i < |ds| && ds[i] == ByCode(ds)[code];
  }

  lemma NameIndex(ds: seq<Definition>, name: string) returns (i: nat)
    requires Acceptable(ds) && name in ByName(ds)
    ensures i < |ds| && ds[i].name == name
  {
    TableHolds(ds);
    i :| 0 <= i < |ds| && ds[i] == ByName(ds)[name];
  }

  // ---------------------------------------------------------------------
  // Listing a catalog
  // ---------------------------------------------------------------------

  ghost predicate Ascending(ds: seq<Definition>) {
    forall i, j :: 0 <= i < j < |ds| ==> ds[i].code < ds[j].code
  }

  // ds lists exactly the definitions of c, by increasing code.
  ghost predicate Lists(ds: seq<Definition>, c: Catalog) {
    && Ascending(ds)
    && (forall d :: d in ds <==> c.Table? && d.code in c.byCode && c.byCode[d.code] == d)
  }

  method Definitions(c: Catalog) returns (ds: seq<Definition>)
    requires Consistent(c)
    ensures Lists(ds, c)
  {
    ds := [];
    if c.Nil? { return; }
    var todo := c.byCode.Keys;
    while todo != {}
      invariant todo <= c.byCode.Keys
      invariant Ascending(ds)
      invariant forall d :: d in ds <==> d.code in c.byCode && d.code !in todo && c.byCode[d.code] == d
      decreases |todo|
    {
      ghost var some := Member(todo);
      var k :| k in todo;
      var d := c.byCode[k];
      var at := 0;
      while at < |ds| && ds[at].code < d.code
        invariant 0 <= at <= |ds|
        invariant forall i :: 0 <= i < at ==> ds[i].code < d.code
      {
        at := at + 1;
      }
      Insert(ds, at, d);
      ds := ds[..at] + [d] + ds[at..];
      todo := todo - {k};
    }
  }

  lemma Member<T>(s: set<T>) returns (x: T)
    requires s != {}
    ensures x in s
  {
    x :| x in s;
  }

  lemma Insert(ds: seq<Definition>, at: nat, d: Definition)
    requires at <= |ds| && Ascending(ds) && (forall x :: x in ds ==> x.code != d.code)
    requires forall i :: 0 <= i < at ==> ds[i].code < d.code
    requires at < |ds| ==> ds[at].code >= d.code
    ensures Ascending(ds[..at] + [d] + ds[at..])
    ensures forall x :: x in ds[..at] + [d] + ds[at..] <==> x in ds || x == d
  {
    Inserted(ds, at, d);
    var more := ds[..at] + [d] + ds[at..];
    forall i | at <= i < |ds| ensures ds[i].code > d.code {
      assert ds[i] in ds;
      assert i > at ==> ds[at].code < ds[i].code;
    }
    forall i, j | 0 <= i < j < |more| ensures more[i].code < more[j].code {
      assert more[i] == if i < at then ds[i] else if i == at then d else ds[i - 1];
      assert more[j] == if j < at then ds[j] else if j == at then d else ds[j - 1];
    }
  }

  lemma Inserted<T>(xs: seq<T>, at: nat, x: T)
    requires at <= |xs|
    ensures forall y :: y in xs[..at] + [x] + xs[at..] <==> y in xs || y == x
  {
    assert xs == xs[..at] + xs[at..];
  }

  lemma HeadIsMember(ds: seq<Definition>)
    requires ds != []
    ensures ds[0] in ds
  {
  }

  // A catalog has only one listing.
  lemma {:induction false} ListingIsUnique(ds: seq<Definition>, es: seq<Definition>)
    requires Ascending(ds) && Ascending(es) && (forall d :: d in ds <==> d in es)
    ensures ds == es
    decreases |ds|
  {
    if ds == [] {
      if es != [] { HeadIsMember(es); }
    } else {
      assert ds[0] in es && es[0] in ds;
      assert ds[0] == es[0];
      forall d ensures d in ds[1..] <==> d in es[1..] {
        TailMembers(ds, d);
        TailMembers(es, d);
      }
      ListingIsUnique(ds[1..], es[1..]);
    }
  }

  lemma TailMembers(ds: seq<Definition>, d: Definition)
    requires Ascending(ds) && ds != []
    ensures d in ds[1..] <==> d in ds && d != ds[0]
  {
    assert ds == [ds[0]] + ds[1..];
  }

  lemma ListingIsAcceptable(ds: seq<Definition>, c: Catalog)
    requires Consistent(c) && Lists(ds, c)
    ensures Acceptable(ds)
  {
    forall i | 0 <= i < |ds| ensures Proper(ds[i]) && c.Table? && c.byName[ds[i].name] == ds[i] {
      assert ds[i] in ds;
    }
  }

  // Rebuilding a catalog from its listing gives the catalog again.
  lemma RebuildIsIdentity(ds: seq<Definition>, c: Catalog)
    requires Consistent(c) && Lists(ds, c) && c.Table?
    ensures Acceptable(ds) && TableOf(ds) == c
  {
    ListingIsAcceptable(ds, c);
    TableHolds(ds);
    forall k | k in c.byCode ensures k in ByCode(ds) && ByCode(ds)[k] == c.byCode[k] { assert c.byCode[k] in ds; }
    forall n | n in c.byName ensures n in ByName(ds) && ByName(ds)[n] == c.byName[n] { assert c.byName[n] in ds; }
    forall k | k in ByCode(ds) ensures k in c.byCode { assert ByCode(ds)[k] in ds; }
    forall n | n in ByName(ds) ensures n in c.byName { assert ByName(ds)[n] in ds; }
    assert ByCode(ds) == c.byCode;
    assert ByName(ds) == c.byName;
  }

  // ---------------------------------------------------------------------
  // Merging
  // ---------------------------------------------------------------------

  function Codes(c: Catalog): map<int, Definition> {
    if c.Nil? then map[] else c.byCode
  }

  function Names(c: Catalog): map<string, Definition> {
    if c.Nil? then map[] else c.byName
  }

  ghost predicate Disjoint(a: Catalog, b: Catalog) {
    Codes(a).Keys !! Codes(b).Keys && Names(a).Keys !! Names(b).Keys
  }

  ghost predicate PairwiseDisjoint(cs: seq<Catalog>) {
    forall i, j :: 0 <= i < j < |cs| ==> Disjoint(cs[i], cs[j])
  }

  function UnionCodes(cs: seq<Catalog>): map<int, Definition> {
    if cs == [] then map[] else UnionCodes(cs[..|cs| - 1]) + Codes(cs[|cs| - 1])
  }

  function UnionNames(cs: seq<Catalog>): map<string, Definition> {
    if cs == [] then map[] else UnionNames(cs[..|cs| - 1]) + Names(cs[|cs| - 1])
  }

  // The meaning of a merge: refused unless all codes and names are pairwise
  // disjoint, and otherwise the union of both indexes.
  ghost function Merged(cs: seq<Catalog>): Result<Catalog> {
    if PairwiseDisjoint(cs) then Ok(Table(UnionCodes(cs), UnionNames(cs))) else Err
  }

  method MergeCatalogs(cs: seq<Catalog>) returns (r: Result<Catalog>)
    requires forall i :: 0 <= i < |cs| ==> Consistent(cs[i])
    ensures r == Merged(cs)
    ensures r.Ok? ==> Consistent(r.value)
  {
    var ds: seq<Definition> := [];
    for i := 0 to |cs|
      invariant Gathered(ds, cs[..i])
    {
      var listed := Definitions(cs[i]);
      assert cs[..i + 1] == cs[..i] + [cs[i]];
      Gather(ds, listed, cs[..i], cs[i]);
      ds := ds + listed;
    }
    assert cs[..|cs|] == cs;
    r := NewCatalog(ds);
  }

  // The gathered definitions are acceptable exactly when the catalogs are
  // pairwise disjoint, and then their table is the union.
  ghost predicate Gathered(ds: seq<Definition>, cs: seq<Catalog>) {
    && (Acceptable(ds) <==> PairwiseDisjoint(cs))
    && (Acceptable(ds) ==> ByCode(ds) == UnionCodes(cs) && ByName(ds) == UnionNames(cs))
  }

  lemma Gather(ds: seq<Definition>, more: seq<Definition>, cs: seq<Catalog>, c: Catalog)
    requires Gathered(ds, cs) && Consistent(c) && Lists(more, c)
    ensures Gathered(ds + more, cs + [c])
  {
    ListingIsAcceptable(more, c);
    assert (cs + [c])[..|cs|] == cs;
    SnocDisjoint(cs, c);
    AppendAcceptable(ds, more);
    if Acceptable(ds) {
      TableHolds(ds);
      ListedTable(more, c);
      UnionDisjoint(cs, c);
      TableHolds(more);
      AcrossDisjoint(ds, more);
      if Acceptable(ds + more) { AppendTable(ds, more); }
    }
  }

  ghost predicate Across(ds: seq<Definition>, es: seq<Definition>) {
    forall i, j :: 0 <= i < |ds| && 0 <= j < |es| ==> ds[i].code != es[j].code && ds[i].name != es[j].name
  }

  lemma AppendAcceptable(ds: seq<Definition>, es: seq<Definition>)
    requires Acceptable(es)
    ensures Acceptable(ds + es) <==> Acceptable(ds) && Across(ds, es)
  {
    var both := ds + es;
    if Acceptable(both) {
      forall i | 0 <= i < |ds| ensures ds[i] == both[i] {}
      forall i, j | 0 <= i < |ds| && 0 <= j < |es|
        ensures ds[i].code != es[j].code && ds[i].name != es[j].name
      {
        assert both[i] == ds[i] && both[|ds| + j] == es[j];
      }
    }
  }

  lemma AcrossDisjoint(ds: seq<Definition>, es: seq<Definition>)
    requires Acceptable(ds) && Acceptable(es)
    ensures Across(ds, es) <==> ByCode(ds).Keys !! ByCode(es).Keys && ByName(ds).Keys !! ByName(es).Keys
  {
    TableHolds(ds);
    TableHolds(es);
    if Across(ds, es) {
      forall k | k in ByCode(ds) ensures k !in ByCode(es) {
        var i := CodeIndex(ds, k);
        if k in ByCode(es) { var j := CodeIndex(es, k); }
      }
      forall n | n in ByName(ds) ensures n !in ByName(es) {
        var i := NameIndex(ds, n);
        if n in ByName(es) { var j := NameIndex(es, n); }
      }
    } else {
      var i, j :| 0 <= i < |ds| && 0 <= j < |es| && (ds[i].code == es[j].code || ds[i].name == es[j].name);
      assert ds[i] in ds && es[j] in es;
    }
  }

  lemma {:induction false} AppendTable(ds: seq<Definition>, es: seq<Definition>)
    ensures ByCode(ds + es) == ByCode(ds) + ByCode(es)
    ensures ByName(ds + es) == ByName(ds) + ByName(es)
    decreases |es|
  {
    if es == [] {
      assert ds + es == ds;
    } else {
      assert (ds + es)[..|ds + es| - 1] == ds + es[..|es| - 1];
      AppendTable(ds, es[..|es| - 1]);
    }
  }

  lemma ListedTable(ds: seq<Definition>, c: Catalog)
    requires Consistent(c) && Lists(ds, c)
    ensures ByCode(ds) == Codes(c) && ByName(ds) == Names(c)
  {
    if c.Table? {
      RebuildIsIdentity(ds, c);
    } else if ds != [] {
      HeadIsMember(ds);
    }
  }

  lemma SnocDisjoint(cs: seq<Catalog>, c: Catalog)
    ensures PairwiseDisjoint(cs + [c]) <==>
      PairwiseDisjoint(cs) && forall i :: 0 <= i < |cs| ==> Disjoint(cs[i], c)
  {
    var all := cs + [c];
    if PairwiseDisjoint(all) {
      forall i, j | 0 <= i < j < |cs| ensures Disjoint(cs[i], cs[j]) { assert all[i] == cs[i] && all[j] == cs[j]; }
      forall i | 0 <= i < |cs| ensures Disjoint(cs[i], c) { assert all[i] == cs[i] && all[|cs|] == c; }
    }
  }

  lemma {:induction false} UnionDisjoint(cs: seq<Catalog>, c: Catalog)
    ensures (forall i :: 0 <= i < |cs| ==> Disjoint(cs[i], c)) <==>
      UnionCodes(cs).Keys !! Codes(c).Keys && UnionNames(cs).Keys !! Names(c).Keys
    decreases |cs|
  {
    if cs != [] {
      var before, last := cs[..|cs| - 1], cs[|cs| - 1];
      UnionDisjoint(before, c);
      assert (forall i :: 0 <= i < |cs| ==> Disjoint(cs[i], c)) <==>
        (forall i :: 0 <= i < |before| ==> Disjoint(before[i], c)) && Disjoint(last, c);
    }
  }

  // ---------------------------------------------------------------------
  // Merge laws
  // ---------------------------------------------------------------------

  lemma PairwiseTwo(a: Catalog, b: Catalog)
    ensures PairwiseDisjoint([a, b]) <==> Disjoint(a, b)
    ensures UnionCodes([a, b]) == Codes(a) + Codes(b) && UnionNames([a, b]) == Names(a) + Names(b)
  {
    assert [a, b][..1] == [a] && [a][..0] == [];
    assert UnionCodes([a]) == Codes(a) && UnionNames([a]) == Names(a);
    assert PairwiseDisjoint([a, b]) ==> Disjoint([a, b][0], [a, b][1]);
  }

  // Merging is commutative, with the same refusals.
  lemma MergeCommutes(a: Catalog, b: Catalog)
    ensures Merged([a, b]) == Merged([b, a])
  {
    PairwiseTwo(a, b);
    PairwiseTwo(b, a);
    if Disjoint(a, b) {
      assert Codes(a) + Codes(b) == Codes(b) + Codes(a);
      assert Names(a) + Names(b) == Names(b) + Names(a);
    }
  }

  // Merges one catalog into the result of an earlier merge.
  ghost function Then(r: Result<Catalog>, c: Catalog): Result<Catalog> {
    if r.Err? then Err else Merged([r.value, c])
  }

  ghost function Before(c: Catalog, r: Result<Catalog>): Result<Catalog> {
    if r.Err? then Err else Merged([c, r.value])
  }

  // Merging is associative, with the same refusals.
  lemma MergeAssociates(a: Catalog, b: Catalog, c: Catalog)
    ensures Then(Merged([a, b]), c) == Before(a, Merged([b, c]))
  {
    hide PairwiseDisjoint, UnionCodes, UnionNames, Disjoint;
    PairwiseTwo(a, b);
    PairwiseTwo(b, c);
    var ab := Table(Codes(a) + Codes(b), Names(a) + Names(b));
    var bc := Table(Codes(b) + Codes(c), Names(b) + Names(c));
    PairwiseTwo(ab, c);
    PairwiseTwo(a, bc);
    DisjointFromBoth(a, b, c);
    UnionAssociates(Codes(a), Codes(b), Codes(c));
    UnionAssociates(Names(a), Names(b), Names(c));
  }

  lemma UnionAssociates<K, V>(a: map<K, V>, b: map<K, V>, c: map<K, V>)
    ensures (a + b) + c == a + (b + c)
  {
  }

  lemma DisjointFromBoth(a: Catalog, b: Catalog, c: Catalog)
    ensures Disjoint(Table(Codes(a) + Codes(b), Names(a) + Names(b)), c) <==> Disjoint(a, c) && Disjoint(b, c)
    ensures Disjoint(a, Table(Codes(b) + Codes(c), Names(b) + Names(c))) <==> Disjoint(a, b) && Disjoint(a, c)
  {
  }

  // The nil catalog is the identity; merging a catalog with itself is refused
  // unless it is empty.
  lemma MergeIdentity(a: Catalog)
    requires Consistent(a)
    ensures a.Table? ==> Merged([a, Nil]) == Ok(a) && Merged([Nil, a]) == Ok(a) && Merged([a]) == Ok(a)
    ensures Merged([Nil, Nil]) == Ok(EMPTY) && Merged([]) == Ok(EMPTY)
    ensures Merged([a, a]).Ok? <==> Codes(a) == map[]
  {
    hide PairwiseDisjoint, UnionCodes, UnionNames, Disjoint, Consistent;
    PairwiseTwo(a, Nil);
    PairwiseTwo(Nil, a);
    PairwiseTwo(Nil, Nil);
    PairwiseTwo(a, a);
    DisjointFromNil(a);
    DisjointFromNil(Nil);
    MergeFew(a);
    DisjointFromItself(a);
    assert Codes(a) + map[] == Codes(a) && map[] + Codes(a) == Codes(a);
    assert Names(a) + map[] == Names(a) && map[] + Names(a) == Names(a);
  }

  lemma DisjointFromNil(a: Catalog)
    ensures Disjoint(a, Nil) && Disjoint(Nil, a)
  {
  }

  lemma MergeFew(a: Catalog)
    ensures Merged([]) == Ok(EMPTY) && Merged([a]) == Ok(Table(Codes(a), Names(a)))
  {
    assert [a][..0] == [];
    assert map[] + Codes(a) == Codes(a) && map[] + Names(a) == Names(a);
  }

  lemma DisjointFromItself(a: Catalog)
    requires Consistent(a)
    ensures Disjoint(a, a) <==> Codes(a) == map[]
  {
    if a.Table? {
      if Codes(a) == map[] {
        forall n | n in a.byName ensures a.byName[n].code in a.byCode {}
      } else {
        var k := Member(Codes(a).Keys);
        assert k in Codes(a).Keys * Codes(a).Keys;
      }
    }
  }

  // ---------------------------------------------------------------------
  // Lookups and response codes
  // ---------------------------------------------------------------------

  datatype Option<T> = None | Some(value: T)

  function LookupCode(c: Catalog, code: int): Option<Definition> {
    if c.Table? && code in c.byCode then Some(c.byCode[code]) else None
  }

  function LookupName(c: Catalog, name: string): Option<Definition> {
    if c.Table? && Trim(name) in c.byName then Some(c.byName[Trim(name)]) else None
  }

  function HTTPStatus(c: Catalog, code: int): int {
    if LookupCode(c, code).Some? then LookupCode(c, code).value.httpStatus else STATUS_INTERNAL
  }

  function FromCode(c: Catalog, code: int, message: string): Option<Error> {
    if code == 0 then None
    else
      Some(New(code, PublicMessage(c, code, message), [HTTPStatus(c, code)]))
  }

  function PublicMessage(c: Catalog, code: int, message: string): string {
    var known := LookupCode(c, code);
    var chosen := if known.Some? && Trim(message) == "" then known.value.message else message;
    if Trim(chosen) == "" then MESSAGE_INTERNAL else chosen
  }

  // Both lookups find exactly what was defined; by name also with white space
  // around it, as in the definition.
  lemma DefinedIsFound(ds: seq<Definition>, code: int, name: string, message: string, httpStatus: int)
    requires Acceptable(ds)
    ensures
      var d := Define(code, name, message, httpStatus);
      && (d in ds <==> LookupCode(TableOf(ds), code) == Some(d))
      && (d in ds <==> LookupName(TableOf(ds), name) == Some(d))
      && (d in ds <==> LookupName(TableOf(ds), d.name) == Some(d))
  {
    hide Trim, ByCode, ByName, Acceptable;
    TableHolds(ds);
  }

  // A merge finds, by code and by name, exactly what one of its parts finds.
  lemma MergedLookup(cs: seq<Catalog>, code: int, name: string, d: Definition)
    requires Merged(cs).Ok?
    ensures LookupCode(Merged(cs).value, code) == Some(d) <==>
              exists i :: 0 <= i < |cs| && LookupCode(cs[i], code) == Some(d)
    ensures LookupName(Merged(cs).value, name) == Some(d) <==>
              exists i :: 0 <= i < |cs| && LookupName(cs[i], name) == Some(d)
  {
    hide Trim, UnionCodes, UnionNames, PairwiseDisjoint;
    CodeOfPart(cs, code, d);
    NameOfPart(cs, Trim(name), d);
    forall i | 0 <= i < |cs|
      ensures LookupCode(cs[i], code) == Some(d) <==> code in Codes(cs[i]) && Codes(cs[i])[code] == d
      ensures LookupName(cs[i], name) == Some(d) <==> Trim(name) in Names(cs[i]) && Names(cs[i])[Trim(name)] == d
    {
    }
  }

  lemma {:induction false} CodeOfPart(cs: seq<Catalog>, code: int, d: Definition)
    requires PairwiseDisjoint(cs)
    ensures (code in UnionCodes(cs) && UnionCodes(cs)[code] == d) <==>
              exists i :: 0 <= i < |cs| && code in Codes(cs[i]) && Codes(cs[i])[code] == d
    decreases |cs|
  {
    if cs != [] {
      var before, last := cs[..|cs| - 1], cs[|cs| - 1];
      CodeOfPart(before, code, d);
      forall i | 0 <= i < |before| ensures Disjoint(before[i], last) { assert Disjoint(cs[i], cs[|cs| - 1]); }
      assert forall i :: 0 <= i < |before| ==> before[i] == cs[i];
      UnionDisjoint(before, last);
    }
  }

  lemma {:induction false} NameOfPart(cs: seq<Catalog>, name: string, d: Definition)
    requires PairwiseDisjoint(cs)
    ensures (name in UnionNames(cs) && UnionNames(cs)[name] == d) <==>
              exists i :: 0 <= i < |cs| && name in Names(cs[i]) && Names(cs[i])[name] == d
    decreases |cs|
  {
    if cs != [] {
      var before, last := cs[..|cs| - 1], cs[|cs| - 1];
      NameOfPart(before, name, d);
      forall i | 0 <= i < |before| ensures Disjoint(before[i], last) { assert Disjoint(cs[i], cs[|cs| - 1]); }
      assert forall i :: 0 <= i < |before| ==> before[i] == cs[i];
      UnionDisjoint(before, last);
    }
  }

  // The int32 field of a response message.
  function Int32(code: int): int {
    (code + 0x8000_0000) % 0x1_0000_0000 - 0x8000_0000
  }

  function Known(c: Catalog, code: int): int {
    if code in Codes(c) then Codes(c)[code].httpStatus else 500
  }

  // A service error survives the int32 response field: code and message come
  // back, with the status the catalog gives the code, or 500.
  lemma ResponseRoundTrip(c: Catalog, code: int, message: string, statuses: seq<int>)
    requires Consistent(c)
    ensures
      var e := New(code, message, statuses);
      FromCode(c, Int32(e.code), e.message) == Some(Error(e.code, e.message, Known(c, e.code)))
  {
    hide Trim, IsSpace, ApplyStatuses, LookupCode, HTTPStatus, Consistent;
    var e := New(code, message, statuses);
    NewIsPresentable(code, message, statuses);
    assert Int32(e.code) == e.code;
    StatusIsAnError(c, e.code);
    OneStatus(e.code, e.message, HTTPStatus(c, e.code));
  }

  lemma OneStatus(code: int, message: string, status: int)
    ensures New(code, message, [status]) == Normalize(Error(code, Trim(message), status))
  {
    assert ApplyStatuses(Error(code, Trim(message), STATUS_INTERNAL), [status]) ==
      ApplyStatuses(Error(code, Trim(message), status), []);
  }

  lemma StatusIsAnError(c: Catalog, code: int)
    requires Consistent(c)
    ensures 400 <= HTTPStatus(c, code) <= 599 && HTTPStatus(c, code) == Known(c, code)
  {
  }

  // For every int32 code and every message: no error exactly for code 0; a
  // positive code keeps its value and the catalog's status; a negative code
  // becomes the internal error; the status is never below 400.
  lemma FromCodeOnEveryInput(c: Catalog, code: int, message: string)
    requires Consistent(c) && -0x8000_0000 <= code <= CODE_MAX
    ensures FromCode(c, code, message) == None <==> code == 0
    ensures code < 0 ==> FromCode(c, code, message) == Some(INTERNAL)
    ensures code > 0 ==>
      var e := FromCode(c, code, message).value;
      && e.code == code && e.httpStatus == Known(c, code)
      && (Trim(message) != "" ==> e.message == Trim(message))
      && (Trim(message) == "" && code in Codes(c) && Trim(Codes(c)[code].message) != "" ==>
            e.message == Trim(Codes(c)[code].message))
      && (Trim(message) == "" && code !in Codes(c) ==> e.message == MESSAGE_INTERNAL)
    ensures code != 0 ==> 400 <= FromCode(c, code, message).value.httpStatus <= 599
  {
    hide New, Consistent, HTTPStatus, Known, Normalize, LookupCode, PublicMessage, Trim;
    if code != 0 {
      StatusIsAnError(c, code);
      OneStatus(code, PublicMessage(c, code, message), HTTPStatus(c, code));
      PublicMessageChoice(c, code, message);
      NormalizeChoice(code, Trim(PublicMessage(c, code, message)), HTTPStatus(c, code));
    }
  }

  lemma NormalizeChoice(code: int, message: string, status: int)
    requires message != "" && 400 <= status <= 599 && code <= CODE_MAX
    ensures Normalize(Error(code, message, status)) == if code > 0 then Error(code, message, status) else INTERNAL
  {
  }

  lemma PublicMessageChoice(c: Catalog, code: int, message: string)
    ensures Trim(PublicMessage(c, code, message)) ==
      if Trim(message) != "" then Trim(message)
      else if code in Codes(c) && Trim(Codes(c)[code].message) != "" then Trim(Codes(c)[code].message)
      else MESSAGE_INTERNAL
    ensures Trim(PublicMessage(c, code, message)) != ""
  {
    hide Trim;
    InternalMessageIsTrimmed();
  }

  lemma InternalMessageIsTrimmed()
    ensures Trim(MESSAGE_INTERNAL) == MESSAGE_INTERNAL && MESSAGE_INTERNAL != ""
  {
    assert Trimmed(MESSAGE_INTERNAL);
  }
}
