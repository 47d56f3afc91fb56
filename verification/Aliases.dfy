// Import aliases for generated protobuf packages
// (internal/generator/protobuf/generate.go, assignUniqueAliases).
module Aliases {
  import opened Text

  datatype Service = Service(name: string, importPath: string, package: string, alias: string)

  // The names that are never given as an alias. The generated file also imports
  // two packages under the names "attribute" and "trace", which are not among
  // them; see ImportedNameIsAliasExactly.
  const RESERVED: set<string> := {"context", "grpc", "service", "stderrors", "jgoerrors"}

  // The names tried for a package, in order: base, base2, base3, ...
  function Candidate(base: string, k: nat): string {
    if k == 0 then base else base + Decimal(k + 1)
  }

  lemma CandidatesDiffer(base: string, j: nat, k: nat)
    requires j != k
    ensures Candidate(base, j) != Candidate(base, k)
  {
    DecimalLength(j + 1);
    DecimalLength(k + 1);
    DecimalIsInjective(j + 1, k + 1);
    var a, b := Candidate(base, j), Candidate(base, k);
    if j != 0 { assert a[|base|..] == Decimal(j + 1); }
    if k != 0 { assert b[|base|..] == Decimal(k + 1); }
  }

  // The first n candidates.
  ghost function Tried(base: string, n: nat): set<string> {
    if n == 0 then {} else Tried(base, n - 1) + {Candidate(base, n - 1)}
  }

  lemma {:induction false} TriedAre(base: string, n: nat, s: string)
    ensures s in Tried(base, n) <==> exists k: nat :: k < n && s == Candidate(base, k)
  {
    if n != 0 { TriedAre(base, n - 1, s); }
  }

  lemma {:induction false} TriedCount(base: string, n: nat)
    ensures |Tried(base, n)| == n
  {
    if n != 0 {
      TriedCount(base, n - 1);
      TriedAre(base, n - 1, Candidate(base, n - 1));
      forall k: nat | k < n - 1 ensures Candidate(base, k) != Candidate(base, n - 1) {
        CandidatesDiffer(base, k, n - 1);
      }
    }
  }

  lemma {:induction false} SubsetIsSmaller<T>(a: set<T>, b: set<T>)
    requires a <= b
    ensures |a| <= |b|
    decreases |a|
  {
    if a != {} {
      var x :| x in a;
      SubsetIsSmaller(a - {x}, b - {x});
    }
  }

  // Pigeonhole: a finite set cannot hold more candidates than it has elements,
  // so the search for a free one ends.
  lemma TriedAreFew(base: string, n: nat, used: set<string>)
    requires forall k: nat :: k < n ==> Candidate(base, k) in used
    ensures n <= |used|
  {
    forall s | s in Tried(base, n) ensures s in used { TriedAre(base, n, s); }
    SubsetIsSmaller(Tried(base, n), used);
    TriedCount(base, n);
  }

  ghost predicate IsFirstFree(alias: string, base: string, used: set<string>) {
    exists k: nat ::
      alias == Candidate(base, k) && alias !in used && forall j: nat :: j < k ==> Candidate(base, j) in used
  }

  method FirstFree(base: string, used: set<string>) returns (alias: string)
    ensures IsFirstFree(alias, base, used)
  {
    alias := base;
    var suffix := 2;
    while alias in used
      invariant suffix >= 2 && alias == Candidate(base, suffix - 2)
      invariant forall j: nat :: j < suffix - 2 ==> Candidate(base, j) in used
      invariant suffix - 2 <= |used|
      decreases |used| + 2 - suffix
    {
      TriedAreFew(base, suffix - 1, used);
      alias := base + Decimal(suffix);
      suffix := suffix + 1;
    }
  }

  // The names taken before service i is given its alias.
  ghost function Taken(services: seq<Service>, i: nat): set<string>
    requires i <= |services|
  {
    RESERVED + set j | 0 <= j < i :: services[j].alias
  }

  ghost predicate SeenBefore(services: seq<Service>, i: nat)
    requires i < |services|
  {
    exists j :: 0 <= j < i && services[j].importPath == services[i].importPath
  }

  // Two of the first n services share an alias exactly when they share an
  // import path.
  ghost predicate OneAliasPerImport(services: seq<Service>, n: nat)
    requires n <= |services|
  {
    forall i, j :: 0 <= i < j < n ==>
      (services[i].alias == services[j].alias <==> services[i].importPath == services[j].importPath)
  }

  ghost predicate NoneReserved(services: seq<Service>, n: nat)
    requires n <= |services|
  {
    forall i :: 0 <= i < n ==> services[i].alias !in RESERVED
  }

  // The first service of each import path gets the first free candidate.
  ghost predicate FirstsAreFirstFree(services: seq<Service>, n: nat)
    requires n <= |services|
  {
    forall i :: 0 <= i < n && !SeenBefore(services, i) ==>
      IsFirstFree(services[i].alias, services[i].package, Taken(services, i))
  }

  ghost predicate Settled(services: seq<Service>, n: nat)
    requires n <= |services|
  {
    OneAliasPerImport(services, n) && NoneReserved(services, n) && FirstsAreFirstFree(services, n)
  }

  // The map from import paths to aliases after n services.
  ghost predicate Records(aliases: map<string, string>, services: seq<Service>, n: nat)
    requires n <= |services|
  {
    && (forall i :: 0 <= i < n ==>
          services[i].importPath in aliases && aliases[services[i].importPath] == services[i].alias)
    && (forall p :: p in aliases ==> exists i :: 0 <= i < n && services[i].importPath == p)
  }

  lemma TakenGrows(before: seq<Service>, n: nat, alias: string)
    requires n < |before|
    ensures forall i :: 0 <= i <= n ==> Taken(before[n := before[n].(alias := alias)], i) == Taken(before, i)
    ensures Taken(before[n := before[n].(alias := alias)], n + 1) == Taken(before, n) + {alias}
  {
    var after := before[n := before[n].(alias := alias)];
    forall i | 0 <= i <= n ensures Taken(after, i) == Taken(before, i) {
      assert forall j :: 0 <= j < i ==> after[j] == before[j];
    }
    TakenStep(after, n);
  }

  lemma TakenStep(services: seq<Service>, n: nat)
    requires n < |services|
    ensures Taken(services, n + 1) == Taken(services, n) + {services[n].alias}
  {
    assert (set j | 0 <= j < n + 1 :: services[j].alias) ==
           (set j | 0 <= j < n :: services[j].alias) + {services[n].alias};
  }

  lemma Settle(before: seq<Service>, n: nat, aliases: map<string, string>, alias: string)
    requires n < |before| && Settled(before, n) && Records(aliases, before, n)
    requires if before[n].importPath in aliases then alias == aliases[before[n].importPath]
             else IsFirstFree(alias, before[n].package, Taken(before, n))
    ensures Settled(before[n := before[n].(alias := alias)], n + 1)
    ensures Records(aliases[before[n].importPath := alias], before[n := before[n].(alias := alias)], n + 1)
  {
    hide IsFirstFree, Taken, SeenBefore, OneAliasPerImport, FirstsAreFirstFree;
    FirstFreeIsFree(alias, before[n].package, Taken(before, n));
    TakenHolds(before, n);
    AliasMatches(before, n, aliases, alias);
    FirstsStep(before, n, aliases, alias);
    RecordsStep(before, n, aliases, alias);
  }

  lemma RecordsStep(before: seq<Service>, n: nat, aliases: map<string, string>, alias: string)
    requires n < |before| && Records(aliases, before, n)
    requires before[n].importPath in aliases ==> alias == aliases[before[n].importPath]
    ensures Records(aliases[before[n].importPath := alias], before[n := before[n].(alias := alias)], n + 1)
  {
    var after := before[n := before[n].(alias := alias)];
    forall p | p in aliases ensures exists i :: 0 <= i < n + 1 && after[i].importPath == p {
      var i :| 0 <= i < n && before[i].importPath == p;
      assert after[i].importPath == p;
    }
    assert after[n].importPath == before[n].importPath;
  }

  lemma AliasMatches(before: seq<Service>, n: nat, aliases: map<string, string>, alias: string)
    requires n < |before| && OneAliasPerImport(before, n) && Records(aliases, before, n)
    requires before[n].importPath in aliases ==> alias == aliases[before[n].importPath]
    requires before[n].importPath !in aliases ==> forall i :: 0 <= i < n ==> before[i].alias != alias
    ensures OneAliasPerImport(before[n := before[n].(alias := alias)], n + 1)
  {
    var after := before[n := before[n].(alias := alias)];
    var path := before[n].importPath;
    forall i | 0 <= i < n ensures after[i].alias == alias <==> after[i].importPath == path {
      if path in aliases {
        var j :| 0 <= j < n && before[j].importPath == path;
        assert before[j].alias == alias;
        if i < j {} else if j < i {}
      }
    }
    forall i, j | 0 <= i < j < n + 1
      ensures after[i].alias == after[j].alias <==> after[i].importPath == after[j].importPath {
      assert after[i] == before[i];
      if j < n { assert after[j] == before[j]; }
    }
  }

  lemma FirstsStep(before: seq<Service>, n: nat, aliases: map<string, string>, alias: string)
    requires n < |before| && FirstsAreFirstFree(before, n) && Records(aliases, before, n)
    requires before[n].importPath !in aliases ==> IsFirstFree(alias, before[n].package, Taken(before, n))
    ensures FirstsAreFirstFree(before[n := before[n].(alias := alias)], n + 1)
  {
    hide IsFirstFree, Taken;
    var after := before[n := before[n].(alias := alias)];
    TakenGrows(before, n, alias);
    forall i | 0 <= i < n + 1 && !SeenBefore(after, i)
      ensures IsFirstFree(after[i].alias, after[i].package, Taken(after, i)) {
      assert forall j :: 0 <= j <= n ==> after[j].importPath == before[j].importPath;
      assert !SeenBefore(before, i);
      if i < n { assert after[i] == before[i]; }
    }
  }

  lemma TakenHolds(services: seq<Service>, n: nat)
    requires n <= |services|
    ensures RESERVED <= Taken(services, n)
    ensures forall i :: 0 <= i < n ==> services[i].alias in Taken(services, n)
  {
  }

  lemma FirstFreeIsFree(alias: string, base: string, used: set<string>)
    ensures IsFirstFree(alias, base, used) ==> alias !in used
  {
  }

  // Two services share an alias exactly when they share an import path, no
  // alias is reserved, and each new import path gets the first free candidate.
  method AssignUniqueAliases(services: array<Service>)
    modifies services
    ensures forall i :: 0 <= i < services.Length ==>
              services[i] == old(services[i]).(alias := services[i].alias)
    ensures Settled(services[..], services.Length)
  {
    hide Settled, Records, Taken, IsFirstFree;
    var aliasesByImport: map<string, string> := map[];
    var used := RESERVED;
    Start(services[..]);
    for index := 0 to services.Length
      invariant forall i :: 0 <= i < services.Length ==>
                  services[i] == old(services[i]).(alias := services[i].alias)
      invariant Settled(services[..], index) && Records(aliasesByImport, services[..], index)
      invariant used == Taken(services[..], index)
    {
      ghost var before := services[..];
      var path := services[index].importPath;
      if path in aliasesByImport {
        var alias := aliasesByImport[path];
        services[index] := services[index].(alias := alias);
        Settle(before, index, aliasesByImport, alias);
        SharedAliasIsTaken(before, index, aliasesByImport);
        TakenGrows(before, index, alias);
        assert used == used + {alias};
        assert aliasesByImport[path := alias] == aliasesByImport;
        assert services[..] == before[index := before[index].(alias := alias)];
      } else {
        var alias := FirstFree(services[index].package, used);
        Settle(before, index, aliasesByImport, alias);
        TakenGrows(before, index, alias);
        services[index] := services[index].(alias := alias);
        aliasesByImport := aliasesByImport[path := alias];
        used := used + {alias};
        assert services[..] == before[index := before[index].(alias := alias)];
      }
    }
  }

  lemma SharedAliasIsTaken(services: seq<Service>, n: nat, aliases: map<string, string>)
    requires n < |services| && Records(aliases, services, n) && services[n].importPath in aliases
    ensures aliases[services[n].importPath] in Taken(services, n)
  {
    var i :| 0 <= i < n && services[i].importPath == services[n].importPath;
    TakenHolds(services, n);
  }

  lemma Start(services: seq<Service>)
    ensures Settled(services, 0) && Records(map[], services, 0) && Taken(services, 0) == RESERVED
  {
  }

  // ---------------------------------------------------------------------
  // Imported names that are not reserved
  // ---------------------------------------------------------------------

  lemma {:induction false} FirstOfImport(services: seq<Service>, i: nat) returns (j: nat)
    requires i < |services|
    ensures j <= i && services[j].importPath == services[i].importPath && !SeenBefore(services, j)
  {
    if SeenBefore(services, i) {
      var k :| 0 <= k < i && services[k].importPath == services[i].importPath;
      j := FirstOfImport(services, k);
    } else {
      j := i;
    }
  }

  lemma OnlyTheBaseHasNoNumber(base: string, k: nat, name: string)
    requires name != "" && !IsDigit(name[|name| - 1]) && name == Candidate(base, k)
    ensures k == 0 && base == name
  {
    NumberedEndsInDigit(base, k);
  }

  lemma NumberedEndsInDigit(base: string, k: nat)
    ensures k != 0 ==> Candidate(base, k) != "" && IsDigit(Candidate(base, k)[|Candidate(base, k)| - 1])
  {
    DecimalLength(k + 1);
    var number := Decimal(k + 1);
    assert (base + number)[|base + number| - 1] == number[|number| - 1];
  }

  // A name that is not reserved and does not end in a digit, as "trace" and
  // "attribute", becomes an alias exactly when some import path is first met
  // with a package of that name.
  lemma ImportedNameIsAliasExactly(services: seq<Service>, name: string)
    requires Settled(services, |services|) && name !in RESERVED && name != "" && !IsDigit(name[|name| - 1])
    ensures (exists i :: 0 <= i < |services| && services[i].alias == name) <==>
            (exists i :: 0 <= i < |services| && !SeenBefore(services, i) && services[i].package == name)
  {
    hide Taken, SeenBefore, Candidate;
    if i :| 0 <= i < |services| && services[i].alias == name {
      var j := FirstOfImport(services, i);
      assert j < i ==> services[j].alias == services[i].alias;
      assert IsFirstFree(services[j].alias, services[j].package, Taken(services, j));
      var k: nat :| services[j].alias == Candidate(services[j].package, k);
      OnlyTheBaseHasNoNumber(services[j].package, k, name);
    }
    if i :| 0 <= i < |services| && !SeenBefore(services, i) && services[i].package == name {
      assert IsFirstFree(services[i].alias, name, Taken(services, i));
      BaseIsTaken(services, i, name);
    }
  }

  // A protobuf package called trace, as the only one, is imported as "trace"
  // beside the tracing package of that name.
  method TracePackageCollides() returns (services: array<Service>)
    ensures services.Length == 1 && services[0].package == "trace" && services[0].alias == "trace"
  {
    services := new Service[1](_ => Service("Spans", "example/gen/pb/trace", "trace", ""));
    AssignUniqueAliases(services);
    OnlyServiceKeepsItsName(services[..], "trace");
  }

  // When there is one service, its alias is its package name, unless reserved.
  lemma OnlyServiceKeepsItsName(services: seq<Service>, name: string)
    requires |services| == 1 && Settled(services, 1) && services[0].package == name
    requires name !in RESERVED && name != "" && !IsDigit(name[|name| - 1])
    ensures services[0].alias == name
  {
    assert !SeenBefore(services, 0);
    ImportedNameIsAliasExactly(services, name);
  }

  lemma BaseIsTaken(services: seq<Service>, i: nat, name: string)
    requires i < |services| && name !in RESERVED && IsFirstFree(services[i].alias, name, Taken(services, i))
    ensures exists j :: 0 <= j <= i && services[j].alias == name
  {
    var k: nat :| services[i].alias == Candidate(name, k) &&
        forall j: nat :: j < k ==> Candidate(name, j) in Taken(services, i);
    assert Candidate(name, 0) == name;
  }
}
