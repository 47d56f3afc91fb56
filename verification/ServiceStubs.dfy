// The stubs of local service methods
// (internal/generator/protobuf/generate.go, createServiceStubs): the whole set
// is planned before the first file is written.
module ServiceStubs {
  import opened Text

  // ---------------------------------------------------------------------
  // snakeCase
  // ---------------------------------------------------------------------

  // A word begins at an upper-case letter that follows or precedes a
  // lower-case one.
  predicate WordStart(s: string, i: nat)
    requires i < |s|
  {
    IsUpper(s[i]) && i > 0 && (IsLower(s[i - 1]) || (i + 1 < |s| && IsLower(s[i + 1])))
  }

  function SnakePrefix(s: string, n: nat): string
    requires n <= |s|
  {
    if n == 0 then ""
    else SnakePrefix(s, n - 1) + (if WordStart(s, n - 1) then "_" else "") + [ToLower(s[n - 1])]
  }

  function SnakeCase(s: string): string {
    SnakePrefix(s, |s|)
  }

  method SnakeCaseLoop(value: string) returns (output: string)
    ensures output == SnakeCase(value)
  {
    output := "";
    for index := 0 to |value|
      invariant output == SnakePrefix(value, index)
    {
      var current := value[index];
      if IsUpper(current) && index > 0
         && (IsLower(value[index - 1]) || (index + 1 < |value| && IsLower(value[index + 1]))) {
        output := output + "_";
      }
      output := output + [ToLower(current)];
    }
  }

  // What two names have to share to share a file: their letters and digits
  // without case, each with the number of underscores before it, where the
  // beginning of a word counts as one more; and the underscores at the end.
  datatype Shape = Shape(letters: seq<(nat, char)>, trailing: nat)

  function ShapeOf(s: string, n: nat): Shape
    requires n <= |s|
  {
    if n == 0 then Shape([], 0)
    else
      var before, c := ShapeOf(s, n - 1), s[n - 1];
      if c == '_' then before.(trailing := before.trailing + 1)
      else Shape(before.letters + [(before.trailing + (if WordStart(s, n - 1) then 1 else 0), ToLower(c))], 0)
  }

  // Reads a shape off a file name.
  function Parse(t: string): Shape {
    if t == "" then Shape([], 0)
    else
      var before, c := Parse(t[..|t| - 1]), t[|t| - 1];
      if c == '_' then before.(trailing := before.trailing + 1)
      else Shape(before.letters + [(before.trailing, c)], 0)
  }

  lemma ParseSnoc(t: string, c: char)
    ensures Parse(t + [c]) ==
      if c == '_' then Parse(t).(trailing := Parse(t).trailing + 1)
      else Shape(Parse(t).letters + [(Parse(t).trailing, c)], 0)
  {
    assert (t + [c])[..|t|] == t;
  }

  lemma {:induction false} ParseFindsShape(s: string, n: nat)
    requires n <= |s|
    ensures Parse(SnakePrefix(s, n)) == ShapeOf(s, n)
  {
    if n > 0 {
      ParseFindsShape(s, n - 1);
      var t, c := SnakePrefix(s, n - 1), s[n - 1];
      if WordStart(s, n - 1) {
        assert SnakePrefix(s, n) == (t + ['_']) + [ToLower(c)];
        ParseSnoc(t, '_');
        ParseSnoc(t + ['_'], ToLower(c));
      } else {
        assert t + "" == t;
        ParseSnoc(t, ToLower(c));
      }
    }
  }

  lemma {:induction false} ParseIsInjective(t: string, u: string)
    requires Parse(t) == Parse(u)
    ensures t == u
    decreases |t|
  {
    ParseEnds(t);
    ParseEnds(u);
    if t != "" {
      var a, b := t[..|t| - 1], u[..|u| - 1];
      assert t == a + [t[|t| - 1]] && u == b + [u[|u| - 1]];
      ParseSnoc(a, t[|t| - 1]);
      ParseSnoc(b, u[|u| - 1]);
      hide Parse;
      SameEnding(Parse(a), t[|t| - 1], Parse(b), u[|u| - 1]);
      ParseIsInjective(a, b);
    }
  }

  function Extended(p: Shape, c: char): Shape {
    if c == '_' then p.(trailing := p.trailing + 1) else Shape(p.letters + [(p.trailing, c)], 0)
  }

  lemma SameEnding(p: Shape, c: char, q: Shape, d: char)
    requires Extended(p, c) == Extended(q, d)
    ensures p == q && c == d
  {
    if c != '_' && d != '_' {
      var xs, ys := p.letters + [(p.trailing, c)], q.letters + [(q.trailing, d)];
      assert xs[..|xs| - 1] == p.letters && ys[..|ys| - 1] == q.letters;
      assert xs[|xs| - 1] == (p.trailing, c) && ys[|ys| - 1] == (q.trailing, d);
    }
  }

  lemma ParseEnds(t: string)
    ensures Parse(t) == Shape([], 0) <==> t == ""
  {
  }

  // Two names share a file name exactly when they have the same shape.
  lemma SnakeCaseCollidesExactly(a: string, b: string)
    ensures SnakeCase(a) == SnakeCase(b) <==> ShapeOf(a, |a|) == ShapeOf(b, |b|)
  {
    hide Parse, ShapeOf;
    ParseFindsShape(a, |a|);
    ParseFindsShape(b, |b|);
    if ShapeOf(a, |a|) == ShapeOf(b, |b|) { ParseIsInjective(SnakeCase(a), SnakeCase(b)); }
  }

  predicate NoUnderscores(s: string) {
    forall i :: 0 <= i < |s| ==> s[i] != '_'
  }

  lemma {:induction false} PlainShape(s: string, n: nat)
    requires NoUnderscores(s) && n <= |s|
    ensures ShapeOf(s, n).trailing == 0 && |ShapeOf(s, n).letters| == n
    ensures forall i :: 0 <= i < n ==> ShapeOf(s, n).letters[i] == (if WordStart(s, i) then 1 else 0, ToLower(s[i]))
  {
    if n > 0 { PlainShape(s, n - 1); }
  }

  // Without underscores: the same letters in lower case, and words that begin
  // at the same places.
  ghost predicate SameWords(a: string, b: string) {
    && |a| == |b|
    && forall i :: 0 <= i < |a| ==> ToLower(a[i]) == ToLower(b[i]) && (WordStart(a, i) <==> WordStart(b, i))
  }

  lemma PlainNamesCollideExactly(a: string, b: string)
    requires NoUnderscores(a) && NoUnderscores(b)
    ensures SnakeCase(a) == SnakeCase(b) <==> SameWords(a, b)
  {
    hide WordStart, SnakeCase;
    SnakeCaseCollidesExactly(a, b);
    PlainShape(a, |a|);
    PlainShape(b, |b|);
    SameShapeSameWords(a, b, ShapeOf(a, |a|), ShapeOf(b, |b|));
  }

  lemma SameShapeSameWords(a: string, b: string, p: Shape, q: Shape)
    requires p.trailing == 0 == q.trailing && |p.letters| == |a| && |q.letters| == |b|
    requires forall i :: 0 <= i < |a| ==> p.letters[i] == (if WordStart(a, i) then 1 else 0, ToLower(a[i]))
    requires forall i :: 0 <= i < |b| ==> q.letters[i] == (if WordStart(b, i) then 1 else 0, ToLower(b[i]))
    ensures p == q <==> SameWords(a, b)
  {
    hide WordStart, ToLower;
    if SameWords(a, b) {
      assert forall i :: 0 <= i < |a| ==> p.letters[i] == q.letters[i];
      assert p.letters == q.letters;
    }
    if p == q {
      forall i | 0 <= i < |a| ensures ToLower(a[i]) == ToLower(b[i]) && (WordStart(a, i) <==> WordStart(b, i)) {
        assert p.letters[i] == q.letters[i];
      }
    }
  }

  // Every capital after the first begins a word.
  predicate WellSpaced(s: string) {
    && s != "" && IsUpper(s[0]) && NoUnderscores(s)
    && forall i :: 0 < i < |s| && IsUpper(s[i]) ==> WordStart(s, i)
  }

  // On such names different methods get different files.
  lemma WellSpacedNamesDiffer(a: string, b: string)
    requires WellSpaced(a) && WellSpaced(b)
    ensures SnakeCase(a) == SnakeCase(b) <==> a == b
  {
    hide SnakeCase;
    PlainNamesCollideExactly(a, b);
    if SameWords(a, b) {
      forall i | 0 <= i < |a| ensures a[i] == b[i] {
        assert i > 0 ==> (IsUpper(a[i]) <==> WordStart(a, i)) && (IsUpper(b[i]) <==> WordStart(b, i));
      }
    }
  }

  // Two different methods with the same words: in a run of capitals only the
  // first, and one before a lower-case letter, begin a word.
  lemma InitialismsCollide()
    ensures "GetURL" != "GetUrl" && SameWords("GetURL", "GetUrl") && !WellSpaced("GetURL")
    ensures SnakeCase("GetURL") == SnakeCase("GetUrl")
  {
    assert "GetURL"[4] == 'R';
    PlainNamesCollideExactly("GetURL", "GetUrl");
  }

  // ---------------------------------------------------------------------
  // Planning
  // ---------------------------------------------------------------------

  function PathOf(name: string): string {
    SnakeCase(name) + ".go"
  }

  // The methods that still need a stub, each once, in order.
  function Fresh(existing: set<string>, names: seq<string>): seq<string> {
    if names == [] then []
    else
      var rest := Fresh(existing, names[..|names| - 1]);
      var last := names[|names| - 1];
      if last in existing || last in rest then rest else rest + [last]
  }

  function Flatten(services: seq<seq<string>>): seq<string> {
    if services == [] then [] else Flatten(services[..|services| - 1]) + services[|services| - 1]
  }

  // Different stubs get different files, and no file is there yet.
  ghost predicate Plannable(files: set<string>, pending: seq<string>) {
    && (forall i, j :: 0 <= i < j < |pending| ==> PathOf(pending[i]) != PathOf(pending[j]))
    && (forall i :: 0 <= i < |pending| ==> PathOf(pending[i]) !in files)
  }

  lemma {:induction false} FreshIsNew(existing: set<string>, names: seq<string>)
    ensures forall s :: s in Fresh(existing, names) <==> s in names && s !in existing
    decreases |names|
  {
    if names != [] {
      FreshIsNew(existing, names[..|names| - 1]);
      assert names == names[..|names| - 1] + [names[|names| - 1]];
    }
  }

  lemma {:induction false} FreshGrows(existing: set<string>, names: seq<string>, more: seq<string>)
    ensures Fresh(existing, names) <= Fresh(existing, names + more)
    decreases |more|
  {
    if more == [] {
      assert names + more == names;
    } else {
      var n := |more| - 1;
      FreshGrows(existing, names, more[..n]);
      assert (names + more)[..|names + more| - 1] == names + more[..n];
    }
  }

  lemma PlannablePrefix(files: set<string>, pending: seq<string>, longer: seq<string>)
    requires pending <= longer
    ensures Plannable(files, longer) ==> Plannable(files, pending)
  {
    assert forall i :: 0 <= i < |pending| ==> pending[i] == longer[i];
  }

  // One turn of the planning loop.
  lemma PlanStep(files: set<string>, existing: set<string>, names: seq<string>, name: string)
    requires Plannable(files, Fresh(existing, names))
    ensures var pending := Fresh(existing, names);
            var after := Fresh(existing, names + [name]);
            if name in existing || name in pending then after == pending
            else
              && after == pending + [name]
              && (Plannable(files, after) <==>
                    PathOf(name) !in files && forall p :: p in pending ==> PathOf(p) != PathOf(name))
  {
    assert (names + [name])[..|names|] == names;
    hide PathOf, Fresh;
    PlannableSnoc(files, Fresh(existing, names), name);
  }

  lemma PlannableSnoc(files: set<string>, pending: seq<string>, name: string)
    requires Plannable(files, pending)
    ensures Plannable(files, pending + [name]) <==>
              PathOf(name) !in files && forall p :: p in pending ==> PathOf(p) != PathOf(name)
  {
    hide PathOf;
    var after := pending + [name];
    assert after[|pending|] == name;
    assert forall i :: 0 <= i < |pending| ==> after[i] == pending[i];
    if Plannable(files, after) {
      forall p | p in pending ensures PathOf(p) != PathOf(name) {
        var i :| 0 <= i < |pending| && pending[i] == p;
        assert PathOf(after[i]) != PathOf(after[|pending|]);
      }
    }
  }

  lemma {:induction false} FreshIsDistinct(existing: set<string>, names: seq<string>)
    ensures forall i, j :: 0 <= i < j < |Fresh(existing, names)| ==>
      Fresh(existing, names)[i] != Fresh(existing, names)[j]
    decreases |names|
  {
    if names != [] { FreshIsDistinct(existing, names[..|names| - 1]); }
  }

  // Planning fails for the new methods exactly when two of them have the same
  // shape or one of their files exists.
  lemma PlannableExactly(files: set<string>, pending: seq<string>)
    ensures Plannable(files, pending) <==>
              && (forall i, j :: 0 <= i < j < |pending| ==>
                    ShapeOf(pending[i], |pending[i]|) != ShapeOf(pending[j], |pending[j]|))
              && (forall i :: 0 <= i < |pending| ==> PathOf(pending[i]) !in files)
  {
    hide ShapeOf, PathOf;
    forall i, j | 0 <= i < j < |pending|
      ensures PathOf(pending[i]) == PathOf(pending[j]) <==>
                ShapeOf(pending[i], |pending[i]|) == ShapeOf(pending[j], |pending[j]|)
    {
      SamePathExactly(pending[i], pending[j]);
    }
  }

  lemma SamePathExactly(a: string, b: string)
    ensures PathOf(a) == PathOf(b) <==> ShapeOf(a, |a|) == ShapeOf(b, |b|)
  {
    hide SnakeCase, ShapeOf, PathOf;
    SnakeCaseCollidesExactly(a, b);
    SameStem(a, b);
  }

  // Well-spaced methods are refused only for a file that exists.
  lemma WellSpacedIsPlannable(files: set<string>, existing: set<string>, names: seq<string>)
    requires forall name :: name in names && name !in existing ==> WellSpaced(name)
    ensures Plannable(files, Fresh(existing, names)) <==>
              forall name :: name in names && name !in existing ==> PathOf(name) !in files
  {
    hide WellSpaced, PathOf, Fresh;
    var pending := Fresh(existing, names);
    FreshIsNew(existing, names);
    FreshIsDistinct(existing, names);
    forall i, j | 0 <= i < j < |pending| ensures PathOf(pending[i]) != PathOf(pending[j]) {
      assert pending[i] in pending && pending[j] in pending;
      WellSpacedNamesDiffer(pending[i], pending[j]);
      SameStem(pending[i], pending[j]);
    }
  }

  lemma SameStem(a: string, b: string)
    ensures PathOf(a) == PathOf(b) <==> SnakeCase(a) == SnakeCase(b)
  {
    hide SnakeCase;
    assert SnakeCase(a) == PathOf(a)[..|PathOf(a)| - 3] && SnakeCase(b) == PathOf(b)[..|PathOf(b)| - 3];
  }

  // Succeeds exactly when the whole set can be planned.
  method Plan(files: set<string>, existing: set<string>, services: seq<seq<string>>) returns (ok: bool,
      pending: seq<string>)
    ensures ok <==> Plannable(files, Fresh(existing, Flatten(services)))
    ensures ok ==> pending == Fresh(existing, Flatten(services))
  {
    hide PathOf, Plannable, Fresh, Planning;
    pending := [];
    var known := existing;
    var pendingPaths: map<string, string> := map[];
    ghost var seen: seq<string> := [];
    NothingPlanned(files, existing);
    for i := 0 to |services|
      invariant seen == Flatten(services[..i])
      invariant Planning(files, existing, seen, pending, known, pendingPaths)
    {
      assert services[..i + 1][..i] == services[..i];
      for k := 0 to |services[i]|
        invariant seen == Flatten(services[..i]) + services[i][..k]
        invariant Planning(files, existing, seen, pending, known, pendingPaths)
      {
        var name := services[i][k];
        assert Flatten(services[..i]) + services[i][..k + 1] == seen + [name];
        PlanningKnows(files, existing, seen, name, pending, known, pendingPaths);
        PlanStep(files, existing, seen, name);
        if name in known {
          seen := seen + [name];
          PlanningSkips(files, existing, seen, name, pending, known, pendingPaths);
          continue;
        }
        var path := PathOf(name);
        if path in pendingPaths && pendingPaths[path] != name {
          Collision(files, existing, seen, name, pending, known, pendingPaths);
          NotPlannable(files, existing, seen + [name], services, i, k);
          return false, [];
        }
        if path in files {
          NotPlannable(files, existing, seen + [name], services, i, k);
          return false, [];
        }
        PlanningAdds(files, existing, seen, name, pending, known, pendingPaths);
        pendingPaths := pendingPaths[path := name];
        pending := pending + [name];
        known := known + {name};
        seen := seen + [name];
      }
      assert services[i][..|services[i]|] == services[i];
    }
    assert services[..|services|] == services;
    PlanningKnows(files, existing, seen, "", pending, known, pendingPaths);
    ok := true;
  }

  // The variables of the planning loop after the methods in `seen`.
  ghost predicate Planning(files: set<string>, existing: set<string>, seen: seq<string>, pending: seq<string>,
                           known: set<string>, pendingPaths: map<string, string>) {
    && pending == Fresh(existing, seen) && Plannable(files, pending)
    && known == existing + (set s | s in pending)
    && (forall p :: p in pendingPaths <==> exists s :: s in pending && PathOf(s) == p)
    && (forall p :: p in pendingPaths ==> pendingPaths[p] in pending && PathOf(pendingPaths[p]) == p)
  }

  lemma PlanningKnows(files: set<string>, existing: set<string>, seen: seq<string>, name: string, pending: seq<string>,
                      known: set<string>, pendingPaths: map<string, string>)
    requires Planning(files, existing, seen, pending, known, pendingPaths)
    ensures pending == Fresh(existing, seen) && Plannable(files, pending)
    ensures name in known <==> name in existing || name in pending
    ensures name !in known && PathOf(name) in pendingPaths ==> pendingPaths[PathOf(name)] != name
    ensures PathOf(name) in pendingPaths ==>
              exists p :: p in pending && p == pendingPaths[PathOf(name)] && PathOf(p) == PathOf(name)
  {
    hide PathOf, Fresh, Plannable;
  }

  lemma NothingPlanned(files: set<string>, existing: set<string>)
    ensures Planning(files, existing, [], [], existing, map[])
  {
  }

  lemma PlanningSkips(files: set<string>, existing: set<string>, seen: seq<string>, name: string, pending: seq<string>,
                      known: set<string>, pendingPaths: map<string, string>)
    requires seen != [] && seen[|seen| - 1] == name && name in known
    requires Planning(files, existing, seen[..|seen| - 1], pending, known, pendingPaths)
    ensures Planning(files, existing, seen, pending, known, pendingPaths)
  {
    hide PathOf, Plannable;
  }

  lemma Collision(files: set<string>, existing: set<string>, seen: seq<string>, name: string, pending: seq<string>,
                  known: set<string>, pendingPaths: map<string, string>)
    requires Planning(files, existing, seen, pending, known, pendingPaths) && name !in known &&
      PathOf(name) in pendingPaths
    ensures !Plannable(files, Fresh(existing, seen + [name]))
  {
    hide PathOf, Fresh, Plannable, Planning;
    PlanningKnows(files, existing, seen, name, pending, known, pendingPaths);
    PlanStep(files, existing, seen, name);
  }

  lemma PlanningAdds(files: set<string>, existing: set<string>, seen: seq<string>, name: string, pending: seq<string>,
                     known: set<string>, pendingPaths: map<string, string>)
    requires Planning(files, existing, seen, pending, known, pendingPaths)
    requires name !in known && PathOf(name) !in files && PathOf(name) !in pendingPaths
    ensures Planning(files, existing, seen + [name], pending + [name], known + {name},
      pendingPaths[PathOf(name) := name])
  {
    hide PathOf, Fresh, Plannable;
    PlanningKnows(files, existing, seen, name, pending, known, pendingPaths);
    PlanStep(files, existing, seen, name);
    forall p | p in pending ensures PathOf(p) != PathOf(name) {
      assert PathOf(p) in pendingPaths;
    }
    PathsGrow(pending, pendingPaths, name);
    assert known + {name} == existing + set s | s in pending + [name];
  }

  lemma PathsGrow(pending: seq<string>, paths: map<string, string>, name: string)
    requires forall p :: p in paths <==> exists s :: s in pending && PathOf(s) == p
    requires forall p :: p in paths ==> paths[p] in pending && PathOf(paths[p]) == p
    ensures var after, more := pending + [name], paths[PathOf(name) := name];
            && (forall p :: p in more <==> exists s :: s in after && PathOf(s) == p)
            && (forall p :: p in more ==> more[p] in after && PathOf(more[p]) == p)
  {
    hide PathOf;
    var after, more := pending + [name], paths[PathOf(name) := name];
    assert name in after;
    forall p | p in more ensures exists s :: s in after && PathOf(s) == p {
      if p != PathOf(name) { var s :| s in pending && PathOf(s) == p; assert s in after; }
    }
  }

  lemma {:induction false} FlattenStarts(services: seq<seq<string>>, i: nat)
    requires i <= |services|
    ensures Flatten(services[..i]) <= Flatten(services)
    decreases |services| - i
  {
    if i == |services| {
      assert services[..i] == services;
    } else {
      FlattenStarts(services, i + 1);
      assert services[..i + 1][..i] == services[..i];
    }
  }

  lemma NotPlannable(files: set<string>, existing: set<string>, seen: seq<string>, services: seq<seq<string>>, i: nat,
      k: nat)
    requires i < |services| && k < |services[i]| && seen == Flatten(services[..i]) + services[i][..k + 1]
    requires !Plannable(files, Fresh(existing, seen))
    ensures !Plannable(files, Fresh(existing, Flatten(services)))
  {
    hide Plannable, Fresh, PathOf;
    FlattenStarts(services, i + 1);
    assert services[..i + 1][..i] == services[..i];
    var all := Flatten(services);
    assert Flatten(services[..i + 1]) == Flatten(services[..i]) + services[i];
    assert seen <= Flatten(services[..i + 1]) <= all;
    assert all == seen + all[|seen|..];
    FreshGrows(existing, seen, all[|seen|..]);
    PlannablePrefix(files, Fresh(existing, seen), Fresh(existing, all));
  }

  // ---------------------------------------------------------------------
  // Writing
  // ---------------------------------------------------------------------

  lemma NewFile(files: set<string>, pending: seq<string>, i: nat)
    requires Plannable(files, pending) && i < |pending|
    ensures PathOf(pending[i]) !in files
    ensures forall s :: s in pending[..i] ==> PathOf(s) != PathOf(pending[i])
    ensures pending[..i + 1] == pending[..i] + [pending[i]]
  {
    hide PathOf;
  }

  class ServiceDirectory {
    var files: map<string, string>

    // Nothing is written unless the whole plan is free of conflicts. A stub never
    // replaces a file; each new method gets exactly one file of its own. When
    // the write of stub failsAt fails, the earlier stubs stay.
    method CreateStubs(existing: set<string>, services: seq<seq<string>>, render: string -> string, failsAt: nat)
        returns (planned: bool, created: seq<string>)
      modifies this
      ensures planned <==> Plannable(old(files).Keys, Fresh(existing, Flatten(services)))
      ensures !planned ==> files == old(files) && created == []
      ensures planned ==>
                var pending := Fresh(existing, Flatten(services));
                && created == pending[..if failsAt < |pending| then failsAt else |pending|]
                && files.Keys == old(files).Keys + (set s | s in created :: PathOf(s))
                && (forall s :: s in created ==> files[PathOf(s)] == render(s))
                && (forall p :: p in old(files) ==> files[p] == old(files)[p])
    {
      hide PathOf, Fresh, Plannable;
      var pending: seq<string>;
      planned, pending := Plan(files.Keys, existing, services);
      created := [];
      if !planned { return; }
      for i := 0 to |pending|
        invariant i <= failsAt
        invariant created == pending[..i]
        invariant files.Keys == old(files).Keys + (set s | s in created :: PathOf(s))
        invariant forall s :: s in created ==> files[PathOf(s)] == render(s)
        invariant forall p :: p in old(files) ==> files[p] == old(files)[p]
      {
        if i == failsAt { return; }
        var name := pending[i];
        NewFile(old(files).Keys, pending, i);
        files := files[PathOf(name) := render(name)];
        created := created + [name];
      }
    }
  }
}
