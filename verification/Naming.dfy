// Names derived from contract names (internal/generator/rpcbinding): the
// snake-case file names of handlers and method stubs, exported Go names, and
// handler and client names.
module Naming {
  import opened Text

  // ---------------------------------------------------------------------
  // snake
  // ---------------------------------------------------------------------

  // What snake emits for the characters after the first.
  function SnakeTail(s: string): string {
    if s == "" then ""
    else (if IsUpper(s[0]) then "_" else "") + [ToLower(s[0])] + SnakeTail(s[1..])
  }

  function Snake(s: string): string {
    if s == "" then "" else [ToLower(s[0])] + SnakeTail(s[1..])
  }

  method SnakeLoop(value: string) returns (out: string)
    ensures out == Snake(value)
  {
    out := "";
    for i := 0 to |value|
      invariant out == Snake(value[..i])
    {
      var r := value[i];
      assert value[..i + 1] == value[..i] + [r];
      if i > 0 {
        SnakeAppend(value[..i], [r]);
        assert SnakeTail([r]) == (if IsUpper(r) then "_" else "") + [ToLower(r)] + SnakeTail([r][1..]);
      }
      if IsUpper(r) && i > 0 { out := out + "_"; }
      out := out + [ToLower(r)];
    }
    assert value[..|value|] == value;
  }

  lemma {:induction false} SnakeTailAppend(a: string, b: string)
    ensures SnakeTail(a + b) == SnakeTail(a) + SnakeTail(b)
    decreases |a|
  {
    if a == "" {
      assert a + b == b;
    } else {
      assert (a + b)[1..] == a[1..] + b;
      SnakeTailAppend(a[1..], b);
    }
  }

  lemma SnakeAppend(a: string, b: string)
    requires a != ""
    ensures Snake(a + b) == Snake(a) + SnakeTail(b)
  {
    assert (a + b)[1..] == a[1..] + b;
    SnakeTailAppend(a[1..], b);
  }

  predicate IsExported(s: string) {
    s != "" && IsUpper(s[0])
  }

  // The name with every underscore before a lower-case letter, together with
  // that letter, replaced by the capital.
  function FoldTail(s: string): string {
    if s == "" then ""
    else if |s| > 1 && s[0] == '_' && IsLower(s[1]) then [ToUpper(s[1])] + FoldTail(s[2..])
    else [s[0]] + FoldTail(s[1..])
  }

  function Fold(s: string): string {
    if s == "" then "" else [s[0]] + FoldTail(s[1..])
  }

  // No underscore stands before a lower-case letter.
  predicate Folded(s: string) {
    forall i :: 0 <= i < |s| - 1 && s[i] == '_' ==> !IsLower(s[i + 1])
  }

  lemma {:induction false} FoldKeepsSnake(s: string)
    ensures SnakeTail(FoldTail(s)) == SnakeTail(s)
    decreases |s|
  {
    if s != "" {
      if |s| > 1 && s[0] == '_' && IsLower(s[1]) {
        FoldKeepsSnake(s[2..]);
        var t := FoldTail(s);
        assert t[1..] == FoldTail(s[2..]);
        assert s[1..][1..] == s[2..];
        assert SnakeTail(s) == "_" + ([s[1]] + SnakeTail(s[2..]));
        Regroup("_", [s[1]], SnakeTail(s[2..]));
      } else {
        FoldKeepsSnake(s[1..]);
        assert FoldTail(s)[1..] == FoldTail(s[1..]);
      }
    }
  }

  lemma {:induction false} SnakeKeepsFold(s: string)
    ensures FoldTail(SnakeTail(s)) == FoldTail(s)
    decreases |s|
  {
    if s != "" {
      SnakeKeepsFold(s[1..]);
      var t, rest := SnakeTail(s), SnakeTail(s[1..]);
      if IsUpper(s[0]) {
        assert t[1] == ToLower(s[0]) && t[2..] == rest;
      } else {
        assert t == [s[0]] + rest && t[1..] == rest;
        if |s| > 1 {
          TailStarts(s[1..]);
          SnakeKeepsFold(s[2..]);
          assert s[1..][1..] == s[2..];
          if s[0] == '_' && IsLower(s[1]) { assert rest[1..] == SnakeTail(s[2..]) && t[2..] == rest[1..]; }
        }
      }
    }
  }

  lemma TailStarts(s: string)
    requires s != ""
    ensures SnakeTail(s) != "" && SnakeTail(s)[0] == if IsUpper(s[0]) then '_' else s[0]
    ensures !IsUpper(s[0]) ==> SnakeTail(s)[1..] == SnakeTail(s[1..])
  {
  }

  function Unsnake(t: string): string {
    if t == "" then "" else [ToUpper(t[0])] + FoldTail(t[1..])
  }

  lemma {:induction false} FoldedTailIsFixed(s: string)
    requires Folded(s)
    ensures FoldTail(s) == s
    decreases |s|
  {
    if s != "" {
      assert forall i :: 0 <= i < |s| - 1 ==> s[1..][i] == s[i + 1];
      FoldedTailIsFixed(s[1..]);
    }
  }

  lemma FoldedIsFixed(s: string)
    requires Folded(s)
    ensures Fold(s) == s
  {
    if s != "" {
      assert forall i :: 0 <= i < |s| - 1 ==> s[1..][i] == s[i + 1];
      FoldedTailIsFixed(s[1..]);
    }
  }

  // Undoing snake gives the folded name: the name itself when no underscore
  // stands before a lower-case letter.
  lemma SnakeRoundTrip(s: string)
    requires IsExported(s)
    ensures Unsnake(Snake(s)) == Fold(s)
    ensures Folded(s) ==> Unsnake(Snake(s)) == s
  {
    SnakeKeepsFold(s[1..]);
    assert Snake(s)[1..] == SnakeTail(s[1..]);
    if Folded(s) { FoldedIsFixed(s); }
  }

  // Two exported names share a snake name exactly when they fold alike.
  lemma SnakeCollidesExactly(a: string, b: string)
    requires IsExported(a) && IsExported(b)
    ensures Snake(a) == Snake(b) <==> Fold(a) == Fold(b)
  {
    SnakeRoundTrip(a);
    SnakeRoundTrip(b);
    SnakeOfFold(a);
    SnakeOfFold(b);
  }

  lemma SnakeOfFold(s: string)
    requires IsExported(s)
    ensures Snake(Fold(s)) == Snake(s)
  {
    FoldKeepsSnake(s[1..]);
    assert Fold(s)[1..] == FoldTail(s[1..]);
  }

  // Hence snake is injective on the exported names with no underscore before a
  // lower-case letter.
  lemma SnakeIsInjective(a: string, b: string)
    requires IsExported(a) && IsExported(b) && Folded(a) && Folded(b)
    ensures Snake(a) == Snake(b) <==> a == b
  {
    SnakeCollidesExactly(a, b);
    FoldedIsFixed(a);
    FoldedIsFixed(b);
  }

  // Joining two snake names with an underscore is the snake name of the
  // concatenation.
  lemma SnakeJoins(a: string, b: string)
    requires a != "" && b != "" && IsUpper(b[0])
    ensures Snake(a) + "_" + Snake(b) == Snake(a + b)
  {
    hide Snake, SnakeTail;
    UpperTail(b);
    SnakeAppend(a, b);
    Regroup(Snake(a), "_", Snake(b));
  }

  lemma Regroup(x: string, y: string, z: string)
    ensures x + y + z == x + (y + z)
  {
  }

  lemma UpperTail(b: string)
    requires b != "" && IsUpper(b[0])
    ensures SnakeTail(b) == "_" + Snake(b)
  {
    assert SnakeTail(b) == "_" + [ToLower(b[0])] + SnakeTail(b[1..]);
  }

  // Two different exported names that fold alike.
  lemma UnderscoreNamesCollide()
    ensures "GetItem" != "Get_item" && Fold("Get_item") == Fold("GetItem") && Snake("GetItem") == Snake("Get_item")
  {
    assert Folded("GetItem");
    FoldedIsFixed("GetItem");
    assert Folded("tem");
    FoldedTailIsFixed("tem");
    assert "_item"[2..] == "tem" && FoldTail("_item") == "Item";
    assert "t_item"[1..] == "_item" && FoldTail("t_item") == "tItem";
    assert "et_item"[1..] == "t_item" && FoldTail("et_item") == "etItem";
    assert "Get_item"[1..] == "et_item";
    SnakeCollidesExactly("GetItem", "Get_item");
  }

  // ---------------------------------------------------------------------
  // Service files
  // ---------------------------------------------------------------------

  // handlerDeclarationPath and serverStubPath, for a handler type.
  function DeclarationPath(handlerType: string): string {
    Snake(handlerType) + ".go"
  }

  function StubPath(handlerType: string, method_: string): string {
    Snake(handlerType) + "_" + Snake(method_) + ".go"
  }

  lemma StubIsDeclarationOfConcat(t: string, m: string)
    requires IsExported(t) && IsExported(m)
    ensures IsExported(t + m) && StubPath(t, m) == DeclarationPath(t + m)
  {
    SnakeJoins(t, m);
  }

  lemma SameFile(a: string, b: string)
    requires IsExported(a) && IsExported(b)
    ensures DeclarationPath(a) == DeclarationPath(b) <==> Fold(a) == Fold(b)
  {
    hide Snake, Fold;
    SnakeCollidesExactly(a, b);
    if DeclarationPath(a) == DeclarationPath(b) {
      assert Snake(a) == DeclarationPath(a)[..|DeclarationPath(a)| - 3];
      assert Snake(b) == DeclarationPath(b)[..|DeclarationPath(b)| - 3];
    }
  }

  lemma {:induction false} FoldTailJoins(a: string, b: string)
    requires b != "" && !IsLower(b[0])
    ensures FoldTail(a + b) == FoldTail(a) + FoldTail(b)
    decreases |a|
  {
    hide FoldTail, ToUpper, IsLower;
    FoldTailEmpty();
    if a == "" {
      assert a + b == b;
    } else {
      FoldStep(a);
      FoldStep(a + b);
      assert (a + b)[1..] == a[1..] + b;
      FoldTailJoins(a[1..], b);
      Regroup([a[0]], FoldTail(a[1..]), FoldTail(b));
      if |a| > 1 {
        assert (a + b)[1] == a[1] && (a + b)[2..] == a[2..] + b;
        FoldTailJoins(a[2..], b);
        Regroup([ToUpper(a[1])], FoldTail(a[2..]), FoldTail(b));
      }
    }
  }

  lemma FoldTailEmpty()
    ensures FoldTail("") == ""
  {
  }

  lemma FoldStep(s: string)
    requires s != ""
    ensures FoldTail(s) ==
      if |s| > 1 && s[0] == '_' && IsLower(s[1]) then [ToUpper(s[1])] + FoldTail(s[2..]) else [s[0]] + FoldTail(s[1..])
  {
  }

  lemma FoldJoins(a: string, b: string)
    requires IsExported(a) && IsExported(b)
    ensures Fold(a + b) == Fold(a) + Fold(b)
  {
    assert (a + b)[1..] == a[1..] + b;
    FoldTailJoins(a[1..], b);
    assert FoldTail(b) == Fold(b);
    Regroup([a[0]], FoldTail(a[1..]), Fold(b));
  }

  // Two generated service files collide exactly when handler type and method
  // name, folded, concatenate to the same string.
  lemma FilesCollideExactly(t: string, m: string, u: string, n: string)
    requires IsExported(t) && IsExported(m) && IsExported(u) && IsExported(n)
    ensures StubPath(t, m) == StubPath(u, n) <==> Fold(t) + Fold(m) == Fold(u) + Fold(n)
    ensures DeclarationPath(t) == DeclarationPath(u) <==> Fold(t) == Fold(u)
    ensures DeclarationPath(t) == StubPath(u, n) <==> Fold(t) == Fold(u) + Fold(n)
  {
    hide DeclarationPath, StubPath, Fold;
    StubIsDeclarationOfConcat(t, m);
    StubIsDeclarationOfConcat(u, n);
    FoldJoins(t, m);
    FoldJoins(u, n);
    SameFile(t + m, u + n);
    SameFile(t, u);
    SameFile(t, u + n);
  }

  // With no underscore before a lower-case letter in any of the names, the
  // names themselves decide.
  lemma FoldedFilesCollideExactly(t: string, m: string, u: string, n: string)
    requires IsExported(t) && IsExported(m) && IsExported(u) && IsExported(n)
    requires Folded(t) && Folded(m) && Folded(u) && Folded(n)
    ensures StubPath(t, m) == StubPath(u, n) <==> t + m == u + n
    ensures DeclarationPath(t) == DeclarationPath(u) <==> t == u
    ensures DeclarationPath(t) == StubPath(u, n) <==> t == u + n
  {
    hide DeclarationPath, StubPath, Fold, Folded;
    FilesCollideExactly(t, m, u, n);
    FoldedIsFixed(t);
    FoldedIsFixed(m);
    FoldedIsFixed(u);
    FoldedIsFixed(n);
  }

  // The files of one binding: its declaration and one stub per method.
  function Files(handlerType: string, methods: seq<string>): seq<string> {
    [DeclarationPath(handlerType)] + seq(|methods|, i requires 0 <= i < |methods| => StubPath(handlerType, methods[i]))
  }

  ghost predicate NoDuplicates(xs: seq<string>) {
    forall i, j :: 0 <= i < j < |xs| ==> xs[i] != xs[j]
  }

  // The files of one binding are pairwise different exactly when its method
  // names are pairwise different after folding.
  lemma OneBindingCollidesExactly(handlerType: string, methods: seq<string>)
    requires IsExported(handlerType)
    requires forall i :: 0 <= i < |methods| ==> IsExported(methods[i])
    ensures NoDuplicates(Files(handlerType, methods)) <==>
              forall i, j :: 0 <= i < j < |methods| ==> Fold(methods[i]) != Fold(methods[j])
  {
    hide Fold, DeclarationPath, StubPath, IsExported;
    forall i, j | 0 <= i < j < |methods|
      ensures StubPath(handlerType, methods[i]) == StubPath(handlerType, methods[j]) <==>
        Fold(methods[i]) == Fold(methods[j])
    {
      StubsCollideExactly(handlerType, methods[i], methods[j]);
    }
    forall i | 0 <= i < |methods| ensures DeclarationPath(handlerType) != StubPath(handlerType, methods[i]) {
      StubIsNotDeclaration(handlerType, methods[i]);
    }
    FilesDiffer(handlerType, methods);
  }

  lemma FilesDiffer(handlerType: string, methods: seq<string>)
    ensures NoDuplicates(Files(handlerType, methods)) <==>
              && (forall i :: 0 <= i < |methods| ==> DeclarationPath(handlerType) != StubPath(handlerType, methods[i]))
              && (forall i, j :: 0 <= i < j < |methods| ==>
                    StubPath(handlerType, methods[i]) != StubPath(handlerType, methods[j]))
  {
    hide DeclarationPath, StubPath;
    var files := Files(handlerType, methods);
    if NoDuplicates(files) {
      forall i | 0 <= i < |methods| ensures DeclarationPath(handlerType) != StubPath(handlerType, methods[i]) {
        assert files[0] != files[i + 1];
      }
      forall i, j | 0 <= i < j < |methods|
        ensures StubPath(handlerType, methods[i]) != StubPath(handlerType, methods[j])
      {
        assert files[i + 1] != files[j + 1];
      }
    }
  }

  // Distinct method names with no underscore before a lower-case letter never
  // collide within one binding.
  lemma OneBindingNeverCollides(handlerType: string, methods: seq<string>)
    requires IsExported(handlerType) && NoDuplicates(methods)
    requires forall i :: 0 <= i < |methods| ==> IsExported(methods[i]) && Folded(methods[i])
    ensures NoDuplicates(Files(handlerType, methods))
  {
    hide Fold, Folded, IsExported, Files;
    OneBindingCollidesExactly(handlerType, methods);
    forall i | 0 <= i < |methods| ensures Fold(methods[i]) == methods[i] {
      FoldedIsFixed(methods[i]);
    }
  }

  lemma StubIsNotDeclaration(t: string, m: string)
    requires IsExported(t) && IsExported(m)
    ensures DeclarationPath(t) != StubPath(t, m)
  {
    hide Snake;
    assert |StubPath(t, m)| > |DeclarationPath(t)|;
  }

  lemma StubsCollideExactly(t: string, m: string, n: string)
    requires IsExported(t) && IsExported(m) && IsExported(n)
    ensures StubPath(t, m) == StubPath(t, n) <==> Fold(m) == Fold(n)
  {
    hide DeclarationPath, StubPath, Fold;
    FilesCollideExactly(t, m, t, n);
    assert Fold(m) == (Fold(t) + Fold(m))[|Fold(t)|..] && Fold(n) == (Fold(t) + Fold(n))[|Fold(t)|..];
  }

  // ---------------------------------------------------------------------
  // Exported, handler and client names
  // ---------------------------------------------------------------------

  predicate IsSeparator(c: char) {
    c == '_' || c == '-'
  }

  // exported: drops separators and capitalises what follows one.
  function Capitalize(s: string, start: bool): string
    decreases |s|
  {
    if s == "" then ""
    else if IsSeparator(s[0]) then Capitalize(s[1..], true)
    else [if start then ToUpper(s[0]) else s[0]] + Capitalize(s[1..], false)
  }

  function Exported(s: string): string {
    Capitalize(s, true)
  }

  predicate IsIdentifierPart(c: char) {
    IsLetter(c) || IsDigit(c) || c == '_'
  }

  predicate ExportedIdentifier(s: string) {
    s != "" && IsUpper(s[0]) && forall i :: 0 <= i < |s| ==> IsIdentifierPart(s[i])
  }

  predicate ValidHandlerName(s: string) {
    ExportedIdentifier(s) && !HasSuffix(s, "Handler")
  }

  function NormalizeHandlerName(s: string): string {
    TrimSuffix(Exported(Trim(s)), "Handler")
  }

  function DefaultHandlerName(service: string): string {
    var original := Trim(service);
    var base := TrimSuffix(original, "Service");
    var bare := if HasSuffix(base, "Handler") then TrimSuffix(base, "Handler") else base;
    var chosen := if bare == "" then original else bare;
    if HasSuffix(chosen, "Handler") then "RPC" else chosen
  }

  predicate ValidName(s: string) {
    s != "" && forall i :: 0 <= i < |s| ==> IsLetter(s[i]) || s[i] == '_' || (i > 0 && IsDigit(s[i]))
  }

  function DefaultClientName(service: string): string {
    Snake(TrimSuffix(service, "Service"))
  }

  // The default handler name of an exported service name is always valid.
  lemma DefaultHandlerIsValid(service: string)
    requires ExportedIdentifier(service)
    ensures ValidHandlerName(DefaultHandlerName(service))
  {
    IdentifierIsTrimmed(service);
    hide Trim, IsIdentifierPart;
    var base := TrimSuffix(service, "Service");
    var bare := if HasSuffix(base, "Handler") then TrimSuffix(base, "Handler") else base;
    SuffixOfIdentifier(service, "Service");
    if base != "" { SuffixOfIdentifier(base, "Handler"); }
    assert bare == "" || ExportedIdentifier(bare);
    RpcIsIdentifier();
  }

  lemma IdentifierIsTrimmed(s: string)
    requires ExportedIdentifier(s)
    ensures Trim(s) == s
  {
    hide Trim;
    assert IsIdentifierPart(s[0]) && IsIdentifierPart(s[|s| - 1]);
    assert Trimmed(s);
    TrimmedStays(s);
  }

  lemma TrimmedStays(s: string)
    requires Trimmed(s)
    ensures Trim(s) == s
  {
  }

  lemma SuffixOfIdentifier(s: string, suffix: string)
    requires ExportedIdentifier(s)
    ensures TrimSuffix(s, suffix) == "" || ExportedIdentifier(TrimSuffix(s, suffix))
  {
    hide IsIdentifierPart, IsUpper;
  }

  lemma RpcIsIdentifier()
    ensures ExportedIdentifier("RPC") && !HasSuffix("RPC", "Handler")
  {
  }
}
