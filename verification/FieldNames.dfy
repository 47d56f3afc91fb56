// Go fields, handlers and client names derived from what the user asks for
// (internal/generator/rpcbinding/binding.go).
module FieldNames {
  import opened Text
  import opened Naming

  // ---------------------------------------------------------------------
  // exported: the parts between separators, each with its first letter raised
  // ---------------------------------------------------------------------

  function WithoutSeparators(s: string): string {
    if s == "" then "" else (if IsSeparator(s[0]) then "" else [s[0]]) + WithoutSeparators(s[1..])
  }

  // The characters that begin a part.
  predicate BeginsPart(s: string, i: nat)
    requires i < |s|
  {
    !IsSeparator(s[i]) && (i == 0 || IsSeparator(s[i - 1]))
  }

  // Where the i-th character of s goes.
  function PositionOf(s: string, i: nat): nat
    requires i <= |s|
  {
    |WithoutSeparators(s[..i])|
  }

  lemma {:induction false} WithoutJoins(a: string, b: string)
    ensures WithoutSeparators(a + b) == WithoutSeparators(a) + WithoutSeparators(b)
    decreases |a|
  {
    if a == "" {
      assert a + b == b;
    } else {
      assert (a + b)[1..] == a[1..] + b;
      WithoutJoins(a[1..], b);
    }
  }

  lemma {:induction false} CapitalizeLength(s: string, start: bool)
    ensures |Capitalize(s, start)| == |WithoutSeparators(s)|
    decreases |s|
  {
    if s != "" { CapitalizeLength(s[1..], IsSeparator(s[0])); }
  }

  lemma {:induction false} CapitalizeAt(s: string, start: bool, i: nat)
    requires i < |s| && !IsSeparator(s[i])
    ensures PositionOf(s, i) < |Capitalize(s, start)|
    ensures Capitalize(s, start)[PositionOf(s, i)] ==
              if (if i == 0 then start else IsSeparator(s[i - 1])) then ToUpper(s[i]) else s[i]
    decreases |s|
  {
    if i == 0 {
      assert s[..0] == "";
    } else {
      CapitalizeAt(s[1..], IsSeparator(s[0]), i - 1);
      assert s[..i] == [s[0]] + s[1..][..i - 1];
      assert [s[0]][1..] == "";
      assert WithoutSeparators([s[0]]) == if IsSeparator(s[0]) then "" else [s[0]];
      WithoutJoins([s[0]], s[1..][..i - 1]);
    }
  }

  // The field keeps every character but the separators, in order, and raises
  // exactly those that begin a part.
  lemma ExportedExactly(s: string, i: nat)
    requires i < |s| && !IsSeparator(s[i])
    ensures |Exported(s)| == |WithoutSeparators(s)|
    ensures PositionOf(s, i) < |Exported(s)|
    ensures Exported(s)[PositionOf(s, i)] == if BeginsPart(s, i) then ToUpper(s[i]) else s[i]
  {
    CapitalizeLength(s, true);
    CapitalizeAt(s, true, i);
  }

  lemma {:induction false} NothingLeft(s: string)
    ensures Exported(s) == "" <==> forall i :: 0 <= i < |s| ==> IsSeparator(s[i])
  {
    CapitalizeLength(s, true);
    OnlySeparators(s);
  }

  lemma {:induction false} OnlySeparators(s: string)
    ensures WithoutSeparators(s) == "" <==> forall i :: 0 <= i < |s| ==> IsSeparator(s[i])
    decreases |s|
  {
    if s != "" {
      OnlySeparators(s[1..]);
      assert forall i :: 0 <= i < |s| - 1 ==> s[1..][i] == s[i + 1];
    }
  }

  // ---------------------------------------------------------------------
  // Client names and their fields
  // ---------------------------------------------------------------------

  function DropSeparators(s: string): string {
    if s != "" && IsSeparator(s[0]) then DropSeparators(s[1..]) else s
  }

  lemma {:induction false} CapitalizeDrops(s: string)
    ensures Capitalize(s, true) == Capitalize(DropSeparators(s), true)
    decreases |s|
  {
    if s != "" && IsSeparator(s[0]) { CapitalizeDrops(s[1..]); }
  }

  lemma {:induction false} CapitalizedPart(s: string, start: bool)
    requires forall i :: 0 <= i < |s| ==> IsIdentifierPart(s[i]) || IsSeparator(s[i])
    ensures forall i :: 0 <= i < |Capitalize(s, start)| ==> IsIdentifierPart(Capitalize(s, start)[i])
    decreases |s|
  {
    if s != "" { CapitalizedPart(s[1..], IsSeparator(s[0])); }
  }

  lemma {:induction false} DroppedKeeps(s: string)
    requires ValidName(s)
    ensures forall i :: 0 <= i < |DropSeparators(s)| ==> IsIdentifierPart(DropSeparators(s)[i])
    ensures DropSeparators(s) != "" ==> !IsSeparator(DropSeparators(s)[0])
    decreases |s|
  {
    DroppedIsSuffix(s);
  }

  lemma {:induction false} DroppedIsSuffix(s: string)
    ensures |DropSeparators(s)| <= |s| && DropSeparators(s) == s[|s| - |DropSeparators(s)|..]
    ensures DropSeparators(s) != "" ==> !IsSeparator(DropSeparators(s)[0])
    decreases |s|
  {
    if s != "" && IsSeparator(s[0]) {
      DroppedIsSuffix(s[1..]);
    }
  }

  // A client name gives a usable Go field exactly when its first character
  // that is not an underscore is a letter. The command only refuses names with
  // no such character at all.
  lemma FieldIsUsableExactly(name: string)
    requires ValidName(name)
    ensures Exported(name) != "" <==> DropSeparators(name) != ""
    ensures ExportedIdentifier(Exported(name)) <==> DropSeparators(name) != "" && IsLetter(DropSeparators(name)[0])
  {
    var s := DropSeparators(name);
    CapitalizeDrops(name);
    DroppedKeeps(name);
    CapitalizedPart(s, true);
    if s != "" { assert Capitalize(s, true)[0] == ToUpper(s[0]); }
  }

  // A name that is accepted although its field does not begin with a letter.
  lemma DigitFieldIsNotUsable()
    ensures ValidName("_1") && Exported("_1") == "1" && !ExportedIdentifier(Exported("_1"))
  {
    assert "_1"[1..] == "1" && "1"[1..] == "";
    assert Capitalize("1", true) == "1";
  }

  // ---------------------------------------------------------------------
  // Default client names
  // ---------------------------------------------------------------------

  lemma {:induction false} SnakeTailIsName(s: string)
    requires forall i :: 0 <= i < |s| ==> IsIdentifierPart(s[i])
    ensures forall i :: 0 <= i < |SnakeTail(s)| ==> IsIdentifierPart(SnakeTail(s)[i]) && !IsUpper(SnakeTail(s)[i])
    decreases |s|
  {
    if s != "" { SnakeTailIsName(s[1..]); }
  }

  // The default name of a client is valid for every exported service name but
  // "Service" itself, and gives a usable field.
  lemma DefaultClientExactly(service: string)
    requires ExportedIdentifier(service)
    ensures ValidName(DefaultClientName(service)) <==> service != "Service"
    ensures service != "Service" ==> ExportedIdentifier(Exported(DefaultClientName(service)))
  {
    assert service != "";
    hide IsIdentifierPart, ExportedIdentifier, Snake, Exported;
    var base := TrimSuffix(service, "Service");
    BaseIsPrefix(service);
    if base != "" {
      BaseIsExported(service, base);
      SnakeIsName(base);
      assert !IsSeparator(Snake(base)[0]) && DropSeparators(Snake(base)) == Snake(base);
      FieldIsUsableExactly(Snake(base));
    } else {
      EmptySnake();
    }
  }

  lemma EmptySnake()
    ensures Snake("") == ""
  {
  }

  lemma BaseIsPrefix(service: string)
    ensures TrimSuffix(service, "Service") <= service
    ensures TrimSuffix(service, "Service") == "" <==> service == "" || service == "Service"
  {
    if HasSuffix(service, "Service") && |service| == |"Service"| { assert service[0..] == service; }
    assert "Service"[0..] == "Service";
  }

  lemma BaseIsExported(service: string, base: string)
    requires ExportedIdentifier(service) && base <= service && base != ""
    ensures ExportedIdentifier(base)
  {
    assert forall i :: 0 <= i < |base| ==> base[i] == service[i];
  }

  lemma SnakeIsName(s: string)
    requires ExportedIdentifier(s)
    ensures ValidName(Snake(s)) && Snake(s) != "" && IsLetter(Snake(s)[0])
  {
    SnakeTailIsName(s[1..]);
    assert Snake(s)[1..] == SnakeTail(s[1..]);
    forall i | 0 < i < |Snake(s)| ensures Snake(s)[i] == SnakeTail(s[1..])[i - 1] {}
  }

  // ---------------------------------------------------------------------
  // Asking for a handler by its name
  // ---------------------------------------------------------------------

  lemma {:induction false} CapitalizeKeeps(s: string, start: bool)
    requires (forall i :: 0 <= i < |s| ==> IsIdentifierPart(s[i])) && (start && s != "" ==> !IsLower(s[0]))
    ensures Capitalize(s, start) == s <==> forall i :: 0 <= i < |s| ==> s[i] != '_'
    decreases |s|
  {
    CapitalizeLength(s, start);
    WithoutShortens(s);
    if s != "" && s[0] != '_' {
      CapitalizeKeeps(s[1..], false);
      assert Capitalize(s, start)[1..] == Capitalize(s[1..], false);
      assert Capitalize(s, start)[0] == s[0];
      assert s == [s[0]] + s[1..];
      assert forall i :: 0 <= i < |s| - 1 ==> s[1..][i] == s[i + 1];
    }
  }

  lemma {:induction false} WithoutShortens(s: string)
    ensures |WithoutSeparators(s)| <= |s|
    ensures s != "" && IsSeparator(s[0]) ==> |WithoutSeparators(s)| < |s|
    decreases |s|
  {
    if s != "" { WithoutShortens(s[1..]); }
  }

  // Asking for a valid handler name asks for that very name exactly when it
  // has no underscore.
  lemma AskedNameExactly(handler: string)
    requires ValidHandlerName(handler)
    ensures NormalizeHandlerName(Trim(handler)) == handler <==> forall i :: 0 <= i < |handler| ==> handler[i] != '_'
  {
    IdentifierIsTrimmed(handler);
    CapitalizeKeeps(handler, true);
    if Exported(handler) != handler && TrimSuffix(Exported(handler), "Handler") == handler {
      CapitalizeLength(handler, true);
      WithoutShortens(handler);
    }
  }

  // ---------------------------------------------------------------------
  // Default handler names
  // ---------------------------------------------------------------------

  // The default handler is the service name without "Service" and without one
  // "Handler" at its end; "RPC" exactly for a service called "Handler" and for
  // names that end in "Handler" twice.
  lemma DefaultHandlerExactly(service: string)
    requires ExportedIdentifier(service)
    ensures
      var handler := DefaultHandlerName(service);
      var stem := TrimSuffix(service, "Service");
      if service == "Handler" || HasSuffix(stem, "HandlerHandler")
      then handler == "RPC"
      else service in {handler, handler + "Service", handler + "Handler", handler + "HandlerService"}
  {
    IdentifierIsTrimmed(service);
    hide ExportedIdentifier, Trim;
    var stem := TrimSuffix(service, "Service");
    var bare := TrimSuffix(stem, "Handler");
    SuffixJoins(service, "Service");
    SuffixJoins(stem, "Handler");
    TwoHandlers(stem, bare);
    if stem == bare + "Handler" && service == stem + "Service" {
      assert service == bare + ("Handler" + "Service") && "Handler" + "Service" == "HandlerService";
    }
    if bare == "" && stem == bare + "Handler" { assert stem == "Handler"; }
    if stem == "" { assert service == "Service"; }
    if service == stem + "Service" { ServiceIsNoHandler(service, stem); }
  }

  lemma SuffixJoins(s: string, suffix: string)
    ensures s == TrimSuffix(s, suffix) || s == TrimSuffix(s, suffix) + suffix
    ensures HasSuffix(s, suffix) ==> s == TrimSuffix(s, suffix) + suffix
  {
  }

  lemma TwoHandlers(stem: string, bare: string)
    requires bare == TrimSuffix(stem, "Handler")
    ensures HasSuffix(stem, "HandlerHandler") <==> HasSuffix(stem, "Handler") && HasSuffix(bare, "Handler")
  {
    assert "HandlerHandler" == "Handler" + "Handler";
    if HasSuffix(stem, "Handler") {
      assert stem == bare + "Handler";
      if HasSuffix(bare, "Handler") {
        assert stem[|stem| - 14..] == bare[|bare| - 7..] + "Handler";
      }
    }
    if HasSuffix(stem, "HandlerHandler") {
      assert stem[|stem| - 7..] == stem[|stem| - 14..][7..] == "Handler";
      assert bare[|bare| - 7..] == stem[|stem| - 14..][..7] == "Handler";
    }
  }

  lemma ServiceIsNoHandler(service: string, stem: string)
    requires service == stem + "Service"
    ensures !HasSuffix(service, "Handler")
  {
    assert service[|service| - 1] == 'e';
    LastOfSuffix(service, "Handler");
  }

  lemma LastOfSuffix(s: string, suffix: string)
    requires s != "" && suffix != ""
    ensures HasSuffix(s, suffix) ==> s[|s| - 1] == suffix[|suffix| - 1]
  {
    if HasSuffix(s, suffix) { assert s[|s| - |suffix|..][|suffix| - 1] == s[|s| - 1]; }
  }
}
