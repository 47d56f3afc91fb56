// Soundness of the schemas: a JSON value that the schema of a Go type accepts
// (sections 4.4 and 4.7.24 of OpenAPI 3.0.3) decodes into the type with the
// rules of encoding/json, and brings a value for every field that is neither a
// pointer nor omitempty.
module Decoding {
  import opened Text
  import opened Schemas

  // Keys are matched exactly, and numbers are mathematical values.
  datatype Json =
    | Null
    | Boolean(b: bool)
    | Number(n: real)
    | String(s: string)
    | Array(items: seq<Json>)
    | Dict(members: map<string, Json>)

  // What the theorem does not depend on: which strings are date-times, which
  // strings hold a quoted literal, and whether int has 64 bits.
  datatype Platform = Platform(isDateTime: string -> bool, isQuoted: (string, string) -> bool, wide: bool)

  predicate Integral(n: real) {
    n == n.Floor as real
  }

  predicate InInt32(n: real) {
    Integral(n) && -0x8000_0000 <= n.Floor < 0x8000_0000
  }

  predicate InInt64(n: real) {
    Integral(n) && -0x8000_0000_0000_0000 <= n.Floor < 0x8000_0000_0000_0000
  }

  // ---------------------------------------------------------------------
  // Acceptance by a schema
  // ---------------------------------------------------------------------

  ghost predicate AcceptsSimple(pf: Platform, kind: Kind, format: Format, j: Json) {
    match kind
    case StringKind => j.String? && (format == DateTime ==> pf.isDateTime(j.s))
    case BooleanKind => j.Boolean?
    case IntegerKind =>
      j.Number? && Integral(j.n) && (format == Int32 ==> InInt32(j.n)) && (format == Int64 ==> InInt64(j.n))
    case NumberKind => j.Number?
  }

  ghost predicate Accepts(pf: Platform, components: map<string, Schema>, s: Schema, j: Json)
    decreases j, if s.Ref? then 1 else 0
  {
    match s
    case Ref(model) =>
      model in components && !components[model].Ref? && Accepts(pf, components, components[model], j)
    case Simple(kind, format, nullable) => (nullable && j.Null?) || AcceptsSimple(pf, kind, format, j)
    case List(items, nullable) =>
      (nullable && j.Null?) || (j.Array? && forall i :: 0 <= i < |j.items| ==>
          Accepts(pf, components, items, j.items[i]))
    case Object(properties, required, additional, nullable) =>
      || (nullable && j.Null?)
      || (&& j.Dict?
          && (forall key :: key in required ==> key in j.members)
          && (forall key :: key in j.members ==>
                if key in properties then Accepts(pf, components, properties[key], j.members[key])
                else additional.Some? ==> Accepts(pf, components, additional.value, j.members[key])))
  }

  // ---------------------------------------------------------------------
  // Decoding into a Go type
  // ---------------------------------------------------------------------

  // The characters encoding/json allows in the name of a tag.
  predicate ValidTagName(name: string) {
    name != "" && forall i :: 0 <= i < |name| ==>
      IsLetter(name[i]) || IsDigit(name[i]) || name[i] in "!#$%&()*+-./:;<=>?@[]^_{|}~ "
  }

  // The key under which encoding/json decodes a field, if any.
  function DecodeKey(goName: string, tag: string): Option<string> {
    if tag == "-" then None
    else if ValidTagName(Head(tag)) then Some(Head(tag))
    else Some(goName)
  }

  // The string option applies to a primitive and to a pointer to one.
  predicate Quotable(t: GoType) {
    (t.Ident? && PrimitiveSchema(t.name).Some?) || (t.Pointer? && t.elem.Ident? && PrimitiveSchema(t.elem.name).Some?)
  }

  predicate Quoted(f: GoField) {
    HasOption(f.tag, "string") && Quotable(f.fieldType)
  }

  ghost predicate DecodesPrimitive(pf: Platform, name: string, j: Json) {
    match name
    case "string" => j.String?
    case "bool" => j.Boolean?
    case "int" => j.Number? && if pf.wide then InInt64(j.n) else InInt32(j.n)
    case "int32" => j.Number? && InInt32(j.n)
    case "int64" => j.Number? && InInt64(j.n)
    case _ => j.Number?
  }

  ghost predicate DecodesQuoted(pf: Platform, t: GoType, j: Json)
    requires Quotable(t)
  {
    var name := if t.Ident? then t.name else t.elem.name;
    j.Null? || (j.String? && j.s != "" && pf.isQuoted(name, j.s))
  }

  // Decoding succeeds; null leaves any value as it is. With `full`, null is
  // taken only by pointers, and every struct gets a value for each field that
  // is neither a pointer nor omitempty.
  ghost predicate Decodes(pf: Platform, c: Models, t: GoType, j: Json, full: bool)
    decreases j, 1, t
  {
    match t
    case Pointer(elem) => j.Null? || Decodes(pf, c, elem, j, full)
    case Ident(name) =>
      if PrimitiveSchema(name).Some? then (j.Null? && !full) || DecodesPrimitive(pf, name, j)
      else name in c && DecodesStruct(pf, c, c[name], j, full)
    case ArrayOf(elem) =>
      || (j.Null? && !full)
      || (j.Array? && forall i :: 0 <= i < |j.items| ==> Decodes(pf, c, elem, j.items[i], full))
    case MapOf(_, elem) =>
      || (j.Null? && !full)
      || (j.Dict? && forall key :: key in j.members ==> Decodes(pf, c, elem, j.members[key], full))
    case Selector(_, _) => (j.Null? && !full) || (j.String? && pf.isDateTime(j.s))
    case Struct(_) => DecodesStruct(pf, c, t, j, full)
    case Other => false
  }

  // Field f, under one of its names, is decoded by the struct.
  ghost predicate IsField(t: GoType, f: GoField, goName: string)
    requires t.Struct?
  {
    f in t.fields && goName in f.names && ExportedName(goName)
  }

  ghost predicate DecodesStruct(pf: Platform, c: Models, t: GoType, j: Json, full: bool)
    requires t.Struct?
    decreases j, 0, 1
  {
    || (j.Null? && !full)
    || (&& j.Dict?
        && forall f, goName :: IsField(t, f, goName) && DecodeKey(goName, f.tag).Some? ==>
             DecodesField(pf, c, f, goName, j, full))
  }

  ghost predicate DecodesField(pf: Platform, c: Models, f: GoField, goName: string, j: Json, full: bool)
    requires j.Dict? && DecodeKey(goName, f.tag).Some?
    decreases j, 0, 0
  {
    var key := DecodeKey(goName, f.tag).value;
    && (key in j.members ==>
          if Quoted(f) then DecodesQuoted(pf, f.fieldType, j.members[key])
          else Decodes(pf, c, f.fieldType, j.members[key], full))
    && (full && !f.fieldType.Pointer? && !OmitEmpty(f.tag) ==> key in j.members)
  }

  // ---------------------------------------------------------------------
  // Tags that mean the same to the generator and to encoding/json
  // ---------------------------------------------------------------------

  // A tag that skips the field is exactly "-", a name in a tag is one that
  // encoding/json takes, and the string option is not in effect.
  predicate FaithfulTag(f: GoField) {
    && (Skipped(f.tag) ==> f.tag == "-")
    && (Head(f.tag) != "" ==> ValidTagName(Head(f.tag)))
    && !Quoted(f)
  }

  predicate HasExportedName(f: GoField) {
    exists name :: name in f.names && ExportedName(name)
  }

  // No two names decode from one key, not even two names of one declaration.
  ghost predicate DistinctNames(t: GoType)
    requires t.Struct?
  {
    forall i, a, k, b ::
      && 0 <= i < |t.fields| && 0 <= k < |t.fields|
      && 0 <= a < |t.fields[i].names| && 0 <= b < |t.fields[k].names|
      && ExportedName(t.fields[i].names[a]) && ExportedName(t.fields[k].names[b])
      && !Skipped(t.fields[i].tag) && !Skipped(t.fields[k].tag)
      && JsonName(t.fields[i].names[a], t.fields[i].tag) == JsonName(t.fields[k].names[b], t.fields[k].tag)
      ==> i == k && a == b
  }

  ghost predicate Faithful(t: GoType) {
    match t
    case Pointer(elem) => Faithful(elem)
    case ArrayOf(elem) => Faithful(elem)
    case MapOf(_, elem) => Faithful(elem)
    case Struct(fields) =>
      DistinctNames(t)
      && forall i :: 0 <= i < |fields| && HasExportedName(fields[i]) ==>
           FaithfulTag(fields[i]) && (fields[i].tag != "-" ==> Faithful(fields[i].fieldType))
    case _ => true
  }

  lemma SkipTag()
    ensures Head("-") == "-"
  {
    assert "-"[1..] == "";
  }

  // With a faithful tag both sides see the same key.
  lemma FaithfulKey(f: GoField, goName: string)
    requires FaithfulTag(f)
    ensures DecodeKey(goName, f.tag) == if Skipped(f.tag) then None else Some(JsonName(goName, f.tag))
  {
    hide HasOption, Quotable;
    SkipTag();
  }

  // ---------------------------------------------------------------------
  // What structSchema builds
  // ---------------------------------------------------------------------

  ghost predicate NamesKey(names: seq<string>, tag: string, key: string) {
    exists a :: 0 <= a < |names| && ExportedName(names[a]) && JsonName(names[a], tag) == key
  }

  lemma {:induction false} AddNamesMeans(m: Members, names: seq<string>, tag: string, schema: Schema, pointer: bool,
      key: string)
    requires m.Members?
    ensures var r := AddNames(m, names, tag, schema, pointer);
            if NamesKey(names, tag, key)
            then
              && key in r.properties && r.properties[key] == schema
              && (key in r.required <==> key in m.required || (!OmitEmpty(tag) && !pointer))
            else
              && (key in r.properties <==> key in m.properties)
              && (key in m.properties ==> r.properties[key] == m.properties[key])
              && (key in r.required <==> key in m.required)
    decreases |names|
  {
    hide JsonName, OmitEmpty, ExportedName;
    if names != [] {
      var n := |names| - 1;
      AddNamesMeans(m, names[..n], tag, schema, pointer, key);
      assert NamesKey(names, tag, key) <==>
        NamesKey(names[..n], tag, key) || (ExportedName(names[n]) && JsonName(names[n], tag) == key) by {
        if NamesKey(names[..n], tag, key) {
          var a :| 0 <= a < n && ExportedName(names[..n][a]) && JsonName(names[..n][a], tag) == key;
          assert names[a] == names[..n][a];
        }
        if NamesKey(names, tag, key) {
          var a :| 0 <= a < |names| && ExportedName(names[a]) && JsonName(names[a], tag) == key;
          if a < n { assert names[..n][a] == names[a]; }
        }
      }
    }
  }

  // Field i contributes the property `key`.
  ghost predicate FieldKey(t: GoType, i: nat, key: string)
    requires t.Struct?
  {
    i < |t.fields| && !Skipped(t.fields[i].tag) && NamesKey(t.fields[i].names, t.fields[i].tag, key)
  }

  lemma KeyContributes(t: GoType, i: nat, key: string)
    requires t.Struct? && FieldKey(t, i, key)
    ensures Contributes(t.fields[i])
  {
    var f := t.fields[i];
    var a :| 0 <= a < |f.names| && ExportedName(f.names[a]) && JsonName(f.names[a], f.tag) == key;
    assert f.names[a] in f.names;
  }

  lemma OneFieldPerKey(t: GoType, i: nat, k: nat, key: string)
    requires t.Struct? && DistinctNames(t) && FieldKey(t, i, key) && FieldKey(t, k, key)
    ensures i == k
  {
    hide JsonName, ExportedName, Skipped;
  }

  // The properties are exactly the JSON names of the fields that are not
  // skipped, each with the schema of its field; the required names are exactly
  // those of the fields that are neither pointers nor omitempty.
  lemma {:induction false} MembersMean(c: Models, t: GoType, n: nat, i: nat, key: string)
    requires t.Struct? && DistinctNames(t) && n <= |t.fields| && MembersOf(c, t, n).Members?
    ensures i < n && FieldKey(t, i, key) ==>
              var built := SchemaFor(c, t.fields[i].fieldType);
              && built.Built?
              && key in MembersOf(c, t, n).properties && MembersOf(c, t, n).properties[key] == built.schema
              && (key in MembersOf(c, t, n).required <==> !OmitEmpty(t.fields[i].tag) && !built.pointer)
    ensures (forall k: nat :: k < n ==> !FieldKey(t, k, key)) ==>
              key !in MembersOf(c, t, n).properties && key !in MembersOf(c, t, n).required
    decreases n
  {
    hide NamesKey, Skipped, OmitEmpty, AddNames, DistinctNames, Contributes;
    if n > 0 {
      var f := t.fields[n - 1];
      MembersMean(c, t, n - 1, i, key);
      if Contributes(f) {
        var built := SchemaFor(c, f.fieldType);
        AddNamesMeans(MembersOf(c, t, n - 1), f.names, f.tag, built.schema, built.pointer, key);
        if i < n - 1 && FieldKey(t, i, key) && FieldKey(t, n - 1, key) { OneFieldPerKey(t, i, n - 1, key); }
        if FieldKey(t, n - 1, key) {
          forall k: nat | k < n - 1 ensures !FieldKey(t, k, key) {
            if FieldKey(t, k, key) { OneFieldPerKey(t, k, n - 1, key); }
          }
        }
      } else if FieldKey(t, n - 1, key) {
        KeyContributes(t, n - 1, key);
      }
      NotSkippedWhenContributing(f);
    }
  }

  lemma NotSkippedWhenContributing(f: GoField)
    ensures Contributes(f) ==> !Skipped(f.tag)
  {
  }

  // ---------------------------------------------------------------------
  // Soundness
  // ---------------------------------------------------------------------

  ghost predicate Ready(c: Models, components: map<string, Schema>) {
    ComponentsOf(c, components) && forall name :: name in c ==> Faithful(c[name])
  }

  lemma NullabilityOnlyAddsNull(pf: Platform, components: map<string, Schema>, s: Schema, j: Json)
    requires !j.Null?
    ensures Accepts(pf, components, MarkNullable(s), j) ==> Accepts(pf, components, s, j)
  {
    hide AcceptsSimple;
  }

  lemma PointerFlag(c: Models, t: GoType)
    requires SchemaFor(c, t).Built?
    ensures SchemaFor(c, t).pointer <==> t.Pointer?
  {
    hide MembersOf;
  }

  // A schema that generation leaves unmarked takes no null.
  lemma NoNull(pf: Platform, c: Models, components: map<string, Schema>, t: GoType)
    requires SchemaFor(c, t).Built? && !t.Pointer? && ComponentsOf(c, components)
    ensures !Accepts(pf, components, SchemaFor(c, t).schema, Null)
  {
    hide MembersOf;
    if t.Ident? && !PrimitiveSchema(t.name).Some? {
      assert c[t.name].Struct?;
      assert SchemaFor(c, c[t.name]) == Built(components[t.name], false);
    }
  }

  lemma {:induction false} Sound(pf: Platform, c: Models, components: map<string, Schema>, t: GoType, j: Json,
      full: bool)
    requires Ready(c, components) && Faithful(t) && SchemaFor(c, t).Built?
    requires Accepts(pf, components, SchemaFor(c, t).schema, j)
    ensures Decodes(pf, c, t, j, full)
    decreases j, 1, t
  {
    hide Ready, MembersOf, DecodesStruct, MarkNullable;
    if !t.Pointer? { ReadyComponents(c, components); NoNull(pf, c, components, t); }
    match t {
      case Pointer(elem) =>
        if !j.Null? {
          NullabilityOnlyAddsNull(pf, components, SchemaFor(c, elem).schema, j);
          Sound(pf, c, components, elem, j, full);
        }
      case Ident(name) =>
        if !PrimitiveSchema(name).Some? {
          ReadyModel(c, components, name);
          SoundStruct(pf, c, components, c[name], j, full);
        }
      case ArrayOf(elem) =>
        forall i | 0 <= i < |j.items| ensures Decodes(pf, c, elem, j.items[i], full) {
          Sound(pf, c, components, elem, j.items[i], full);
        }
      case MapOf(_, elem) =>
        forall key | key in j.members ensures Decodes(pf, c, elem, j.members[key], full) {
          Sound(pf, c, components, elem, j.members[key], full);
        }
      case Selector(_, _) =>
      case Struct(_) => SoundStruct(pf, c, components, t, j, full);
      case Other =>
    }
  }

  lemma ReadyComponents(c: Models, components: map<string, Schema>)
    requires Ready(c, components)
    ensures ComponentsOf(c, components)
  {
  }

  lemma ReadyModel(c: Models, components: map<string, Schema>, name: string)
    requires Ready(c, components) && name in c
    ensures c[name].Struct? && Faithful(c[name])
    ensures name in components && SchemaFor(c, c[name]) == Built(components[name], false)
  {
  }

  lemma {:induction false} SoundStruct(pf: Platform, c: Models, components: map<string, Schema>, t: GoType, j: Json,
      full: bool)
    requires Ready(c, components) && t.Struct? && Faithful(t) && SchemaFor(c, t).Built?
    requires Accepts(pf, components, SchemaFor(c, t).schema, j)
    ensures DecodesStruct(pf, c, t, j, full)
    decreases j, 0
  {
    hide Ready, MembersOf, NamesKey, ExportedName, DistinctNames, HasOption, Quotable, Quoted, FaithfulTag, DecodeKey,
      JsonName, Skipped, OmitEmpty;
    var s := SchemaFor(c, t).schema;
    assert j.Dict?;
    forall f, goName | IsField(t, f, goName) && DecodeKey(goName, f.tag).Some?
      ensures DecodesField(pf, c, f, goName, j, full)
    {
      var i := FieldIndex(t, f, goName);
      FieldSchema(pf, c, components, t, i, goName, j);
      var key := DecodeKey(goName, f.tag).value;
      if key in j.members {
        Sound(pf, c, components, f.fieldType, j.members[key], full);
      }
    }
  }

  lemma FieldIndex(t: GoType, f: GoField, goName: string) returns (i: nat)
    requires t.Struct? && IsField(t, f, goName)
    ensures i < |t.fields| && t.fields[i] == f && goName in f.names && ExportedName(goName)
  {
    i :| 0 <= i < |t.fields| && t.fields[i] == f;
  }

  lemma FieldSchema(pf: Platform, c: Models, components: map<string, Schema>, t: GoType, i: nat, goName: string,
      j: Json)
    requires Ready(c, components) && t.Struct? && Faithful(t) && SchemaFor(c, t).Built?
    requires Accepts(pf, components, SchemaFor(c, t).schema, j) && j.Dict?
    requires i < |t.fields| && goName in t.fields[i].names && ExportedName(goName)
    requires DecodeKey(goName, t.fields[i].tag).Some?
    ensures var f := t.fields[i];
            var key := DecodeKey(goName, f.tag).value;
            && Faithful(f.fieldType) && !Quoted(f) && SchemaFor(c, f.fieldType).Built?
            && (key in j.members ==> Accepts(pf, components, SchemaFor(c, f.fieldType).schema, j.members[key]))
            && (!f.fieldType.Pointer? && !OmitEmpty(f.tag) ==> key in j.members)
  {
    hide Ready, MembersOf, ExportedName, DistinctNames, HasOption, Quotable, JsonName, OmitEmpty, DecodeKey, Head;
    var f := t.fields[i];
    assert HasExportedName(f);
    FaithfulKey(f, goName);
    SkipTag();
    var key := DecodeKey(goName, f.tag).value;
    assert FieldKey(t, i, key);
    MembersMean(c, t, |t.fields|, i, key);
    PointerFlag(c, f.fieldType);
  }

  // Every value the schema accepts decodes, with every required field there.
  lemma SchemasAreSound(pf: Platform, c: Models, components: map<string, Schema>, t: GoType, j: Json)
    requires Ready(c, components) && Faithful(t) && SchemaFor(c, t).Built?
    requires Accepts(pf, components, SchemaFor(c, t).schema, j)
    ensures Decodes(pf, c, t, j, true) && Decodes(pf, c, t, j, false)
  {
    hide *;
    Sound(pf, c, components, t, j, true);
    Sound(pf, c, components, t, j, false);
  }

  // ---------------------------------------------------------------------
  // Where the translation is not sound
  // ---------------------------------------------------------------------

  function OneField(goName: string, tag: string, primitive: string): GoType {
    Struct([GoField([goName], tag, Ident(primitive))])
  }

  ghost predicate SoundFor(pf: Platform, c: Models, components: map<string, Schema>, t: GoType)
    requires SchemaFor(c, t).Built?
  {
    forall j :: Accepts(pf, components, SchemaFor(c, t).schema, j) ==> Decodes(pf, c, t, j, true)
  }

  // A value that the schema of a primitive accepts and that is not a quoted
  // literal.
  function Sample(primitive: string): Json {
    if primitive == "string" then String("")
    else if primitive == "bool" then Boolean(true)
    else Number(0.0)
  }

  lemma SampleIsAccepted(pf: Platform, components: map<string, Schema>, primitive: string)
    requires PrimitiveSchema(primitive).Some?
    ensures Accepts(pf, components, PrimitiveSchema(primitive).value, Sample(primitive))
  {
    assert (0.0 as real).Floor == 0;
  }

  // The schema of a one-field struct.
  lemma OneFieldSchema(c: Models, goName: string, tag: string, primitive: string)
    requires ExportedName(goName) && PrimitiveSchema(primitive).Some?
    ensures var t := OneField(goName, tag, primitive);
            SchemaFor(c, t) == Built(
              if Skipped(tag) then Object(map[], {}, None, false)
              else
                var key := JsonName(goName, tag);
                Object(map[key := PrimitiveSchema(primitive).value], if OmitEmpty(tag) then {} else {key}, None, false),
              false)
  {
    hide JsonName, OmitEmpty, Head;
    var f := GoField([goName], tag, Ident(primitive));
    var t := OneField(goName, tag, primitive);
    assert t.fields[0] == f;
    assert goName in f.names;
    assert Contributes(f) <==> !Skipped(tag);
    var start := Members(map[], {});
    var schema := PrimitiveSchema(primitive).value;
    assert [goName][..0] == [];
    assert AddNames(start, [], tag, schema, false) == start;
    assert AddNames(start, [goName], tag, schema, false) == AddName(start, goName, tag, schema, false);
    assert MembersOf(c, t, 0) == start;
    assert MembersOf(c, t, 1) == if Skipped(tag) then start else AddNames(start, [goName], tag, schema, false);
    assert |t.fields| == 1;
    assert {} + {JsonName(goName, tag)} == {JsonName(goName, tag)};
  }

  // A value that shows an unfaithful tag unsound.
  function Witness(goName: string, tag: string, primitive: string): Json {
    if Skipped(tag) then Dict(map["-" := Array([])])
    else if !ValidTagName(Head(tag)) && Head(tag) != "" then
      Dict(map[Head(tag) := Sample(primitive), goName := Array([])])
    else Dict(map[JsonName(goName, tag) := Sample(primitive)])
  }

  predicate IdentifierName(s: string) {
    ExportedName(s) && forall i :: 0 <= i < |s| ==> IsLetter(s[i]) || IsDigit(s[i]) || s[i] == '_'
  }

  lemma WitnessIsAccepted(pf: Platform, c: Models, components: map<string, Schema>, goName: string, tag: string,
      primitive: string)
    requires IdentifierName(goName) && PrimitiveSchema(primitive).Some? &&
      !FaithfulTag(GoField([goName], tag, Ident(primitive)))
    ensures SchemaFor(c, OneField(goName, tag, primitive)).Built?
    ensures Accepts(pf, components, SchemaFor(c, OneField(goName, tag, primitive)).schema,
      Witness(goName, tag, primitive))
  {
    hide OmitEmpty, Head, HasOption, SchemaFor, MembersOf, PrimitiveSchema, Sample, AcceptsSimple, ValidTagName;
    OneFieldSchema(c, goName, tag, primitive);
    SampleIsAccepted(pf, components, primitive);
    NameIsValid(goName);
  }

  lemma NameIsValid(goName: string)
    requires IdentifierName(goName)
    ensures ValidTagName(goName)
  {
  }

  lemma WitnessIsNotDecoded(pf: Platform, c: Models, goName: string, tag: string, primitive: string)
    requires IdentifierName(goName) && PrimitiveSchema(primitive).Some? &&
      !FaithfulTag(GoField([goName], tag, Ident(primitive)))
    ensures !Decodes(pf, c, OneField(goName, tag, primitive), Witness(goName, tag, primitive), true)
  {
    hide OmitEmpty, Head, HasOption, ValidTagName;
    var f := GoField([goName], tag, Ident(primitive));
    var t := OneField(goName, tag, primitive);
    var j := Witness(goName, tag, primitive);
    assert t.fields[0] == f;
    assert IsField(t, f, goName);
    NameIsValid(goName);
    DashIsValid();
    DashIsFaithful(f);
    assert DecodeKey(goName, tag).Some?;
    assert !DecodesField(pf, c, f, goName, j, true);
  }

  lemma DashIsFaithful(f: GoField)
    ensures f.tag == "-" ==> FaithfulTag(f)
  {
    SkipTag();
    assert "-"[1..] == "";
    assert SplitComma("-")[1..] == [];
  }

  lemma DashIsValid()
    ensures ValidTagName("-") && !ValidTagName("") && Head("-") == "-" && Head("") == ""
  {
    SkipTag();
  }

  // For a struct with one primitive field the schema is sound exactly when the
  // tag is faithful, whatever the tag.
  lemma OneFieldIsSoundExactly(pf: Platform, c: Models, components: map<string, Schema>, goName: string, tag: string,
      primitive: string)
    requires Ready(c, components) && IdentifierName(goName) && PrimitiveSchema(primitive).Some?
    ensures var t := OneField(goName, tag, primitive);
            && SchemaFor(c, t).Built?
            && (SoundFor(pf, c, components, t) <==> FaithfulTag(GoField([goName], tag, Ident(primitive))))
  {
    hide Ready, SchemaFor, Accepts, Decodes, FaithfulTag, Witness, PrimitiveSchema, Head;
    var f := GoField([goName], tag, Ident(primitive));
    var t := OneField(goName, tag, primitive);
    OneFieldSchema(c, goName, tag, primitive);
    if FaithfulTag(f) {
      assert t.fields == [f];
      assert Faithful(t);
      forall j | Accepts(pf, components, SchemaFor(c, t).schema, j) ensures Decodes(pf, c, t, j, true) {
        SchemasAreSound(pf, c, components, t, j);
      }
    } else {
      WitnessIsAccepted(pf, c, components, goName, tag, primitive);
      WitnessIsNotDecoded(pf, c, goName, tag, primitive);
    }
  }

  // The tag "-," names the key "-" for encoding/json, while the generator
  // skips the field.
  lemma DashCommaIsUnsound(pf: Platform)
    ensures var t := OneField("Count", "-,", "int");
            && SchemaFor(map[], t) == Built(Object(map[], {}, None, false), false)
            && Accepts(pf, map[], SchemaFor(map[], t).schema, Dict(map[]))
            && !Decodes(pf, map[], t, Dict(map[]), true)
  {
    hide HasOption, SchemaFor, PrimitiveSchema, Head, SplitComma, ValidTagName, Accepts, Decodes, Skipped;
    DashCommaHead();
    IntIsPrimitive();
    OneFieldSchema(map[], "Count", "-,", "int");
    EmptyIsAccepted(pf);
    NoOptionInDashComma();
    DashIsValid();
    FieldIsMissing(pf, "Count", "-,", "int");
  }

  lemma EmptyIsAccepted(pf: Platform)
    ensures Accepts(pf, map[], Object(map[], {}, None, false), Dict(map[]))
  {
  }

  lemma FieldIsMissing(pf: Platform, goName: string, tag: string, primitive: string)
    requires ExportedName(goName) && DecodeKey(goName, tag).Some? && !OmitEmpty(tag)
    ensures !Decodes(pf, map[], OneField(goName, tag, primitive), Dict(map[]), true)
  {
    hide OmitEmpty, DecodeKey;
    var t := OneField(goName, tag, primitive);
    var f := GoField([goName], tag, Ident(primitive));
    assert t.fields[0] == f && IsField(t, f, goName);
    assert !DecodesField(pf, map[], f, goName, Dict(map[]), true);
  }

  lemma DashCommaHead()
    ensures Head("-,") == "-" && Skipped("-,")
  {
    assert "-,"[1..] == "," && Head(",") == "";
  }

  lemma IntIsPrimitive()
    ensures PrimitiveSchema("int").Some?
  {
  }

  lemma NoOptionInDashComma()
    ensures !OmitEmpty("-,")
  {
    assert "-,"[1..] == "," && ","[1..] == "";
    assert SplitComma("") == [""];
    assert SplitComma(",") == ["", ""];
    assert SplitComma("-,")[1..] == [""];
  }
}
