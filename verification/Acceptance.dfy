// What the schema of a Go type accepts, said of the type alone: which types
// have a schema, and exactly which JSON values it takes.
module Acceptance {
  import opened Schemas
  import opened Decoding

  // ---------------------------------------------------------------------
  // Which types have a schema
  // ---------------------------------------------------------------------

  const PRIMITIVES: set<string> := {"string", "bool", "int", "int32", "int64", "float32", "float64"}

  ghost predicate Supported(c: Models, t: GoType) {
    match t
    case Ident(name) => name in PRIMITIVES || name in c
    case Pointer(elem) => Supported(c, elem)
    case ArrayOf(elem) => Supported(c, elem)
    case MapOf(key, elem) => key == Ident("string") && Supported(c, elem)
    case Selector(package, name) => package == "time" && name == "Time"
    case Struct(fields) =>
      forall i :: 0 <= i < |fields| ==>
        fields[i].names != [] && (Contributes(fields[i]) ==> Supported(c, fields[i].fieldType))
    case Other => false
  }

  // A schema is built exactly for the supported types.
  lemma {:induction false} BuiltExactly(c: Models, t: GoType)
    ensures SchemaFor(c, t).Built? <==> Supported(c, t)
    decreases t, 0
  {
    hide MembersOf;
    match t
    case Pointer(elem) => BuiltExactly(c, elem);
    case ArrayOf(elem) => BuiltExactly(c, elem);
    case MapOf(_, elem) => BuiltExactly(c, elem);
    case Struct(fields) => MembersExactly(c, t, |fields|);
    case _ =>
  }

  lemma {:induction false} MembersExactly(c: Models, t: GoType, n: nat)
    requires t.Struct? && n <= |t.fields|
    ensures MembersOf(c, t, n).Members? <==>
              forall i :: 0 <= i < n ==>
                t.fields[i].names != [] && (Contributes(t.fields[i]) ==> Supported(c, t.fields[i].fieldType))
    decreases t, 0, n
  {
    hide SchemaFor, AddNames, Contributes;
    if n > 0 {
      MembersExactly(c, t, n - 1);
      BuiltExactly(c, t.fields[n - 1].fieldType);
    }
  }

  // All models get a component exactly when all are supported.
  lemma ComponentsExactly(c: Models)
    ensures (forall name :: name in c ==> SchemaFor(c, c[name]).Built?) <==>
              forall name :: name in c ==> Supported(c, c[name])
  {
    hide SchemaFor, Supported;
    forall name | name in c ensures SchemaFor(c, c[name]).Built? <==> Supported(c, c[name]) {
      BuiltExactly(c, c[name]);
    }
  }

  // ---------------------------------------------------------------------
  // The properties of a struct, whatever its tags
  // ---------------------------------------------------------------------

  // The last field with this JSON name among the first n.
  ghost predicate LastField(t: GoType, n: nat, i: nat, key: string)
    requires t.Struct?
  {
    i < n && FieldKey(t, i, key) && forall k: nat :: i < k < n ==> !FieldKey(t, k, key)
  }

  // A field with this JSON name that is neither a pointer nor omitempty.
  ghost predicate Demands(t: GoType, i: nat, key: string)
    requires t.Struct?
  {
    FieldKey(t, i, key) && !OmitEmpty(t.fields[i].tag) && !t.fields[i].fieldType.Pointer?
  }

  // What one more field does to the properties.
  lemma PropertiesStep(c: Models, t: GoType, n: nat, key: string)
    requires t.Struct? && 0 < n <= |t.fields| && MembersOf(c, t, n).Members?
    ensures MembersOf(c, t, n - 1).Members?
    ensures
      var before, after, built := MembersOf(c, t, n - 1), MembersOf(c, t, n), SchemaFor(c, t.fields[n - 1].fieldType);
      if FieldKey(t, n - 1, key)
      then
        && built.Built? && key in after.properties && after.properties[key] == built.schema
        && (key in after.required <==> key in before.required || Demands(t, n - 1, key))
      else
        && (key in after.properties <==> key in before.properties)
        && (key in before.properties ==> after.properties[key] == before.properties[key])
        && (key in after.required <==> key in before.required)
  {
    hide NamesKey, Skipped, OmitEmpty, AddNames, Contributes, SchemaFor;
    var f := t.fields[n - 1];
    NotSkippedWhenContributing(f);
    if FieldKey(t, n - 1, key) { KeyContributes(t, n - 1, key); }
    if Contributes(f) {
      var built := SchemaFor(c, f.fieldType);
      PointerFlag(c, f.fieldType);
      AddNamesMeans(MembersOf(c, t, n - 1), f.names, f.tag, built.schema, built.pointer, key);
    }
  }

  // Where fields share a JSON name, the last one gives the property, and any
  // of them can make it required.
  lemma {:induction false} PropertiesExactly(c: Models, t: GoType, n: nat, key: string)
    requires t.Struct? && n <= |t.fields| && MembersOf(c, t, n).Members?
    ensures key in MembersOf(c, t, n).properties <==> exists i: nat :: i < n && FieldKey(t, i, key)
    ensures forall i: nat :: LastField(t, n, i, key) ==>
              SchemaFor(c, t.fields[i].fieldType).Built?
              && key in MembersOf(c, t, n).properties
              && MembersOf(c, t, n).properties[key] == SchemaFor(c, t.fields[i].fieldType).schema
    ensures key in MembersOf(c, t, n).required <==> exists i: nat :: i < n && Demands(t, i, key)
    decreases n
  {
    hide FieldKey, MembersOf, SchemaFor;
    if n == 0 {
      NoMembers(c, t);
    } else {
      PropertiesStep(c, t, n, key);
      PropertiesExactly(c, t, n - 1, key);
      forall i: nat | LastField(t, n, i, key) && i < n - 1 ensures LastField(t, n - 1, i, key) {}
    }
  }

  lemma NoMembers(c: Models, t: GoType)
    requires t.Struct?
    ensures MembersOf(c, t, 0) == Members(map[], {})
  {
  }

  lemma {:induction false} SomeLastField(t: GoType, n: nat, key: string) returns (i: nat)
    requires t.Struct? && exists k: nat :: k < n && FieldKey(t, k, key)
    ensures LastField(t, n, i, key)
    decreases n
  {
    hide FieldKey;
    if FieldKey(t, n - 1, key) {
      i := n - 1;
    } else {
      i := SomeLastField(t, n - 1, key);
    }
  }

  // ---------------------------------------------------------------------
  // The JSON form of a type
  // ---------------------------------------------------------------------

  // A pointer, of any depth, to a model.
  predicate IsModel(t: GoType) {
    if t.Pointer? then IsModel(t.elem) else t.Ident? && t.name !in PRIMITIVES
  }

  // The values of a supported type as its schema sees them: numbers within the
  // range of their format, arrays of any length, maps with any keys, date-time
  // strings, null for a pointer that does not lead to a model, and objects with
  // every demanded name.
  ghost predicate Fits(pf: Platform, c: Models, t: GoType, j: Json)
    decreases j, 1, t
  {
    match t
    case Ident(name) =>
      (match name
       case "string" => j.String?
       case "bool" => j.Boolean?
       case "int" => j.Number? && InInt32(j.n)
       case "int32" => j.Number? && InInt32(j.n)
       case "int64" => j.Number? && InInt64(j.n)
       case "float32" => j.Number?
       case "float64" => j.Number?
       case _ => name in c && FitsStruct(pf, c, c[name], j))
    case Pointer(elem) => Fits(pf, c, elem, j) || (j.Null? && !IsModel(elem))
    case ArrayOf(elem) => j.Array? && forall i :: 0 <= i < |j.items| ==> Fits(pf, c, elem, j.items[i])
    case MapOf(_, elem) => j.Dict? && forall key :: key in j.members ==> Fits(pf, c, elem, j.members[key])
    case Selector(_, _) => j.String? && pf.isDateTime(j.s)
    case Struct(_) => FitsStruct(pf, c, t, j)
    case Other => false
  }

  ghost predicate FitsStruct(pf: Platform, c: Models, t: GoType, j: Json)
    requires t.Struct?
    decreases j, 0
  {
    && j.Dict?
    && (forall i: nat, key :: Demands(t, i, key) ==> key in j.members)
    && (forall i: nat, key :: LastField(t, |t.fields|, i, key) && key in j.members ==>
          Fits(pf, c, t.fields[i].fieldType, j.members[key]))
  }

  lemma MarkedAccepts(pf: Platform, components: map<string, Schema>, s: Schema, j: Json)
    ensures Accepts(pf, components, MarkNullable(s), j) <==>
              Accepts(pf, components, s, j) || (j.Null? && !s.Ref?)
  {
    hide AcceptsSimple;
  }

  lemma {:induction false} RefersToModel(c: Models, t: GoType)
    requires SchemaFor(c, t).Built?
    ensures SchemaFor(c, t).schema.Ref? <==> IsModel(t)
  {
    hide MembersOf;
    if t.Pointer? { RefersToModel(c, t.elem); }
  }

  lemma PrimitivesAreNamed(name: string)
    ensures PrimitiveSchema(name).Some? <==> name in PRIMITIVES
  {
  }

  lemma PrimitiveAcceptsExactly(pf: Platform, c: Models, components: map<string, Schema>, name: string, j: Json)
    requires name in PRIMITIVES
    ensures PrimitiveSchema(name).Some?
    ensures Accepts(pf, components, PrimitiveSchema(name).value, j) <==> Fits(pf, c, Ident(name), j)
  {
  }

  lemma DateAcceptsExactly(pf: Platform, components: map<string, Schema>, j: Json)
    ensures Accepts(pf, components, Simple(StringKind, DateTime, false), j) <==> j.String? && pf.isDateTime(j.s)
  {
  }

  // The schema of a supported type accepts exactly the JSON form of the type.
  lemma {:induction false} AcceptsExactly(pf: Platform, c: Models, components: map<string, Schema>, t: GoType, j: Json)
    requires ComponentsOf(c, components) && Supported(c, t)
    ensures SchemaFor(c, t).Built?
    ensures Accepts(pf, components, SchemaFor(c, t).schema, j) <==> Fits(pf, c, t, j)
    decreases j, 1, t
  {
    hide ComponentsOf, MembersOf, FitsStruct, MarkNullable, AcceptsSimple, InInt32, InInt64, PrimitiveSchema;
    BuiltExactly(c, t);
    match t {
      case Pointer(elem) =>
        BuiltExactly(c, elem);
        AcceptsExactly(pf, c, components, elem, j);
        MarkedAccepts(pf, components, SchemaFor(c, elem).schema, j);
        RefersToModel(c, elem);
      case Ident(name) =>
        if name in PRIMITIVES {
          PrimitiveAcceptsExactly(pf, c, components, name, j);
        } else {
          PrimitivesAreNamed(name);
          ModelComponent(c, components, name);
          StructAcceptsExactly(pf, c, components, c[name], j);
        }
      case ArrayOf(elem) =>
        BuiltExactly(c, elem);
        if j.Array? {
          forall i | 0 <= i < |j.items|
            ensures Accepts(pf, components, SchemaFor(c, elem).schema, j.items[i]) <==> Fits(pf, c, elem, j.items[i])
          {
            AcceptsExactly(pf, c, components, elem, j.items[i]);
          }
        }
      case MapOf(_, elem) =>
        BuiltExactly(c, elem);
        if j.Dict? {
          forall key | key in j.members
            ensures Accepts(pf, components, SchemaFor(c, elem).schema, j.members[key]) <==>
                      Fits(pf, c, elem, j.members[key])
          {
            AcceptsExactly(pf, c, components, elem, j.members[key]);
          }
        }
      case Selector(_, _) => DateAcceptsExactly(pf, components, j);
      case Struct(_) => StructAcceptsExactly(pf, c, components, t, j);
      case Other =>
    }
  }

  lemma ModelComponent(c: Models, components: map<string, Schema>, name: string)
    requires ComponentsOf(c, components) && name in c
    ensures c[name].Struct? && Supported(c, c[name])
    ensures name in components && SchemaFor(c, c[name]) == Built(components[name], false) && !components[name].Ref?
  {
    hide Supported;
    BuiltExactly(c, c[name]);
  }

  lemma {:induction false} StructAcceptsExactly(pf: Platform, c: Models, components: map<string, Schema>, t: GoType,
      j: Json)
    requires ComponentsOf(c, components) && t.Struct? && Supported(c, t)
    ensures SchemaFor(c, t).Built?
    ensures Accepts(pf, components, SchemaFor(c, t).schema, j) <==> FitsStruct(pf, c, t, j)
    decreases j, 0
  {
    hide ComponentsOf, MembersOf, Supported, FieldKey, LastField, Demands;
    BuiltExactly(c, t);
    if j.Dict? {
      var s := SchemaFor(c, t).schema;
      forall i: nat, key | LastField(t, |t.fields|, i, key) ensures i < |t.fields| { FieldIsSupported(c, t, i, key); }
      forall key
        ensures key in s.properties <==> exists i: nat :: LastField(t, |t.fields|, i, key)
        ensures key in s.required <==> exists i: nat :: Demands(t, i, key)
        ensures forall i: nat :: i < |t.fields| && LastField(t, |t.fields|, i, key) && key in j.members ==>
                  key in s.properties
                  && (Accepts(pf, components, s.properties[key], j.members[key]) <==>
                        Fits(pf, c, t.fields[i].fieldType, j.members[key]))
      {
        KeyExactly(c, t, key);
        forall i: nat | i < |t.fields| && LastField(t, |t.fields|, i, key) && key in j.members
          ensures key in s.properties
          ensures Accepts(pf, components, s.properties[key], j.members[key]) <==>
                    Fits(pf, c, t.fields[i].fieldType, j.members[key])
        {
          FieldIsSupported(c, t, i, key);
          KeyExactly(c, t, key);
          AcceptsExactly(pf, c, components, t.fields[i].fieldType, j.members[key]);
        }
      }
    }
  }

  lemma KeyExactly(c: Models, t: GoType, key: string)
    requires t.Struct? && SchemaFor(c, t).Built?
    ensures SchemaFor(c, t).schema.Object? && SchemaFor(c, t).schema.additional.None? &&
      !SchemaFor(c, t).schema.nullable
    ensures
      var s := SchemaFor(c, t).schema;
      && (key in s.properties <==> exists i: nat :: LastField(t, |t.fields|, i, key))
      && (key in s.required <==> exists i: nat :: Demands(t, i, key))
      && forall i: nat :: LastField(t, |t.fields|, i, key) ==>
           SchemaFor(c, t.fields[i].fieldType).Built?
           && key in s.properties && s.properties[key] == SchemaFor(c, t.fields[i].fieldType).schema
  {
    hide MembersOf, NamesKey, OmitEmpty;
    PropertiesExactly(c, t, |t.fields|, key);
    if exists i: nat :: i < |t.fields| && FieldKey(t, i, key) {
      var i := SomeLastField(t, |t.fields|, key);
    }
  }

  lemma FieldIsSupported(c: Models, t: GoType, i: nat, key: string)
    requires t.Struct? && Supported(c, t) && LastField(t, |t.fields|, i, key)
    ensures i < |t.fields| && Supported(c, t.fields[i].fieldType)
  {
    hide Contributes, NamesKey;
    KeyContributes(t, i, key);
  }

  // ---------------------------------------------------------------------
  // Formats and nullability
  // ---------------------------------------------------------------------

  predicate IsNullable(s: Schema) {
    match s
    case Ref(_) => false
    case Simple(_, _, nullable) => nullable
    case List(_, nullable) => nullable
    case Object(_, _, _, nullable) => nullable
  }

  // A schema is marked nullable exactly for a pointer that does not lead to a
  // model, and the formats tell the number types apart but for int and int32.
  lemma MarksExactly(c: Models, t: GoType)
    requires Supported(c, t)
    ensures SchemaFor(c, t).Built?
    ensures IsNullable(SchemaFor(c, t).schema) <==> t.Pointer? && !IsModel(t)
    ensures SchemaFor(c, t).pointer <==> t.Pointer?
  {
    hide MembersOf;
    BuiltExactly(c, t);
    PointerFlag(c, t);
    if t.Pointer? { RefersToModel(c, t.elem); }
  }

  lemma FormatsExactly(c: Models, a: string, b: string)
    requires a in PRIMITIVES && b in PRIMITIVES
    ensures SchemaFor(c, Ident(a)).Built? && SchemaFor(c, Ident(b)).Built?
    ensures SchemaFor(c, Ident(a)) == SchemaFor(c, Ident(b)) <==> a == b || {a, b} == {"int", "int32"}
    ensures SchemaFor(c, Ident(a)).schema.Simple?
    ensures SchemaFor(c, Ident(a)).schema.format ==
      match a
      case "int" => Int32
      case "int32" => Int32
      case "int64" => Int64
      case "float32" => Float
      case "float64" => Double
      case _ => NoFormat
  {
    assert a in {a, b} && b in {a, b};
  }

  // ---------------------------------------------------------------------
  // Go values that a schema refuses
  // ---------------------------------------------------------------------

  // An int beyond 32 bits, and the null that a nil slice or map is written as,
  // decode but are refused.
  lemma NarrowerThanGo(pf: Platform, c: Models, components: map<string, Schema>, elem: GoType)
    requires pf.wide && ComponentsOf(c, components) && Supported(c, elem)
    ensures
      var large := Number(2147483648.0);
      Decodes(pf, c, Ident("int"), large, true) && !Accepts(pf, components, SchemaFor(c, Ident("int")).schema, large)
    ensures
      var list := ArrayOf(elem);
      SchemaFor(c, list).Built? && Decodes(pf, c, list, Null, false) &&
        !Accepts(pf, components, SchemaFor(c, list).schema, Null)
    ensures
      var table := MapOf(Ident("string"), elem);
      SchemaFor(c, table).Built? && Decodes(pf, c, table, Null, false) &&
        !Accepts(pf, components, SchemaFor(c, table).schema, Null)
  {
    hide ComponentsOf, Supported;
    BuiltExactly(c, elem);
    assert (2147483648.0 as real).Floor == 0x8000_0000;
  }
}
