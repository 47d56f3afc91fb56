// The translation from Go model types to OpenAPI schemas
// (internal/generator/openapi/model.go).
module Schemas {
  import opened Text

  // ---------------------------------------------------------------------
  // Go types as the generator parses them
  // ---------------------------------------------------------------------

  // The tag of a field is the value of its json key, empty when it has none.
  datatype GoField = GoField(names: seq<string>, tag: string, fieldType: GoType)

  datatype GoType =
    | Ident(name: string)
    | Pointer(elem: GoType)
    | ArrayOf(elem: GoType)
    | MapOf(key: GoType, elem: GoType)
    | Selector(package: string, name: string)
    | Struct(fields: seq<GoField>)
    | Other

  type Models = m: map<string, GoType> | forall name :: name in m ==> m[name].Struct?

  predicate ExportedName(s: string) {
    s != "" && IsUpper(s[0])
  }

  // ---------------------------------------------------------------------
  // OpenAPI schemas
  // ---------------------------------------------------------------------

  datatype Format = NoFormat | DateTime | Int32 | Int64 | Float | Double

  datatype Kind = StringKind | BooleanKind | IntegerKind | NumberKind

  datatype Option<+T> = None | Some(value: T)

  datatype Schema =
    | Ref(model: string)
    | Simple(kind: Kind, format: Format, nullable: bool)
    | List(items: Schema, nullable: bool)
    | Object(properties: map<string, Schema>, required: set<string>, additional: Option<Schema>, nullable: bool)

  datatype Built = Built(schema: Schema, pointer: bool) | Unsupported

  // ---------------------------------------------------------------------
  // jsonField
  // ---------------------------------------------------------------------

  // The part of a tag before its first comma, and the options after it.
  function Head(tag: string): string {
    if tag == "" || tag[0] == ',' then "" else [tag[0]] + Head(tag[1..])
  }

  function SplitComma(tag: string): (parts: seq<string>)
    ensures |parts| >= 1 && parts[0] == Head(tag)
  {
    if tag == "" then [""]
    else
      var rest := SplitComma(tag[1..]);
      if tag[0] == ',' then [""] + rest else [[tag[0]] + rest[0]] + rest[1..]
  }

  predicate HasOption(tag: string, option: string) {
    option in SplitComma(tag)[1..]
  }

  predicate Skipped(tag: string) {
    Head(tag) == "-"
  }

  function JsonName(goName: string, tag: string): string {
    if Head(tag) == "" then goName else Head(tag)
  }

  predicate OmitEmpty(tag: string) {
    HasOption(tag, "omitempty")
  }

  // ---------------------------------------------------------------------
  // schemaForExpr and structSchema
  // ---------------------------------------------------------------------

  function PrimitiveSchema(name: string): Option<Schema> {
    if name == "string" then Some(Simple(StringKind, NoFormat, false))
    else if name == "bool" then Some(Simple(BooleanKind, NoFormat, false))
    else if name == "int" || name == "int32" then Some(Simple(IntegerKind, Int32, false))
    else if name == "int64" then Some(Simple(IntegerKind, Int64, false))
    else if name == "float32" then Some(Simple(NumberKind, Float, false))
    else if name == "float64" then Some(Simple(NumberKind, Double, false))
    else None
  }

  // A reference has no value to mark.
  function MarkNullable(s: Schema): Schema {
    match s
    case Ref(_) => s
    case Simple(kind, format, _) => Simple(kind, format, true)
    case List(items, _) => List(items, true)
    case Object(properties, required, additional, _) => Object(properties, required, additional, true)
  }

  datatype Members = Members(properties: map<string, Schema>, required: set<string>) | Failed

  function AddName(m: Members, goName: string, tag: string, schema: Schema, pointer: bool): (r: Members)
    requires m.Members?
    ensures r.Members?
  {
    if !ExportedName(goName) then m
    else
      var key := JsonName(goName, tag);
      Members(m.properties[key := schema],
              if !OmitEmpty(tag) && !pointer then m.required + {key} else m.required)
  }

  function AddNames(m: Members, names: seq<string>, tag: string, schema: Schema, pointer: bool): (r: Members)
    requires m.Members?
    ensures r.Members?
  {
    if names == [] then m
    else AddName(AddNames(m, names[..|names| - 1], tag, schema, pointer), names[|names| - 1], tag, schema, pointer)
  }

  // A field contributes when one of its names is exported and it is not skipped.
  predicate Contributes(f: GoField) {
    !Skipped(f.tag) && exists name :: name in f.names && ExportedName(name)
  }

  function SchemaFor(c: Models, t: GoType): Built
    decreases t, 0
  {
    match t
    case Pointer(elem) =>
      (match SchemaFor(c, elem)
       case Unsupported => Unsupported
       case Built(schema, _) => Built(MarkNullable(schema), true))
    case Ident(name) =>
      if PrimitiveSchema(name).Some? then Built(PrimitiveSchema(name).value, false)
      else if name in c then Built(Ref(name), false)
      else Unsupported
    case ArrayOf(elem) =>
      (match SchemaFor(c, elem)
       case Unsupported => Unsupported
       case Built(schema, _) => Built(List(schema, false), false))
    case MapOf(key, elem) =>
      if key != Ident("string") then Unsupported
      else
        (match SchemaFor(c, elem)
         case Unsupported => Unsupported
         case Built(schema, _) => Built(Object(map[], {}, Some(schema), false), false))
    case Selector(package, name) =>
      if package == "time" && name == "Time" then Built(Simple(StringKind, DateTime, false), false) else Unsupported
    case Struct(fields) =>
      (match MembersOf(c, t, |fields|)
       case Failed => Unsupported
       case Members(properties, required) => Built(Object(properties, required, None, false), false))
    case Other => Unsupported
  }

  // The properties and required names after the first n fields.
  function MembersOf(c: Models, t: GoType, n: nat): Members
    requires t.Struct? && n <= |t.fields|
    decreases t, 0, n
  {
    if n == 0 then Members(map[], {})
    else
      var before := MembersOf(c, t, n - 1);
      var f := t.fields[n - 1];
      if before.Failed? || f.names == [] then Failed
      else if !Contributes(f) then before
      else
        match SchemaFor(c, f.fieldType)
        case Unsupported => Failed
        case Built(schema, pointer) => AddNames(before, f.names, f.tag, schema, pointer)
  }

  method BuildSchema(c: Models, t: GoType) returns (r: Built)
    ensures r == SchemaFor(c, t)
    decreases t, 1
  {
    match t
    case Pointer(elem) =>
      r := BuildSchema(c, elem);
      if r.Built? { r := Built(MarkNullable(r.schema), true); }
    case Ident(name) =>
      if PrimitiveSchema(name).Some? { return Built(PrimitiveSchema(name).value, false); }
      if name in c { return Built(Ref(name), false); }
      return Unsupported;
    case ArrayOf(elem) =>
      r := BuildSchema(c, elem);
      if r.Built? { r := Built(List(r.schema, false), false); }
    case MapOf(key, elem) =>
      if key != Ident("string") { return Unsupported; }
      r := BuildSchema(c, elem);
      if r.Built? { r := Built(Object(map[], {}, Some(r.schema), false), false); }
    case Selector(package, name) =>
      if package == "time" && name == "Time" { return Built(Simple(StringKind, DateTime, false), false); }
      return Unsupported;
    case Struct(_) =>
      var members := BuildStruct(c, t);
      if members.Failed? { return Unsupported; }
      return Built(Object(members.properties, members.required, None, false), false);
    case Other => return Unsupported;
  }

  method BuildStruct(c: Models, t: GoType) returns (members: Members)
    requires t.Struct?
    ensures members == MembersOf(c, t, |t.fields|)
    decreases t, 0
  {
    hide SchemaFor, AddName, Head, SplitComma;
    members := Members(map[], {});
    for n := 0 to |t.fields|
      invariant members.Members? && members == MembersOf(c, t, n)
    {
      var f := t.fields[n];
      if f.names == [] { FailureLasts(c, t, n + 1); return Failed; }
      ghost var start := members;
      for k := 0 to |f.names|
        invariant members.Members?
        invariant Skipped(f.tag) ==> members == start
        invariant !Skipped(f.tag) && (exists name :: name in f.names[..k] && ExportedName(name)) ==>
                    SchemaFor(c, f.fieldType).Built?
        invariant !Skipped(f.tag) ==>
                    if SchemaFor(c, f.fieldType).Built?
                    then members == AddNames(start, f.names[..k], f.tag, SchemaFor(c, f.fieldType).schema,
                        SchemaFor(c, f.fieldType).pointer)
                    else members == start
      {
        var name := f.names[k];
        assert f.names[..k + 1] == f.names[..k] + [name];
        assert f.names[..k + 1][..k] == f.names[..k];
        if ExportedName(name) && !Skipped(f.tag) {
          var property := BuildSchema(c, f.fieldType);
          if property.Unsupported? {
            assert Contributes(f) by { assert name in f.names; }
            FailureLasts(c, t, n + 1);
            return Failed;
          }
          members := AddName(members, name, f.tag, property.schema, property.pointer);
        } else if !Skipped(f.tag) {
          NotAdded(members, name, f.tag, SchemaFor(c, f.fieldType));
        }
      }
      assert f.names[..|f.names|] == f.names;
      assert Contributes(f) ==> SchemaFor(c, f.fieldType).Built?;
      if !Contributes(f) && !Skipped(f.tag) && SchemaFor(c, f.fieldType).Built? {
        NoneAdded(start, f.names, f.tag, SchemaFor(c, f.fieldType));
      }
    }
  }

  lemma NotAdded(m: Members, name: string, tag: string, built: Built)
    requires m.Members? && !ExportedName(name)
    ensures built.Built? ==> AddName(m, name, tag, built.schema, built.pointer) == m
  {
  }

  lemma {:induction false} NoneAdded(m: Members, names: seq<string>, tag: string, built: Built)
    requires m.Members? && built.Built? && forall name :: name in names ==> !ExportedName(name)
    ensures AddNames(m, names, tag, built.schema, built.pointer) == m
    decreases |names|
  {
    if names != [] { NoneAdded(m, names[..|names| - 1], tag, built); }
  }

  lemma {:induction false} FailureLasts(c: Models, t: GoType, n: nat)
    requires t.Struct? && n <= |t.fields| && MembersOf(c, t, n).Failed?
    ensures MembersOf(c, t, |t.fields|).Failed?
    decreases |t.fields| - n
  {
    if n < |t.fields| { FailureLasts(c, t, n + 1); }
  }

  // Every model becomes a component; one unsupported model fails them all.
  ghost predicate ComponentsOf(c: Models, components: map<string, Schema>) {
    components.Keys == c.Keys
    && forall name :: name in c ==> SchemaFor(c, c[name]) == Built(components[name], false)
  }

  method BuildComponents(c: Models) returns (ok: bool, components: map<string, Schema>)
    ensures ok <==> forall name :: name in c ==> SchemaFor(c, c[name]).Built?
    ensures ok ==> ComponentsOf(c, components)
  {
    hide SchemaFor;
    components := map[];
    var names := c.Keys;
    while names != {}
      invariant names <= c.Keys && components.Keys == c.Keys - names
      invariant forall name :: name in components ==> SchemaFor(c, c[name]) == Built(components[name], false)
      decreases |names|
    {
      var name :| name in names;
      var built := BuildModel(c, name);
      if built.Unsupported? { return false, components; }
      components := components[name := built.schema];
      names := names - {name};
    }
    ok := true;
  }

  method BuildModel(c: Models, name: string) returns (r: Built)
    requires name in c
    ensures r == SchemaFor(c, c[name])
    ensures r.Built? ==> !r.pointer
  {
    hide MembersOf;
    var members := BuildStruct(c, c[name]);
    if members.Failed? { return Unsupported; }
    return Built(Object(members.properties, members.required, None, false), false);
  }
}
