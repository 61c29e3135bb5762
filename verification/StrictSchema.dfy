/**
 Strict tool schemas: the conversion that makes every property required, with a null
 alternative for optional ones, over the JSON Schema keywords the conversion looks at,
 together with a validator that says what a schema accepts.
 */
module StrictSchema {
  import opened Prelude

  datatype Value =
    | Null
    | Bool(b: bool)
    | Num(n: int)
    | Str(s: string)
    | Arr(items: seq<Value>)
    | Obj(members: map<string, Value>)

  predicate Scalar(v: Value) {
    !v.Arr? && !v.Obj?
  }

  datatype TypeWord = NoType | One(name: string) | Many(names: seq<string>)

  datatype Property = Property(name: string, schema: Schema)

  /** Absent, well-formed and ill-formed values of the keywords the conversion checks. */
  datatype Properties = NoProperties | Map(list: seq<Property>) | BadProperties
  datatype Required = NoRequired | Names(names: seq<string>) | BadRequired
  datatype Additional = NoAdditional | Closed | OtherAdditional
  datatype Items = NoItems | Each(schema: Schema) | Tuple
  datatype AnyOf = NoAnyOf | Variants(list: seq<Schema>) | BadAnyOf

  datatype Schema =
    | Boolean(b: bool)
    | Node(
        typ: TypeWord,
        properties: Properties,
        required: Required,
        additional: Additional,
        items: Items,
        anyOf: AnyOf,
        constant: Option<Value>,
        enumeration: Option<seq<Value>>,
        unsupported: bool      // carries one of the keywords strict mode rejects
      )

  const PLAIN := Node(NoType, NoProperties, NoRequired, NoAdditional, NoItems, NoAnyOf, None, None, false)
  const NULL_SCHEMA := PLAIN.(typ := One("null"))

  // ---- The conversion -----------------------------------------------------------------

  predicate TypeNamed(s: Schema, name: string) {
    s.Node? && match s.typ
               case NoType => false
               case One(n) => n == name
               case Many(ns) => name in ns
  }

  predicate Structured(s: Schema) {
    s.Node? && (TypeNamed(s, "object") || TypeNamed(s, "array") || !s.properties.NoProperties? || !s.items.NoItems?)
  }

  predicate AllowsNull(s: Schema) {
    s.Node? &&
    (|| TypeNamed(s, "null")
     || s.constant == Some(Null)
     || (s.enumeration.Some? && Null in s.enumeration.value)
     || (s.anyOf.Variants? && exists i :: 0 <= i < |s.anyOf.list| && AllowsNull(s.anyOf.list[i])))
  }

  function NamesOf(ps: seq<Property>): (names: seq<string>)
    ensures |names| == |ps| && forall i :: 0 <= i < |ps| ==> names[i] == ps[i].name
  {
    seq(|ps|, i requires 0 <= i < |ps| => ps[i].name)
  }

  function RequiredNames(s: Schema): seq<string> {
    if s.Node? && s.required.Names? then s.required.names else []
  }

  function PropertyList(s: Schema): seq<Property> {
    if s.Node? && s.properties.Map? then s.properties.list else []
  }

  predicate IsObject(s: Schema) {
    s.Node? && s.typ == One("object")
  }

  /** The checks on one node, without its subschemas. */
  predicate NodeOk(s: Schema) {
    && s.Node? && !s.unsupported
    && (!s.anyOf.NoAnyOf? ==> s.anyOf.Variants? && s.anyOf.list != [] && forall i :: 0 <= i < |s.anyOf.list| ==> !Structured(s.anyOf.list[i]))
    && !s.items.Tuple?
    && (if !IsObject(s) then s.properties.NoProperties?
        else
          && !s.additional.OtherAdditional? && !s.properties.BadProperties? && !s.required.BadRequired?
          && Distinct(RequiredNames(s))
          && forall i :: 0 <= i < |RequiredNames(s)| ==> RequiredNames(s)[i] in NamesOf(PropertyList(s)))
  }

  /** Whether the conversion succeeds. */
  predicate Convertible(s: Schema) {
    && NodeOk(s)
    && (s.anyOf.Variants? ==> forall i :: 0 <= i < |s.anyOf.list| ==> Convertible(s.anyOf.list[i]))
    && (s.items.Each? ==> Convertible(s.items.schema))
    && (s.properties.Map? ==> forall i :: 0 <= i < |s.properties.list| ==> Convertible(s.properties.list[i].schema))
  }

  /** An optional property whose converted schema does not allow null gets a null alternative. */
  predicate Wrapped(s: Schema, p: Property) {
    p.name !in RequiredNames(s) && !AllowsNull(p.schema)
  }

  function Wrap(s: Schema): Schema {
    PLAIN.(anyOf := Variants([s, NULL_SCHEMA]))
  }

  function Strict(s: Schema): (r: Schema)
    ensures r.Node? <==> s.Node?
  {
    if s.Boolean? then s
    else
      var variants := if s.anyOf.Variants? then Variants(StrictAll(s.anyOf.list)) else s.anyOf;
      var items := if s.items.Each? then Each(Strict(s.items.schema)) else s.items;
      var r := s.(anyOf := variants, items := items);
      if !IsObject(s) then r
      else
        var ps := if s.properties.Map? then Map(StrictProperties(s.properties.list, RequiredNames(s))) else s.properties;
        r.(properties := ps, required := Names(NamesOf(PropertyList(s))), additional := Closed)
  }

  function StrictAll(list: seq<Schema>): (r: seq<Schema>)
    ensures |r| == |list|
    ensures forall i :: 0 <= i < |list| ==> r[i] == Strict(list[i])
  {
    if list == [] then [] else [Strict(list[0])] + StrictAll(list[1..])
  }

  function StrictProperty(p: Property, required: seq<string>): Property {
    var r := Strict(p.schema);
    Property(p.name, if p.name in required || AllowsNull(r) then r else Wrap(r))
  }

  function StrictProperties(ps: seq<Property>, required: seq<string>): (r: seq<Property>)
    ensures |r| == |ps|
    ensures forall i :: 0 <= i < |ps| ==> r[i] == StrictProperty(ps[i], required)
  {
    if ps == [] then [] else [StrictProperty(ps[0], required)] + StrictProperties(ps[1..], required)
  }
}
