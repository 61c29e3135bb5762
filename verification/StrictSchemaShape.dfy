/** Which schemas can be converted, which allow null, and what a converted object schema asks for. */
module StrictSchemaShape {
  import opened Prelude
  import opened StrictSchema
  import opened StrictSchemaProofs

  // ---- Which schemas can be converted -------------------------------------------------------------

  /** The schema itself and all schemas inside it satisfy a condition. */
  ghost predicate Everywhere(s: Schema, ok: Schema -> bool) {
    && ok(s)
    && (s.Node? && s.anyOf.Variants? ==> forall i :: 0 <= i < |s.anyOf.list| ==> Everywhere(s.anyOf.list[i], ok))
    && (s.Node? && s.items.Each? ==> Everywhere(s.items.schema, ok))
    && (s.Node? && s.properties.Map? ==> forall i :: 0 <= i < |s.properties.list| ==> Everywhere(s.properties.list[i].schema, ok))
  }

  predicate MentionsType(t: TypeWord, name: string) {
    t == One(name) || (t.Many? && name in t.names)
  }

  /** A union variant is no object or array schema, by its type or by its keywords. */
  predicate SimpleVariant(s: Schema) {
    s.Node? ==>
      && !MentionsType(s.typ, "object") && !MentionsType(s.typ, "array")
      && s.properties == NoProperties && s.items == NoItems
  }

  /** What the conversion demands of one schema: that it is not `true` or `false`, and of each keyword. */
  predicate Demands(s: Schema) {
    && s.Node? && s.unsupported == false
    && (match s.anyOf
        case NoAnyOf => true
        case BadAnyOf => false
        case Variants(list) => |list| > 0 && forall i :: 0 <= i < |list| ==> SimpleVariant(list[i]))
    && s.items != Tuple
    && (s.typ != One("object") ==> s.properties == NoProperties)
    && (s.typ == One("object") ==>
          && (s.additional == NoAdditional || s.additional == Closed)
          && s.properties != BadProperties
          && (match s.required
              case NoRequired => true
              case BadRequired => false
              case Names(names) =>
                (forall i, j :: 0 <= i < j < |names| ==> names[i] != names[j])
                && forall i :: 0 <= i < |names| ==> IsDeclared(s, names[i])))
  }

  lemma NodeDemands(s: Schema)
    ensures NodeOk(s) <==> Demands(s)
  {
    if s.Node? && s.anyOf.Variants? {
      forall i | 0 <= i < |s.anyOf.list| ensures Structured(s.anyOf.list[i]) <==> !SimpleVariant(s.anyOf.list[i]) {
        VariantDemands(s.anyOf.list[i]);
      }
    }
    if s.Node? && s.required.Names? {
      forall i | 0 <= i < |s.required.names|
        ensures s.required.names[i] in NamesOf(PropertyList(s)) <==> IsDeclared(s, s.required.names[i])
      {
        NamesAreDeclared(s, s.required.names[i]);
      }
    }
  }

  predicate IsDeclared(s: Schema, name: string)
    requires s.Node?
  {
    s.properties.Map? && exists j :: 0 <= j < |s.properties.list| && s.properties.list[j].name == name
  }

  lemma NamesAreDeclared(s: Schema, name: string)
    requires s.Node?
    ensures name in NamesOf(PropertyList(s)) <==> IsDeclared(s, name)
  {
    var declared := NamesOf(PropertyList(s));
    if j :| 0 <= j < |PropertyList(s)| && PropertyList(s)[j].name == name {
      assert declared[j] == name;
    }
  }

  lemma VariantDemands(s: Schema)
    ensures Structured(s) <==> !SimpleVariant(s)
  {}

  /** The conversion succeeds if and only if every schema inside meets its demands. */
  lemma {:induction false} ConvertibleExactly(s: Schema)
    ensures Convertible(s) <==> Everywhere(s, Demands)
  {
    hide NodeOk, Demands;
    NodeDemands(s);
    if s.Node? && s.anyOf.Variants? {
      forall i | 0 <= i < |s.anyOf.list| ensures Convertible(s.anyOf.list[i]) <==> Everywhere(s.anyOf.list[i], Demands) {
        ConvertibleExactly(s.anyOf.list[i]);
      }
    }
    if s.Node? && s.items.Each? {
      ConvertibleExactly(s.items.schema);
    }
    if s.Node? && s.properties.Map? {
      forall i | 0 <= i < |s.properties.list|
        ensures Convertible(s.properties.list[i].schema) <==> Everywhere(s.properties.list[i].schema, Demands)
      {
        ConvertibleExactly(s.properties.list[i].schema);
      }
    }
    NodesAreDemanded(s);
  }

  lemma NodesAreDemanded(s: Schema)
    ensures Demands(s) ==> s.Node?
  {}

  // ---- Which schemas allow null ---------------------------------------------------------------------

  /** The schema and its union variants, at every depth. */
  function Alternatives(s: Schema): seq<Schema> {
    [s] + if s.Node? && s.anyOf.Variants? then AllAlternatives(s.anyOf.list) else []
  }

  function AllAlternatives(list: seq<Schema>): seq<Schema> {
    if list == [] then [] else Alternatives(list[0]) + AllAlternatives(list[1..])
  }

  /** Null is the type or among the types, is the constant, or is among the listed values. */
  predicate NamesNull(s: Schema) {
    s.Node? &&
    (MentionsType(s.typ, "null") || s.constant == Some(Null) || (s.enumeration.Some? && Null in s.enumeration.value))
  }

  lemma AllowsNullHere(s: Schema)
    ensures AllowsNull(s) <==>
            NamesNull(s) || (s.Node? && s.anyOf.Variants? && exists i :: 0 <= i < |s.anyOf.list| && AllowsNull(s.anyOf.list[i]))
  {}

  lemma {:induction false} AllowsNullExactly(s: Schema)
    ensures AllowsNull(s) <==> exists t :: t in Alternatives(s) && NamesNull(t)
    decreases s, 1
  {
    hide AllowsNull, NamesNull;
    AllowsNullHere(s);
    var all := Alternatives(s);
    if s.Node? && s.anyOf.Variants? {
      SomeAllowsNull(s.anyOf.list);
      assert all == [s] + AllAlternatives(s.anyOf.list);
    } else {
      assert all == [s];
    }
    assert all[0] == s;
    if NamesNull(s) {
      assert s in all;
    }
  }

  lemma {:induction false} SomeAllowsNull(list: seq<Schema>)
    ensures (exists i :: 0 <= i < |list| && AllowsNull(list[i])) <==> exists t :: t in AllAlternatives(list) && NamesNull(t)
    decreases list, 0
  {
    if list != [] {
      AllowsNullExactly(list[0]);
      SomeAllowsNull(list[1..]);
      assert forall t :: t in AllAlternatives(list) <==> t in Alternatives(list[0]) || t in AllAlternatives(list[1..]);
      assert (exists i :: 0 <= i < |list| && AllowsNull(list[i])) <==>
             AllowsNull(list[0]) || exists i :: 0 <= i < |list[1..]| && AllowsNull(list[1..][i]) by {
        forall i | 0 < i < |list| && AllowsNull(list[i]) ensures AllowsNull(list[1..][i - 1]) {}
      }
    }
  }

  // ---- What a converted object schema asks for ----------------------------------------------------------

  /** Every declared member has to be there, and no other. */
  lemma StrictAsksForAll(s: Schema, v: Value)
    requires Convertible(s) && IsObject(s) && v.Obj? && Accepts(Strict(s), v)
    ensures v.members.Keys == NameSet(PropertyList(s))
  {
    StrictNames(s);
    AcceptsByClauses(Strict(s), v);
    var names := RequiredNames(Strict(s));
    forall name | name in NameSet(PropertyList(s)) ensures name in v.members {
      var i :| 0 <= i < |PropertyList(s)| && PropertyList(s)[i].name == name;
      assert names[i] == name;
    }
  }

  /** A property converts to the conversion of its schema, with a null alternative if it is optional and does not allow null. */
  lemma PropertyConverts(s: Schema, i: nat, v: Value)
    requires Convertible(s) && IsObject(s) && s.properties.Map? && i < |s.properties.list|
    ensures Strict(s).Node? && Strict(s).properties.Map? && i < |Strict(s).properties.list|
    ensures var p, q := s.properties.list[i], Strict(s).properties.list[i];
      && q.name == p.name
      && (Accepts(q.schema, v) <==>
          || Accepts(Strict(p.schema), v)
          || (v == Null && p.name !in RequiredNames(s) && !exists t :: t in Alternatives(p.schema) && NamesNull(t)))
  {
    StrictNames(s);
    PropertyAccepts(s, i, v);
    AllowsNullExactly(s.properties.list[i].schema);
  }
}
