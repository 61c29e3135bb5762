/** Converting twice, filling and pruning, and the two places where the plain claim fails. */
module StrictSchemaTwice {
  import opened Prelude
  import opened StrictSchema
  import opened StrictSchemaProofs

  /** Property names are distinct in every object schema, as they are in JSON. */
  predicate UniqueNames(s: Schema) {
    s.Node? ==>
      && Distinct(NamesOf(PropertyList(s)))
      && (s.anyOf.Variants? ==> forall i :: 0 <= i < |s.anyOf.list| ==> UniqueNames(s.anyOf.list[i]))
      && (s.items.Each? ==> UniqueNames(s.items.schema))
      && (s.properties.Map? ==> forall i :: 0 <= i < |s.properties.list| ==> UniqueNames(s.properties.list[i].schema))
  }

  /** Some optional property that gets a null alternative is an object or array schema. */
  predicate WrapsStructured(s: Schema) {
    s.Node? &&
    (|| (s.items.Each? && WrapsStructured(s.items.schema))
     || (s.properties.Map? && exists i :: 0 <= i < |s.properties.list| && PropertyWrapsStructured(s, i)))
  }

  predicate PropertyWrapsStructured(s: Schema, i: nat)
    requires s.Node? && s.properties.Map? && i < |s.properties.list|
    decreases s, 0
  {
    var p := s.properties.list[i];
    (Wrapped(s, p) && Structured(p.schema)) || WrapsStructured(p.schema)
  }

  lemma WrapTwice(s: Schema)
    ensures Convertible(Wrap(s)) <==> Convertible(s) && !Structured(s)
    ensures Convertible(Wrap(s)) ==> Strict(Wrap(s)) == Wrap(s)
  {
    var w := Wrap(s);
    assert w.anyOf.list[0] == s && w.anyOf.list[1] == NULL_SCHEMA;
    assert Convertible(NULL_SCHEMA);
    if Convertible(w) {
      VariantsAreUnchanged(w);
    }
  }

  ghost predicate AllConvertible(ps: seq<Property>) {
    forall i :: 0 <= i < |ps| ==> Convertible(ps[i].schema)
  }

  ghost predicate NoneWraps(s: Schema)
    requires s.Node? && s.properties.Map?
  {
    forall i :: 0 <= i < |s.properties.list| ==> !PropertyWrapsStructured(s, i)
  }

  lemma ByClauses(s: Schema)
    requires s.Node?
    ensures Convertible(s) <==>
              && NodeOk(s)
              && (s.anyOf.Variants? ==> forall i :: 0 <= i < |s.anyOf.list| ==> Convertible(s.anyOf.list[i]))
              && (s.items.Each? ==> Convertible(s.items.schema))
              && (s.properties.Map? ==> AllConvertible(s.properties.list))
    ensures WrapsStructured(s) <==>
              (s.items.Each? && WrapsStructured(s.items.schema)) || (s.properties.Map? && !NoneWraps(s))
  {}

  /**
   Converting the converted schema again fails exactly when the first conversion gave
   a null alternative to some optional object or array property; otherwise the
   second conversion changes nothing.
   */
  lemma {:induction false} SecondConversion(s: Schema)
    requires Convertible(s) && UniqueNames(s)
    ensures Convertible(Strict(s)) <==> !WrapsStructured(s)
    ensures Convertible(Strict(s)) ==> Strict(Strict(s)) == Strict(s)
    decreases s, 1
  {
    var r := Strict(s);
    VariantsAreUnchanged(s);
    ByClauses(s);
    ByClauses(r);
    if s.items.Each? {
      SecondConversion(s.items.schema);
    }
    if IsObject(s) {
      StrictNames(s);
      if s.properties.Map? {
        PropertiesTwice(s);
      }
    }
    NodeOkTwice(s);
    if Convertible(r) {
      VariantsAreUnchanged(r);
    }
  }

  lemma NodeOkTwice(s: Schema)
    requires Convertible(s) && UniqueNames(s)
    ensures NodeOk(Strict(s))
  {
    var r := Strict(s);
    VariantsAreUnchanged(s);
    if IsObject(s) {
      StrictNames(s);
      assert NamesOf(PropertyList(r)) == NamesOf(PropertyList(s));
    }
  }

  lemma {:induction false} PropertiesTwice(s: Schema)
    requires Convertible(s) && UniqueNames(s) && IsObject(s) && s.properties.Map?
    ensures var qs := StrictProperties(s.properties.list, RequiredNames(s));
      && NamesOf(qs) == NamesOf(s.properties.list)
      && (AllConvertible(qs) <==> NoneWraps(s))
      && (AllConvertible(qs) ==> StrictProperties(qs, NamesOf(qs)) == qs)
    decreases s, 0
  {
    var ps := s.properties.list;
    var qs := StrictProperties(ps, RequiredNames(s));
    forall i | 0 <= i < |ps|
      ensures Convertible(qs[i].schema) <==> !PropertyWrapsStructured(s, i)
      ensures Convertible(qs[i].schema) ==> Strict(qs[i].schema) == qs[i].schema
    {
      SecondConversion(ps[i].schema);
      AllowsNullIsKept(ps[i].schema);
      WrapTwice(Strict(ps[i].schema));
    }
    assert AllConvertible(qs) ==> forall i :: 0 <= i < |ps| ==> !PropertyWrapsStructured(s, i);
    if NoneWraps(s) {
      forall i | 0 <= i < |qs| ensures Convertible(qs[i].schema) {
        assert !PropertyWrapsStructured(s, i);
      }
    }
    if AllConvertible(qs) {
      forall i | 0 <= i < |qs| ensures StrictProperty(qs[i], NamesOf(qs)) == qs[i] {
        assert NamesOf(qs)[i] == qs[i].name;
      }
    }
  }

  // ---- Filling and pruning -----------------------------------------------------------------

  /** No member that may be dropped is null, and every absent optional member is one that is wrapped. */
  predicate Clean(s: Schema, v: Value) {
    s.Node? ==>
      && (v.Arr? && s.items.Each? ==> forall i :: 0 <= i < |v.items| ==> Clean(s.items.schema, v.items[i]))
      && (v.Obj? && s.properties.Map? ==> forall i :: 0 <= i < |s.properties.list| ==>
            var p := s.properties.list[i];
            if p.name in v.members
            then Clean(p.schema, v.members[p.name]) && !(Wrapped(s, p) && v.members[p.name].Null?)
            else Wrapped(s, p))
  }

  lemma FillKeepsKind(s: Schema, v: Value)
    ensures Fill(s, v).Null? <==> v.Null?
  {}

  /** Dropping the nulls that filling added gives the original value back. */
  lemma {:induction false} PruneUndoesFill(s: Schema, v: Value)
    requires Fragment(s) && Clean(s, v) && Declared(s, v)
    ensures Prune(s, Fill(s, v)) == v
  {
    if s.Node? && v.Arr? && s.items.Each? {
      forall i | 0 <= i < |v.items| ensures Prune(s.items.schema, Fill(s.items.schema, v.items[i])) == v.items[i] {
        PruneUndoesFill(s.items.schema, v.items[i]);
      }
      assert Prune(s, Fill(s, v)).items == v.items;
    }
    if IsObject(s) && v.Obj? && s.properties.Map? {
      var ps, m, f := s.properties.list, v.members, Fill(s, v).members;
      var m' := Prune(s, Fill(s, v)).members;
      forall name | name in f
        ensures name in m' <==> name in m
        ensures name in m ==> m'[name] == m[name]
      {
        var i :| 0 <= i < |ps| && ps[i].name == name;
        FindIsIndex(ps, i);
        if name in m {
          FillKeepsKind(ps[i].schema, m[name]);
          PruneUndoesFill(ps[i].schema, m[name]);
        }
      }
      assert m'.Keys == m.Keys;
      assert m' == m;
    }
  }

  // ---- Where the claims stop ------------------------------------------------------------------

  function ObjectWith(p: Property): (r: Schema)
    ensures IsObject(r)
  {
    PLAIN.(typ := One("object"), properties := Map([p]))
  }

  const NEEDS_A := PLAIN.(required := Names(["a"]))
  const OPTIONAL_A := Property("a", PLAIN.(typ := One("string")))
  const A_OR_NEEDS_A := PLAIN.(typ := One("object"), properties := Map([OPTIONAL_A]), anyOf := Variants([NEEDS_A]))

  lemma NeedsA(v: Value)
    requires v.Obj?
    ensures Accepts(NEEDS_A, v) <==> "a" in v.members
  {
    assert RequiredNames(NEEDS_A)[0] == "a";
  }

  lemma StrictTakesNull()
    ensures Convertible(A_OR_NEEDS_A) && Wrapped(A_OR_NEEDS_A, OPTIONAL_A)
    ensures Accepts(Strict(A_OR_NEEDS_A), Obj(map["a" := Null]))
  {
    var s, v := A_OR_NEEDS_A, Obj(map["a" := Null]);
    assert s.anyOf.list[0] == NEEDS_A && s.properties.list[0] == OPTIONAL_A;
    VariantsAreUnchanged(s);
    StrictNames(s);
    NeedsA(v);
    PropertyAccepts(s, 0, Null);
    assert Strict(s).anyOf.list[0] == NEEDS_A;
    assert OPTIONAL_A.name in NameSet(PropertyList(s)) && NamesOf(PropertyList(s)) == ["a"];
    AcceptsByClauses(Strict(s), v);
  }

  /** A union variant that requires a member sees a null where the original sees nothing. */
  lemma VariantWithRequiredBreaksSoundness()
    ensures Convertible(A_OR_NEEDS_A) && Fragment(A_OR_NEEDS_A)
    ensures exists v: Value :: Accepts(Strict(A_OR_NEEDS_A), v) && !Accepts(A_OR_NEEDS_A, Prune(A_OR_NEEDS_A, v))
  {
    var s, v := A_OR_NEEDS_A, Obj(map["a" := Null]);
    StrictTakesNull();
    assert s.properties.list[0] == OPTIONAL_A;
    FindIsIndex(s.properties.list, 0);
    assert Prune(s, v) == Obj(map[]);
    NeedsA(Prune(s, v));
    assert !Accepts(s, Prune(s, v));
  }

  /** A schema that lists null among its values but rejects it is left unwrapped, and then cannot be absent. */
  lemma UnwrappedNullBreaksCompleteness()
    returns (s: Schema, v: Value)
    ensures Convertible(s) && Fragment(s) && Accepts(s, v) && Declared(s, v)
    ensures !Accepts(Strict(s), Fill(s, v))
  {
    var p := Property("a", PLAIN.(typ := One("string"), enumeration := Some([Null])));
    s := ObjectWith(p);
    v := Obj(map[]);
    assert s.properties.list[0] == p && Null in [Null];
    assert AllowsNull(p.schema) && !Accepts(p.schema, Null);
    assert !MemberFits(s, v.members, 0);
    StrictIsComplete(s, v);
  }

  // ---- The conversion as the source performs it ---------------------------------------------------

  /** makeStrictNode: checks and rewrites one node after its subschemas; Err where the source throws. */
  method MakeStrictNode(s: Schema) returns (r: Result<Schema, ()>)
    ensures r.Ok? <==> Convertible(s)
    ensures r.Ok? ==> r.value == Strict(s)
    decreases s, 1
  {
    if s.Boolean? || s.unsupported {
      return Err(());
    }
    var node := s;
    if !s.anyOf.NoAnyOf? {
      if s.anyOf.BadAnyOf? || s.anyOf.list == [] {
        return Err(());
      }
      var variants := [];
      for i := 0 to |s.anyOf.list|
        invariant |variants| == i
        invariant forall j :: 0 <= j < i ==> !Structured(s.anyOf.list[j]) && Convertible(s.anyOf.list[j])
        invariant forall j :: 0 <= j < i ==> variants[j] == Strict(s.anyOf.list[j])
      {
        if Structured(s.anyOf.list[i]) {
          return Err(());
        }
        var variant := MakeStrictNode(s.anyOf.list[i]);
        if variant.Err? {
          return Err(());
        }
        variants := variants + [variant.value];
      }
      assert variants == StrictAll(s.anyOf.list);
      node := node.(anyOf := Variants(variants));
    }
    if !s.items.NoItems? {
      if s.items.Tuple? {
        return Err(());
      }
      var items := MakeStrictNode(s.items.schema);
      if items.Err? {
        return Err(());
      }
      node := node.(items := Each(items.value));
    }
    if !IsObject(s) {
      if !s.properties.NoProperties? {
        return Err(());
      }
      return Ok(node);
    }
    r := MakeStrictObject(s, node);
  }

  /** The part of the conversion that applies to object schemas. */
  method MakeStrictObject(s: Schema, node: Schema) returns (r: Result<Schema, ()>)
    requires IsObject(s) && node.Node?
    ensures r.Ok? <==>
              && !s.additional.OtherAdditional? && !s.properties.BadProperties? && !s.required.BadRequired?
              && Distinct(RequiredNames(s))
              && (forall i :: 0 <= i < |RequiredNames(s)| ==> RequiredNames(s)[i] in NamesOf(PropertyList(s)))
              && AllConvertible(PropertyList(s))
    ensures r.Ok? ==> r.value == node.(
                        properties := if s.properties.Map? then Map(StrictProperties(s.properties.list, RequiredNames(s))) else node.properties,
                        required := Names(NamesOf(PropertyList(s))), additional := Closed)
    decreases s, 0
  {
    if s.additional.OtherAdditional? || s.properties.BadProperties? || s.required.BadRequired? {
      return Err(());
    }
    var required, properties := RequiredNames(s), PropertyList(s);
    var names := NamesOf(properties);
    if !Distinct(required) || !(forall i :: 0 <= i < |required| ==> required[i] in names) {
      return Err(());
    }
    var converted := [];
    for i := 0 to |properties|
      invariant |converted| == i
      invariant forall j :: 0 <= j < i ==> Convertible(properties[j].schema)
      invariant forall j :: 0 <= j < i ==> converted[j] == StrictProperty(properties[j], required)
    {
      var p := properties[i];
      var schema := MakeStrictNode(p.schema);
      if schema.Err? {
        return Err(());
      }
      var rewritten := schema.value;
      if p.name !in required && !AllowsNull(rewritten) {
        rewritten := Wrap(rewritten);
      }
      converted := converted + [Property(p.name, rewritten)];
    }
    assert converted == StrictProperties(properties, required);
    r := Ok(node.(properties := if s.properties.Map? then Map(converted) else node.properties,
                  required := Names(names), additional := Closed));
  }
}
