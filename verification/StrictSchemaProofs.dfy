/** What strict conversion means for the values a tool schema accepts. */
module StrictSchemaProofs {
  import opened Prelude
  import opened StrictSchema

  // ---- The validator ----------------------------------------------------------------

  predicate IsType(v: Value, name: string) {
    match name
    case "null" => v.Null?
    case "boolean" => v.Bool?
    case "number" => v.Num?
    case "integer" => v.Num?
    case "string" => v.Str?
    case "array" => v.Arr?
    case "object" => v.Obj?
    case _ => false
  }

  predicate TypeAccepts(t: TypeWord, v: Value) {
    match t
    case NoType => true
    case One(name) => IsType(v, name)
    case Many(names) => exists i :: 0 <= i < |names| && IsType(v, names[i])
  }

  function NameSet(ps: seq<Property>): set<string> {
    set i | 0 <= i < |ps| :: ps[i].name
  }

  /** JSON Schema acceptance for the modelled keywords. */
  predicate Accepts(s: Schema, v: Value) {
    if s.Boolean? then s.b
    else
      && TypeAccepts(s.typ, v)
      && (s.constant.Some? ==> v == s.constant.value)
      && (s.enumeration.Some? ==> v in s.enumeration.value)
      && (s.anyOf.Variants? ==> exists i :: 0 <= i < |s.anyOf.list| && Accepts(s.anyOf.list[i], v))
      && (v.Arr? && s.items.Each? ==> forall i :: 0 <= i < |v.items| ==> Accepts(s.items.schema, v.items[i]))
      && (v.Obj? ==>
            && (forall i :: 0 <= i < |RequiredNames(s)| ==> RequiredNames(s)[i] in v.members)
            && (s.additional.Closed? ==> v.members.Keys <= NameSet(PropertyList(s)))
            && (s.properties.Map? ==> forall i :: 0 <= i < |s.properties.list| && s.properties.list[i].name in v.members ==>
                  Accepts(s.properties.list[i].schema, v.members[s.properties.list[i].name])))
  }

  // ---- The fragment --------------------------------------------------------------------

  predicate ScalarLiterals(s: Schema)
    requires s.Node?
  {
    && (s.constant.Some? ==> Scalar(s.constant.value))
    && (s.enumeration.Some? ==> forall i :: 0 <= i < |s.enumeration.value| ==> Scalar(s.enumeration.value[i]))
  }

  /**
   Literals are scalars and, as in any JSON object, property names are distinct. Union
   variants do not have a schema or `true` for `additionalProperties`.
   */
  predicate Fragment(s: Schema) {
    s.Node? ==>
      && ScalarLiterals(s)
      && Distinct(NamesOf(PropertyList(s)))
      && (s.anyOf.Variants? ==> forall i :: 0 <= i < |s.anyOf.list| ==>
            Fragment(s.anyOf.list[i]) && !(s.anyOf.list[i].Node? && s.anyOf.list[i].additional.OtherAdditional?))
      && (s.items.Each? ==> Fragment(s.items.schema))
      && (s.properties.Map? ==> forall i :: 0 <= i < |s.properties.list| ==> Fragment(s.properties.list[i].schema))
  }

  predicate ScalarVariant(s: Schema) {
    Fragment(s) && Convertible(s) && !Structured(s)
  }

  /** Whether a scalar variant accepts an object, which it can only tell by the names of the members. */
  predicate VariantTakes(s: Schema, names: set<string>) {
    if s.Boolean? then s.b
    else
      && TypeAccepts(s.typ, Obj(map[])) && s.constant.None? && s.enumeration.None?
      && (s.anyOf.Variants? ==> exists i :: 0 <= i < |s.anyOf.list| && VariantTakes(s.anyOf.list[i], names))
      && (forall i :: 0 <= i < |RequiredNames(s)| ==> RequiredNames(s)[i] in names)
      && (s.additional.Closed? ==> names == {})
  }

  predicate SomeVariantTakes(s: Schema, names: set<string>)
    requires s.Node?
  {
    s.anyOf.Variants? ==> exists i :: 0 <= i < |s.anyOf.list| && VariantTakes(s.anyOf.list[i], names)
  }

  lemma {:induction false} VariantSeesNames(s: Schema, v: Value)
    requires ScalarVariant(s) && v.Obj?
    ensures Accepts(s, v) <==> VariantTakes(s, v.members.Keys)
  {
    if s.anyOf.Variants? {
      forall i | 0 <= i < |s.anyOf.list| ensures Accepts(s.anyOf.list[i], v) <==> VariantTakes(s.anyOf.list[i], v.members.Keys) {
        VariantSeesNames(s.anyOf.list[i], v);
      }
    }
    KindDecidesObject(s, v);
  }

  lemma KindDecidesObject(s: Schema, v: Value)
    requires s.Node? && ScalarLiterals(s) && v.Obj?
    ensures TypeAccepts(s.typ, v) <==> TypeAccepts(s.typ, Obj(map[]))
    ensures (s.constant.Some? ==> v != s.constant.value) && (s.enumeration.Some? ==> v !in s.enumeration.value)
  {}

  /** A scalar variant cannot see inside an array. */
  lemma {:induction false} VariantIgnoresItems(s: Schema, v: Value, w: Value)
    requires ScalarVariant(s) && v.Arr? && w.Arr?
    ensures Accepts(s, v) <==> Accepts(s, w)
  {
    if s.anyOf.Variants? {
      forall i | 0 <= i < |s.anyOf.list| ensures Accepts(s.anyOf.list[i], v) <==> Accepts(s.anyOf.list[i], w) {
        VariantIgnoresItems(s.anyOf.list[i], v, w);
      }
    }
  }

  /** Conversion leaves a scalar variant exactly as it is. */
  lemma {:induction false} VariantIsUnchanged(s: Schema)
    requires Convertible(s) && !Structured(s)
    ensures Strict(s) == s
  {
    if s.anyOf.Variants? {
      forall i | 0 <= i < |s.anyOf.list| ensures Strict(s.anyOf.list[i]) == s.anyOf.list[i] {
        VariantIsUnchanged(s.anyOf.list[i]);
      }
      assert StrictAll(s.anyOf.list) == s.anyOf.list;
    }
  }

  lemma VariantsAreUnchanged(s: Schema)
    requires Convertible(s)
    ensures Strict(s).Node? && Strict(s).anyOf == s.anyOf
  {}

  /** The conversion tests the converted schema for null; that is the same as testing the original. */
  lemma AllowsNullIsKept(s: Schema)
    requires Convertible(s)
    ensures AllowsNull(Strict(s)) <==> AllowsNull(s)
    ensures Structured(Strict(s)) <==> Structured(s)
  {
    VariantsAreUnchanged(s);
  }

  // ---- Nulls out, nulls in ---------------------------------------------------------------

  /** The position of a property, if it is declared. */
  function Find(ps: seq<Property>, name: string): (i: Option<nat>)
    ensures i.None? <==> name !in NameSet(ps)
    ensures i.Some? ==> i.value < |ps| && ps[i.value].name == name
    ensures i.None? ==> forall j :: 0 <= j < |ps| ==> ps[j].name != name
  {
    if ps == [] then None
    else if ps[0].name == name then Some(0)
    else match Find(ps[1..], name)
         case None => None
         case Some(j) => Some(j + 1)
  }

  lemma FindIsIndex(ps: seq<Property>, i: nat)
    requires Distinct(NamesOf(ps)) && i < |ps|
    ensures Find(ps, ps[i].name) == Some(i)
  {
    hide Find;
    NamesDiffer(ps);
  }

  lemma NamesDiffer(ps: seq<Property>)
    requires Distinct(NamesOf(ps))
    ensures forall i, j :: 0 <= i < |ps| && 0 <= j < |ps| && i != j ==> ps[i].name != ps[j].name
  {
    forall i, j | 0 <= i < j < |ps| ensures ps[i].name != ps[j].name {
      assert NamesOf(ps)[i] != NamesOf(ps)[j];
    }
  }

  /** Drops, at every depth, the nulls that stand for absent optional members. */
  function Prune(s: Schema, v: Value): Value {
    if s.Boolean? then v
    else match v
      case Arr(items) =>
        if s.items.Each? then Arr(seq(|items|, i requires 0 <= i < |items| => Prune(s.items.schema, items[i]))) else v
      case Obj(members) =>
        if !s.properties.Map? || !IsObject(s) then v
        else
          var ps := s.properties.list;
          Obj(map name | name in members && !IsDropped(s, ps, name, members[name]) ::
                match Find(ps, name)
                case None => members[name]
                case Some(i) => Prune(ps[i].schema, members[name]))
      case _ => v
  }

  predicate IsDropped(s: Schema, ps: seq<Property>, name: string, v: Value) {
    v.Null? && Find(ps, name).Some? && Wrapped(s, ps[Find(ps, name).value])
  }

  /** Adds, at every depth, a null for each absent declared member. */
  function Fill(s: Schema, v: Value): Value {
    if s.Boolean? then v
    else match v
      case Arr(items) =>
        if s.items.Each? then Arr(seq(|items|, i requires 0 <= i < |items| => Fill(s.items.schema, items[i]))) else v
      case Obj(members) =>
        if !s.properties.Map? || !IsObject(s) then v
        else
          var ps := s.properties.list;
          Obj(map name | name in members.Keys + NameSet(ps) ::
                if name !in members then Null
                else match Find(ps, name)
                  case None => members[name]
                  case Some(i) => Fill(ps[i].schema, members[name]))
      case _ => v
  }

  // ---- Soundness: what the strict schema accepts, the original accepts without the nulls ------

  ghost predicate ObjectClauses(s: Schema, m: map<string, Value>)
    requires s.Node?
  {
    && (forall i :: 0 <= i < |RequiredNames(s)| ==> RequiredNames(s)[i] in m)
    && (s.additional.Closed? ==> m.Keys <= NameSet(PropertyList(s)))
    && (s.properties.Map? ==> MembersAccepted(s.properties.list, m))
  }

  ghost predicate MembersAccepted(ps: seq<Property>, m: map<string, Value>) {
    forall i :: 0 <= i < |ps| && ps[i].name in m ==> Accepts(ps[i].schema, m[ps[i].name])
  }

  ghost predicate BasicClauses(s: Schema, v: Value)
    requires s.Node?
  {
    && TypeAccepts(s.typ, v)
    && (s.constant.Some? ==> v == s.constant.value)
    && (s.enumeration.Some? ==> v in s.enumeration.value)
    && (s.anyOf.Variants? ==> exists i :: 0 <= i < |s.anyOf.list| && Accepts(s.anyOf.list[i], v))
  }

  lemma AcceptsByClauses(s: Schema, v: Value)
    requires s.Node?
    ensures Accepts(s, v) <==>
              && BasicClauses(s, v)
              && (v.Arr? && s.items.Each? ==> forall i :: 0 <= i < |v.items| ==> Accepts(s.items.schema, v.items[i]))
              && (v.Obj? ==> ObjectClauses(s, v.members))
  {}

  /** Types and scalar literals tell two objects, or two arrays, apart from neither. */
  lemma KindDecides(s: Schema, v: Value, w: Value)
    requires s.Node? && ScalarLiterals(s) && ((v.Obj? && w.Obj?) || (v.Arr? && w.Arr?))
    ensures TypeAccepts(s.typ, v) <==> TypeAccepts(s.typ, w)
    ensures s.constant.Some? ==> v != s.constant.value && w != s.constant.value
    ensures s.enumeration.Some? ==> v !in s.enumeration.value && w !in s.enumeration.value
  {}

  /** Outside the members of objects and arrays, a node and its conversion ask for the same. */
  lemma BasicClausesAreKept(s: Schema, v: Value)
    requires Convertible(s)
    ensures Strict(s).Node? && (BasicClauses(Strict(s), v) <==> BasicClauses(s, v))
  {
    VariantsAreUnchanged(s);
  }

  /** A value of the same kind meets them too if it is an array, or some variant takes the names of its members. */
  lemma BasicClausesByKind(s: Schema, v: Value, w: Value)
    requires Convertible(s) && Fragment(s) && BasicClauses(s, v)
    requires v == w || (v.Obj? && w.Obj?) || (v.Arr? && w.Arr?)
    ensures w.Obj? ==> (BasicClauses(s, w) <==> SomeVariantTakes(s, w.members.Keys))
    ensures !w.Obj? ==> BasicClauses(s, w)
  {
    if v != w {
      KindDecides(s, v, w);
    }
    if s.anyOf.Variants? {
      forall i | 0 <= i < |s.anyOf.list|
        ensures w.Obj? ==> (Accepts(s.anyOf.list[i], w) <==> VariantTakes(s.anyOf.list[i], w.members.Keys))
        ensures w.Arr? ==> (Accepts(s.anyOf.list[i], w) <==> Accepts(s.anyOf.list[i], v))
      {
        if w.Obj? {
          VariantSeesNames(s.anyOf.list[i], w);
        } else if w.Arr? {
          VariantIgnoresItems(s.anyOf.list[i], v, w);
        }
      }
    }
  }

  lemma WrapAccepts(s: Schema, v: Value)
    ensures Accepts(Wrap(s), v) <==> Accepts(s, v) || v.Null?
  {
    var w := Wrap(s);
    assert w.anyOf.list[0] == s && w.anyOf.list[1] == NULL_SCHEMA;
    assert Accepts(NULL_SCHEMA, v) <==> v.Null?;
  }

  /** The converted schema of a property, seen from the value's side. */
  lemma PropertyAccepts(s: Schema, i: nat, v: Value)
    requires Convertible(s) && IsObject(s) && s.properties.Map? && i < |s.properties.list|
    ensures var p := s.properties.list[i];
      Accepts(StrictProperty(p, RequiredNames(s)).schema, v) <==>
        Accepts(Strict(p.schema), v) || (Wrapped(s, p) && v.Null?)
  {
    var p := s.properties.list[i];
    AllowsNullIsKept(p.schema);
    WrapAccepts(Strict(p.schema), v);
  }

  lemma StrictNames(s: Schema)
    requires Convertible(s) && IsObject(s)
    ensures Strict(s).additional.Closed? && NameSet(PropertyList(Strict(s))) == NameSet(PropertyList(s))
    ensures Strict(s).properties.Map? <==> s.properties.Map?
    ensures s.properties.Map? ==> Strict(s).properties.list == StrictProperties(s.properties.list, RequiredNames(s))
    ensures RequiredNames(Strict(s)) == NamesOf(PropertyList(s))
  {}

  /** At every depth the members that are left are enough for some union variant, if there are any. */
  predicate PruneFits(s: Schema, v: Value)
    decreases s, 1
  {
    s.Node? ==>
      && (v.Arr? && s.items.Each? ==> forall i :: 0 <= i < |v.items| ==> PruneFits(s.items.schema, v.items[i]))
      && (v.Obj? ==> Prune(s, v).Obj? && SomeVariantTakes(s, Prune(s, v).members.Keys))
      && (v.Obj? && IsObject(s) && s.properties.Map? ==> forall i :: 0 <= i < |s.properties.list| ==> PrunedMemberFits(s, v, i))
  }

  predicate PrunedMemberFits(s: Schema, v: Value, i: nat)
    requires s.Node? && v.Obj? && s.properties.Map? && i < |s.properties.list|
    decreases s, 0
  {
    var p := s.properties.list[i];
    p.name in v.members && !IsDropped(s, s.properties.list, p.name, v.members[p.name]) ==> PruneFits(p.schema, v.members[p.name])
  }

  /**
   Soundness, exactly: a value the strict schema accepts is accepted by the original once
   the nulls at wrapped optional members are dropped, at every depth, if and only if some
   union variant does not miss any of the dropped members.
   */
  lemma {:induction false} StrictIsSound(s: Schema, v: Value)
    requires Convertible(s) && Fragment(s) && Accepts(Strict(s), v)
    ensures Accepts(s, Prune(s, v)) <==> PruneFits(s, v)
    decreases s, 2
  {
    AcceptsByClauses(Strict(s), v);
    AcceptsByClauses(s, Prune(s, v));
    BasicClausesAreKept(s, v);
    BasicClausesByKind(s, v, Prune(s, v));
    if v.Arr? && s.items.Each? {
      forall i | 0 <= i < |v.items|
        ensures Accepts(s.items.schema, Prune(s.items.schema, v.items[i])) <==> PruneFits(s.items.schema, v.items[i])
      {
        StrictIsSound(s.items.schema, v.items[i]);
      }
      PrunedArray(s, v);
    } else if v.Obj? && IsObject(s) {
      PrunedObjectIsAccepted(s, v);
      FitsByMembers(s, v);
    } else if v.Obj? {
      assert Prune(s, v) == v && RequiredNames(Strict(s)) == RequiredNames(s);
      assert ObjectClauses(Strict(s), v.members) ==> ObjectClauses(s, v.members);
    }
  }

  lemma PrunedArray(s: Schema, v: Value)
    requires s.Node? && v.Arr? && s.items.Each?
    requires forall i :: 0 <= i < |v.items| ==>
               (Accepts(s.items.schema, Prune(s.items.schema, v.items[i])) <==> PruneFits(s.items.schema, v.items[i]))
    ensures var w := Prune(s, v);
      w.Arr? && ((forall i :: 0 <= i < |w.items| ==> Accepts(s.items.schema, w.items[i])) <==> PruneFits(s, v))
  {
    var w := Prune(s, v);
    forall i | 0 <= i < |v.items| ensures w.items[i] == Prune(s.items.schema, v.items[i]) {}
  }

  ghost predicate PrunedMembersFit(s: Schema, v: Value)
    requires s.Node? && v.Obj? && s.properties.Map?
  {
    forall i :: 0 <= i < |s.properties.list| ==> PrunedMemberFits(s, v, i)
  }

  lemma FitsByMembers(s: Schema, v: Value)
    requires IsObject(s) && v.Obj?
    ensures PruneFits(s, v) <==>
              && Prune(s, v).Obj? && SomeVariantTakes(s, Prune(s, v).members.Keys)
              && (s.properties.Map? ==> PrunedMembersFit(s, v))
  {}

  lemma {:induction false} PrunedObjectIsAccepted(s: Schema, v: Value)
    requires Convertible(s) && Fragment(s) && IsObject(s) && v.Obj? && ObjectClauses(Strict(s), v.members)
    ensures Prune(s, v).Obj?
    ensures ObjectClauses(s, Prune(s, v).members) <==> (s.properties.Map? ==> PrunedMembersFit(s, v))
    decreases s, 1
  {
    hide Accepts, MembersAccepted, PrunedMembersFit, Prune, Convertible, Fragment, Strict, StrictProperties;
    StrictNames(s);
    var m := v.members;
    assert forall j :: 0 <= j < |PropertyList(s)| ==> RequiredNames(Strict(s))[j] in m;
    PruneKeepsRequired(s, v);
    if s.properties.Map? {
      PrunedMembersAreAccepted(s, v);
    }
  }

  lemma {:induction false} PrunedMembersAreAccepted(s: Schema, v: Value)
    requires Convertible(s) && Fragment(s) && IsObject(s) && v.Obj? && s.properties.Map?
    requires forall j :: 0 <= j < |s.properties.list| ==> NamesOf(s.properties.list)[j] in v.members
    requires MembersAccepted(StrictProperties(s.properties.list, RequiredNames(s)), v.members)
    ensures Prune(s, v).Obj? && (MembersAccepted(s.properties.list, Prune(s, v).members) <==> PrunedMembersFit(s, v))
    decreases s, 0
  {
    var ps, m := s.properties.list, Prune(s, v).members;
    forall i | 0 <= i < |ps| ensures (ps[i].name in m ==> Accepts(ps[i].schema, m[ps[i].name])) <==> PrunedMemberFits(s, v, i) {
      assert NamesOf(ps)[i] == ps[i].name;
      assert StrictProperties(ps, RequiredNames(s))[i] == StrictProperty(ps[i], RequiredNames(s));
      PrunedMemberIsAccepted(s, v, i);
    }
  }

  lemma {:induction false} PrunedMemberIsAccepted(s: Schema, v: Value, i: nat)
    requires Convertible(s) && Fragment(s) && IsObject(s) && v.Obj? && s.properties.Map? && i < |s.properties.list|
    requires var p := s.properties.list[i];
      p.name in v.members && Accepts(StrictProperty(p, RequiredNames(s)).schema, v.members[p.name])
    ensures var p, w := s.properties.list[i], Prune(s, v);
      w.Obj? && ((p.name in w.members ==> Accepts(p.schema, w.members[p.name])) <==> PrunedMemberFits(s, v, i))
    decreases s, 0, i
  {
    var p := s.properties.list[i];
    FindIsIndex(s.properties.list, i);
    PropertyAccepts(s, i, v.members[p.name]);
    if !IsDropped(s, s.properties.list, p.name, v.members[p.name]) {
      StrictIsSound(p.schema, v.members[p.name]);
    }
  }

  lemma PruneKeepsRequired(s: Schema, v: Value)
    requires Convertible(s) && Fragment(s) && IsObject(s) && v.Obj?
    requires forall j :: 0 <= j < |PropertyList(s)| ==> NamesOf(PropertyList(s))[j] in v.members
    ensures Prune(s, v).Obj? && Prune(s, v).members.Keys <= v.members.Keys
    ensures forall i :: 0 <= i < |RequiredNames(s)| ==> RequiredNames(s)[i] in Prune(s, v).members
  {}

  // ---- Completeness: what the original accepts, the strict schema accepts with the nulls --------

  /** No object in the value has members its schema does not declare. */
  predicate Declared(s: Schema, v: Value) {
    s.Node? ==>
      && (v.Arr? && s.items.Each? ==> forall i :: 0 <= i < |v.items| ==> Declared(s.items.schema, v.items[i]))
      && (v.Obj? && IsObject(s) ==> v.members.Keys <= NameSet(PropertyList(s)))
      && (v.Obj? && s.properties.Map? ==> forall i :: 0 <= i < |s.properties.list| && s.properties.list[i].name in v.members ==>
            Declared(s.properties.list[i].schema, v.members[s.properties.list[i].name]))
  }

  /**
   Wherever an optional member is absent, its property is wrapped or accepts null by itself,
   and some union variant, if there are any, takes the object with all declared names.
   */
  predicate NullsFit(s: Schema, v: Value)
    decreases s, 1
  {
    s.Node? ==>
      && (v.Arr? && s.items.Each? ==> forall i :: 0 <= i < |v.items| ==> NullsFit(s.items.schema, v.items[i]))
      && (v.Obj? ==> SomeVariantTakes(s, v.members.Keys + NameSet(PropertyList(s))))
      && (v.Obj? && s.properties.Map? ==> forall i :: 0 <= i < |s.properties.list| ==> MemberFits(s, v.members, i))
  }

  predicate MemberFits(s: Schema, m: map<string, Value>, i: nat)
    requires s.Node? && s.properties.Map? && i < |s.properties.list|
    decreases s, 0
  {
    var p := s.properties.list[i];
    if p.name in m then NullsFit(p.schema, m[p.name])
    else Wrapped(s, p) || Accepts(p.schema, Null)
  }

  lemma NullIsKept(s: Schema)
    requires Convertible(s)
    ensures Accepts(Strict(s), Null) <==> Accepts(s, Null)
  {
    BasicClausesAreKept(s, Null);
    AcceptsByClauses(s, Null);
    AcceptsByClauses(Strict(s), Null);
  }

  /**
   Completeness, exactly: an accepted value without undeclared members is accepted by
   the strict schema after its absent members are filled with null if and only if no
   absent member belongs to a property that was left unwrapped and rejects null, and no
   union is left without a variant because of the added names.
   */
  lemma {:induction false} StrictIsComplete(s: Schema, v: Value)
    requires Convertible(s) && Fragment(s) && Accepts(s, v) && Declared(s, v)
    ensures Accepts(Strict(s), Fill(s, v)) <==> NullsFit(s, v)
    decreases s, 2
  {
    AcceptsByClauses(s, v);
    AcceptsByClauses(Strict(s), Fill(s, v));
    BasicClausesAreKept(s, Fill(s, v));
    BasicClausesByKind(s, v, Fill(s, v));
    if v.Arr? && s.items.Each? {
      forall i | 0 <= i < |v.items|
        ensures Accepts(Strict(s.items.schema), Fill(s.items.schema, v.items[i])) <==> NullsFit(s.items.schema, v.items[i])
      {
        StrictIsComplete(s.items.schema, v.items[i]);
      }
      FilledArrayIsAccepted(s, v);
    } else if v.Obj? && IsObject(s) {
      FilledObjectIsAccepted(s, v);
      FitByMembers(s, v);
    } else if v.Obj? {
      assert Fill(s, v) == v && RequiredNames(Strict(s)) == RequiredNames(s);
      assert ObjectClauses(s, v.members) ==> ObjectClauses(Strict(s), v.members);
      assert v.members.Keys + NameSet(PropertyList(s)) == v.members.Keys;
      BasicClausesByKind(s, v, v);
      assert NullsFit(s, v);
    } else {
      assert Fill(s, v) == v && NullsFit(s, v);
    }
  }

  lemma FilledArrayIsAccepted(s: Schema, v: Value)
    requires s.Node? && v.Arr? && s.items.Each?
    requires forall i :: 0 <= i < |v.items| ==>
               (Accepts(Strict(s.items.schema), Fill(s.items.schema, v.items[i])) <==> NullsFit(s.items.schema, v.items[i]))
    ensures var w := Fill(s, v);
      w.Arr? && |w.items| == |v.items| && Strict(s).items == Each(Strict(s.items.schema))
      && ((forall i :: 0 <= i < |w.items| ==> Accepts(Strict(s.items.schema), w.items[i])) <==> NullsFit(s, v))
  {
    var w := Fill(s, v);
    forall i | 0 <= i < |v.items| ensures w.items[i] == Fill(s.items.schema, v.items[i]) {}
  }

  lemma {:induction false} FilledObjectIsAccepted(s: Schema, v: Value)
    requires Convertible(s) && Fragment(s) && IsObject(s) && v.Obj? && Accepts(s, v) && Declared(s, v)
    ensures Fill(s, v).Obj? && Fill(s, v).members.Keys == v.members.Keys + NameSet(PropertyList(s))
    ensures ObjectClauses(Strict(s), Fill(s, v).members) <==> (s.properties.Map? ==> MembersFit(s, v.members))
    decreases s, 1
  {
    hide MembersAccepted, MembersFit, Fill, Convertible, Fragment, Strict, StrictProperties;
    StrictNames(s);
    FillHasAllNames(s, v);
    if s.properties.Map? {
      FilledMembersAreAccepted(s, v);
    }
    assert v.members.Keys <= NameSet(PropertyList(s));
  }

  lemma {:induction false} FilledMembersAreAccepted(s: Schema, v: Value)
    requires Convertible(s) && Fragment(s) && IsObject(s) && v.Obj? && Accepts(s, v) && Declared(s, v) && s.properties.Map?
    ensures Fill(s, v).Obj?
    ensures MembersAccepted(StrictProperties(s.properties.list, RequiredNames(s)), Fill(s, v).members) <==> MembersFit(s, v.members)
    decreases s, 0
  {
    FillHasAllNames(s, v);
    var ps, qs := s.properties.list, StrictProperties(s.properties.list, RequiredNames(s));
    forall i | 0 <= i < |ps|
      ensures qs[i].name == ps[i].name && ps[i].name in Fill(s, v).members
      ensures Accepts(qs[i].schema, Fill(s, v).members[ps[i].name]) <==> MemberFits(s, v.members, i)
    {
      FilledMemberIsAccepted(s, v, i);
    }
  }

  lemma FillHasAllNames(s: Schema, v: Value)
    requires IsObject(s) && Convertible(s) && v.Obj? && Accepts(s, v) && Declared(s, v)
    ensures Fill(s, v).Obj? && Fill(s, v).members.Keys == NameSet(PropertyList(s))
    ensures forall i :: 0 <= i < |PropertyList(s)| ==> NamesOf(PropertyList(s))[i] in Fill(s, v).members
  {}

  ghost predicate MembersFit(s: Schema, m: map<string, Value>)
    requires s.Node? && s.properties.Map?
  {
    forall i :: 0 <= i < |s.properties.list| ==> MemberFits(s, m, i)
  }

  lemma FitByMembers(s: Schema, v: Value)
    requires s.Node? && v.Obj?
    ensures NullsFit(s, v) <==>
              && SomeVariantTakes(s, v.members.Keys + NameSet(PropertyList(s)))
              && (s.properties.Map? ==> MembersFit(s, v.members))
  {}

  lemma {:induction false} FilledMemberIsAccepted(s: Schema, v: Value, i: nat)
    requires Convertible(s) && Fragment(s) && IsObject(s) && v.Obj? && Accepts(s, v) && Declared(s, v)
    requires s.properties.Map? && i < |s.properties.list|
    ensures var p := s.properties.list[i];
      && Fill(s, v).Obj? && p.name in Fill(s, v).members
      && (Accepts(StrictProperty(p, RequiredNames(s)).schema, Fill(s, v).members[p.name]) <==> MemberFits(s, v.members, i))
    decreases s, 0, i
  {
    var p := s.properties.list[i];
    MemberOfAccepted(s, v, i);
    FilledMember(s, v, i);
    PropertyAccepts(s, i, Fill(s, v).members[p.name]);
    hide Convertible, Fragment, Declared, Accepts, Fill, Strict, StrictProperty;
    if p.name in v.members {
      StrictIsComplete(p.schema, v.members[p.name]);
    } else {
      NullIsKept(p.schema);
    }
  }

  lemma MemberOfAccepted(s: Schema, v: Value, i: nat)
    requires Convertible(s) && Fragment(s) && s.properties.Map? && i < |s.properties.list|
    requires v.Obj? && Accepts(s, v) && Declared(s, v)
    ensures var p := s.properties.list[i];
      && Convertible(p.schema) && Fragment(p.schema)
      && (p.name in v.members ==> Accepts(p.schema, v.members[p.name]) && Declared(p.schema, v.members[p.name]))
  {}

  lemma FilledMember(s: Schema, v: Value, i: nat)
    requires Fragment(s) && IsObject(s) && v.Obj? && s.properties.Map? && i < |s.properties.list|
    ensures var p := s.properties.list[i];
      && Fill(s, v).Obj? && p.name in Fill(s, v).members
      && Fill(s, v).members[p.name] == if p.name in v.members then Fill(p.schema, v.members[p.name]) else Null
  {
    var ps := s.properties.list;
    FindIsIndex(ps, i);
    assert ps[i].name in NameSet(ps);
  }

  // ---- A condition on the schema alone ------------------------------------------------------------

  /** The optional properties that get a null alternative, by name. */
  function WrappedNames(s: Schema): set<string> {
    if IsObject(s) then set i | 0 <= i < |PropertyList(s)| && Wrapped(s, PropertyList(s)[i]) :: PropertyList(s)[i].name else {}
  }

  /** A union variant, and every one inside it, requires none of the names. */
  predicate RequiresNone(s: Schema, names: set<string>) {
    && (forall i :: 0 <= i < |RequiredNames(s)| ==> RequiredNames(s)[i] !in names)
    && (s.Node? && s.anyOf.Variants? ==> forall i :: 0 <= i < |s.anyOf.list| ==> RequiresNone(s.anyOf.list[i], names))
  }

  /** No union variant requires a wrapped optional property of its node. */
  predicate NullsUnrequired(s: Schema) {
    s.Node? ==>
      && (s.anyOf.Variants? ==> forall i :: 0 <= i < |s.anyOf.list| ==> RequiresNone(s.anyOf.list[i], WrappedNames(s)))
      && (s.items.Each? ==> NullsUnrequired(s.items.schema))
      && (s.properties.Map? ==> forall i :: 0 <= i < |s.properties.list| ==> NullsUnrequired(s.properties.list[i].schema))
  }

  lemma {:induction false} VariantTakesFewer(s: Schema, names: set<string>, fewer: set<string>, dropped: set<string>)
    requires VariantTakes(s, names) && RequiresNone(s, dropped) && fewer <= names && names - fewer <= dropped
    ensures VariantTakes(s, fewer)
  {
    if s.Node? && s.anyOf.Variants? {
      var i :| 0 <= i < |s.anyOf.list| && VariantTakes(s.anyOf.list[i], names);
      VariantTakesFewer(s.anyOf.list[i], names, fewer, dropped);
    }
  }

  lemma PruneDropsWrapped(s: Schema, v: Value)
    requires v.Obj?
    ensures Prune(s, v).Obj?
    ensures Prune(s, v).members.Keys <= v.members.Keys && v.members.Keys - Prune(s, v).members.Keys <= WrappedNames(s)
  {
    forall name | name in v.members && name !in Prune(s, v).members ensures name in WrappedNames(s) {
      var ps := PropertyList(s);
      assert IsDropped(s, ps, name, v.members[name]);
      var i := Find(ps, name).value;
      assert Wrapped(s, ps[i]) && ps[i].name == name;
    }
  }

  /** When no union variant requires a wrapped property, the conversion is sound for every value. */
  lemma {:induction false} UnrequiredNullsFit(s: Schema, v: Value)
    requires Convertible(s) && Fragment(s) && NullsUnrequired(s) && Accepts(Strict(s), v)
    ensures PruneFits(s, v)
    decreases s, 1
  {
    AcceptsByClauses(Strict(s), v);
    BasicClausesAreKept(s, v);
    if v.Arr? && s.items.Each? {
      forall i | 0 <= i < |v.items| ensures PruneFits(s.items.schema, v.items[i]) {
        UnrequiredNullsFit(s.items.schema, v.items[i]);
      }
    }
    if v.Obj? {
      BasicClausesByKind(s, v, v);
      PruneDropsWrapped(s, v);
      if s.anyOf.Variants? {
        var i :| 0 <= i < |s.anyOf.list| && VariantTakes(s.anyOf.list[i], v.members.Keys);
        VariantTakesFewer(s.anyOf.list[i], v.members.Keys, Prune(s, v).members.Keys, WrappedNames(s));
      }
      if IsObject(s) && s.properties.Map? {
        UnrequiredMembersFit(s, v);
      }
    }
  }

  lemma {:induction false} UnrequiredMembersFit(s: Schema, v: Value)
    requires Convertible(s) && Fragment(s) && NullsUnrequired(s) && IsObject(s) && s.properties.Map?
    requires v.Obj? && ObjectClauses(Strict(s), v.members)
    ensures PrunedMembersFit(s, v)
    decreases s, 0
  {
    StrictNames(s);
    var ps := s.properties.list;
    forall i | 0 <= i < |ps| ensures PrunedMemberFits(s, v, i) {
      FindIsIndex(ps, i);
      assert Strict(s).properties.list[i] == StrictProperty(ps[i], RequiredNames(s));
      if ps[i].name in v.members && !IsDropped(s, ps, ps[i].name, v.members[ps[i].name]) {
        PropertyAccepts(s, i, v.members[ps[i].name]);
        UnrequiredNullsFit(ps[i].schema, v.members[ps[i].name]);
      }
    }
  }
}
