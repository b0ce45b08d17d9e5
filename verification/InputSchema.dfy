/**
 The JSON Schema of a GraphQL input type (`input_schema`, `_input_schema`, `_nullable`, `_non_null`,
 backend/app/bridge/graphql.py), and which values it admits.
 */
module InputSchema {
  import opened Basics

  datatype Kind = Integer | Fraction | Text | Boolean

  datatype InType = Named(name: string) | ListOf(of: InType) | NonNull(of: InType)

  datatype InField = InField(typ: InType, hasDefault: bool)

  /** A custom scalar takes any JSON. */
  datatype InDef =
    | KnownScalar(kinds: set<Kind>)
    | CustomScalar
    | EnumType(values: set<string>)
    | InputObject(oneOf: bool, fields: map<string, InField>)

  type Types = map<string, InDef>

  /** Names resolve, non-null is not doubled, and a `@oneOf` input's fields are nullable and have
      no defaults. */
  predicate TypeOk(g: Types, t: InType) {
    match t
    case Named(n) => n in g
    case ListOf(of) => TypeOk(g, of)
    case NonNull(of) => !of.NonNull? && TypeOk(g, of)
  }

  ghost predicate TypesOk(g: Types) {
    forall n, f :: n in g && g[n].InputObject? && f in g[n].fields ==>
      TypeOk(g, g[n].fields[f].typ) && (g[n].oneOf ==> !g[n].fields[f].typ.NonNull? && !g[n].fields[f].hasDefault)
  }

  datatype Value = Null | Leaf(kind: Kind, text: string) | List(items: seq<Value>) | Object(fields: map<string, Value>)

  // ---------------------------------------------------------------- what GraphQL accepts

  /** Input coercion of a variable's value (October 2021, sections 3.5 to 3.12), without turning a
      lone value into a list. `lenient` lets a non-null custom scalar be null. */
  predicate Accepts(g: Types, t: InType, v: Value, lenient: bool)
    decreases v, t
  {
    match t
    case NonNull(of) => if v.Null? then lenient && IsCustom(g, of) else AcceptsInner(g, of, v, lenient)
    case _ => v.Null? || AcceptsInner(g, t, v, lenient)
  }

  predicate IsCustom(g: Types, t: InType) {
    t.Named? && t.name in g && g[t.name].CustomScalar?
  }

  /** A value that isn't null. */
  predicate AcceptsInner(g: Types, t: InType, v: Value, lenient: bool)
    decreases v, t, 0
  {
    match t
    case NonNull(_) => false
    case ListOf(of) => v.List? && forall k :: 0 <= k < |v.items| ==> Accepts(g, of, v.items[k], lenient)
    case Named(n) =>
      n in g &&
      match g[n]
      case KnownScalar(kinds) => v.Leaf? && v.kind in kinds
      case CustomScalar => true
      case EnumType(values) => v.Leaf? && v.kind.Text? && v.text in values
      case InputObject(oneOf, fields) =>
        && v.Object?
        && (forall f :: f in fields && fields[f].typ.NonNull? && !fields[f].hasDefault ==> f in v.fields)
        && (oneOf ==> |v.fields| == 1)
        && (forall f :: f in v.fields ==>
              f in fields && (oneOf ==> !v.fields[f].Null?) && Accepts(g, fields[f].typ, v.fields[f], lenient))
  }

  // ---------------------------------------------------------------- the schemas

  datatype Schema =
    | Anything
    | NotNull
    | Kinds(kinds: set<Kind>, nullable: bool)
    | Texts(values: set<string>, nullable: bool)
    | ArrayOf(items: Schema, nullable: bool)
    | Ref(name: string)
    | RefOrNull(name: string)

  /** A definition: an object with just these properties. */
  datatype Definition = Definition(properties: map<string, Schema>, required: set<string>, oneOf: bool)

  type Definitions = map<string, Definition>

  /** `_nullable`. */
  function Nullable(s: Schema): Schema {
    match s
    case Ref(n) => RefOrNull(n)
    case Kinds(kinds, _) => Kinds(kinds, true)
    case Texts(values, _) => Texts(values, true)
    case ArrayOf(items, _) => ArrayOf(items, true)
    case _ => s
  }

  /** `_non_null`. */
  function Refusing(s: Schema): Schema {
    if s.Anything? then NotNull else s
  }

  function SchemaOf(g: Types, t: InType): Schema {
    if t.NonNull? then InnerSchema(g, t.of) else Nullable(InnerSchema(g, t))
  }

  function InnerSchema(g: Types, t: InType): Schema {
    match t
    case NonNull(_) => Anything
    case ListOf(of) => ArrayOf(if of.NonNull? then InnerSchema(g, of.of) else Nullable(InnerSchema(g, of)), false)
    case Named(n) =>
      if n !in g then Anything
      else
        match g[n]
        case KnownScalar(kinds) => Kinds(kinds, false)
        case CustomScalar => Anything
        case EnumType(values) => Texts(values, false)
        case InputObject(_, _) => Ref(n)
  }

  function PropertySchema(g: Types, oneOf: bool, f: InField): Schema {
    if oneOf then Refusing(InnerSchema(g, if f.typ.NonNull? then f.typ.of else f.typ)) else SchemaOf(g, f.typ)
  }

  function DefinitionOf(g: Types, n: string): Definition
    requires n in g && g[n].InputObject?
  {
    var fields := g[n].fields;
    var required := set f | f in fields && fields[f].typ.NonNull? && !fields[f].hasDefault;
    Definition(map f | f in fields :: PropertySchema(g, g[n].oneOf, fields[f]), required, g[n].oneOf)
  }

  // ---------------------------------------------------------------- what a schema admits

  /** JSON Schema's reading, with the definitions at hand. */
  predicate Admits(defs: Definitions, s: Schema, v: Value)
    decreases v, 1
  {
    match s
    case Anything => true
    case NotNull => !v.Null?
    case Kinds(kinds, nullable) => if v.Null? then nullable else v.Leaf? && v.kind in kinds
    case Texts(values, nullable) => if v.Null? then nullable else v.Leaf? && v.kind.Text? && v.text in values
    case ArrayOf(items, nullable) =>
      if v.Null? then nullable else v.List? && forall k :: 0 <= k < |v.items| ==> Admits(defs, items, v.items[k])
    case Ref(n) => n in defs && AdmitsObject(defs, defs[n], v)
    case RefOrNull(n) => v.Null? || (n in defs && AdmitsObject(defs, defs[n], v))
  }

  predicate AdmitsObject(defs: Definitions, d: Definition, v: Value)
    decreases v, 0
  {
    && v.Object? && d.required <= v.fields.Keys
    && (d.oneOf ==> |v.fields| == 1)
    && (forall f :: f in v.fields ==> f in d.properties && Admits(defs, d.properties[f], v.fields[f]))
  }

  /** The definition a schema points to. */
  function Target(s: Schema): Option<string> {
    match s
    case Ref(n) => Some(n)
    case RefOrNull(n) => Some(n)
    case ArrayOf(items, _) => Target(items)
    case _ => None
  }

  predicate Resolves(names: set<string>, s: Schema) {
    Target(s).Some? ==> Target(s).value in names
  }

  /** Every definition says what its input type says, and points only to definitions there are. */
  ghost predicate Complete(g: Types, defs: Definitions) {
    forall n :: n in defs ==>
      n in g && g[n].InputObject? && defs[n] == DefinitionOf(g, n) &&
      forall f :: f in defs[n].properties ==> Resolves(defs.Keys, defs[n].properties[f])
  }

  // ---------------------------------------------------------------- they admit the same

  lemma {:induction false} SchemaMeansTheType(g: Types, defs: Definitions, t: InType, v: Value)
    requires TypesOk(g) && TypeOk(g, t) && Complete(g, defs) && Resolves(defs.Keys, SchemaOf(g, t))
    ensures Admits(defs, SchemaOf(g, t), v) <==> Accepts(g, t, v, true)
    decreases v, t, 1
  {
    var inner := if t.NonNull? then t.of else t;
    if !v.Null? {
      InnerMeansTheType(g, defs, inner, v);
    }
  }

  /** A value that isn't null is admitted alike, nullable or not. */
  lemma {:induction false} InnerMeansTheType(g: Types, defs: Definitions, t: InType, v: Value)
    requires TypesOk(g) && TypeOk(g, t) && !t.NonNull? && !v.Null?
    requires Complete(g, defs) && Resolves(defs.Keys, InnerSchema(g, t))
    ensures Admits(defs, InnerSchema(g, t), v) <==> AcceptsInner(g, t, v, true)
    ensures Admits(defs, Nullable(InnerSchema(g, t)), v) <==> AcceptsInner(g, t, v, true)
    ensures Admits(defs, Refusing(InnerSchema(g, t)), v) <==> AcceptsInner(g, t, v, true)
    decreases v, t, 0
  {
    match t
    case ListOf(of) =>
      if v.List? {
        forall k | 0 <= k < |v.items|
          ensures Admits(defs, SchemaOf(g, of), v.items[k]) <==> Accepts(g, of, v.items[k], true)
        {
          SchemaMeansTheType(g, defs, of, v.items[k]);
        }
      }
    case Named(n) =>
      if g[n].InputObject? && v.Object? {
        ObjectMeansTheType(g, defs, n, v);
      }
  }

  lemma {:induction false} ObjectMeansTheType(g: Types, defs: Definitions, n: string, v: Value)
    requires TypesOk(g) && n in g && g[n].InputObject? && v.Object? && Complete(g, defs) && n in defs
    ensures AdmitsObject(defs, defs[n], v) <==> AcceptsInner(g, Named(n), v, true)
    decreases v, Named(n), 0, 0
  {
    var fields := g[n].fields;
    forall f | f in v.fields && f in fields
      ensures Admits(defs, defs[n].properties[f], v.fields[f]) <==>
              (g[n].oneOf ==> !v.fields[f].Null?) && Accepts(g, fields[f].typ, v.fields[f], true)
    {
      var (typ, u) := (fields[f].typ, v.fields[f]);
      assert TypeOk(g, typ) && Resolves(defs.Keys, defs[n].properties[f]);
      if g[n].oneOf {
        if !u.Null? {
          InnerMeansTheType(g, defs, typ, u);
        }
      } else {
        SchemaMeansTheType(g, defs, typ, u);
      }
    }
  }

  /** So every value the API takes is admitted. */
  lemma {:induction false} StrictIsLenient(g: Types, t: InType, v: Value)
    requires Accepts(g, t, v, false)
    ensures Accepts(g, t, v, true)
    decreases v, t
  {
    var inner := if t.NonNull? then t.of else t;
    if !v.Null? {
      match inner
      case NonNull(_) =>
      case ListOf(of) =>
        forall k | 0 <= k < |v.items|
          ensures Accepts(g, of, v.items[k], true)
        {
          StrictIsLenient(g, of, v.items[k]);
        }
      case Named(n) =>
        if g[n].InputObject? {
          forall f | f in v.fields
            ensures Accepts(g, g[n].fields[f].typ, v.fields[f], true)
          {
            StrictIsLenient(g, g[n].fields[f].typ, v.fields[f]);
          }
        }
    }
  }

  /** Nothing but null for a non-null custom scalar is admitted beyond that: such a type's schema
      says nothing about null. */
  predicate NamesNonNullCustom(g: Types, t: InType) {
    match t
    case Named(_) => false
    case ListOf(of) => NamesNonNullCustom(g, of)
    case NonNull(of) => IsCustom(g, of) || NamesNonNullCustom(g, of)
  }

  lemma NonNullCustomScalarAdmitsNull(g: Types, defs: Definitions, n: string)
    requires n in g && g[n].CustomScalar?
    ensures Admits(defs, SchemaOf(g, NonNull(Named(n))), Null) && !Accepts(g, NonNull(Named(n)), Null, false)
  {
  }

  function Base(t: InType): string {
    match t
    case Named(n) => n
    case ListOf(of) => Base(of)
    case NonNull(of) => Base(of)
  }

  /** Within `depth` steps through input fields, lists looked into. */
  ghost predicate ReachesWithin(g: Types, t: InType, depth: nat)
    decreases depth
  {
    || NamesNonNullCustom(g, t)
    || (depth > 0 && Base(t) in g && g[Base(t)].InputObject? &&
        exists f :: f in g[Base(t)].fields && ReachesWithin(g, g[Base(t)].fields[f].typ, depth - 1))
  }

  /** A non-null custom scalar is reachable from `t` through lists and input fields. */
  ghost predicate ReachesNonNullCustom(g: Types, t: InType) {
    exists depth: nat :: ReachesWithin(g, t, depth)
  }

  lemma FieldReaches(g: Types, t: InType, f: string)
    requires Base(t) in g && g[Base(t)].InputObject? && f in g[Base(t)].fields
    requires ReachesNonNullCustom(g, g[Base(t)].fields[f].typ)
    ensures ReachesNonNullCustom(g, t)
  {
    var depth: nat :| ReachesWithin(g, g[Base(t)].fields[f].typ, depth);
    assert ReachesWithin(g, t, depth + 1);
  }

  lemma SameReach(g: Types, t: InType, u: InType)
    requires Base(t) == Base(u) && (NamesNonNullCustom(g, u) ==> NamesNonNullCustom(g, t))
    ensures ReachesNonNullCustom(g, u) ==> ReachesNonNullCustom(g, t)
  {
    if depth: nat :| ReachesWithin(g, u, depth) {
      assert ReachesWithin(g, t, depth);
    }
  }

  lemma {:induction false} LenientIsStrict(g: Types, t: InType, v: Value)
    requires Accepts(g, t, v, true) && !ReachesNonNullCustom(g, t)
    ensures Accepts(g, t, v, false)
    decreases v, t
  {
    assert ReachesWithin(g, t, 0) <==> NamesNonNullCustom(g, t);
    var inner := if t.NonNull? then t.of else t;
    if !v.Null? {
      match inner
      case NonNull(_) =>
      case ListOf(of) =>
        SameReach(g, t, of);
        forall k | 0 <= k < |v.items|
          ensures Accepts(g, of, v.items[k], false)
        {
          LenientIsStrict(g, of, v.items[k]);
        }
      case Named(n) =>
        if g[n].InputObject? {
          forall f | f in v.fields
            ensures Accepts(g, g[n].fields[f].typ, v.fields[f], false)
          {
            if ReachesNonNullCustom(g, g[n].fields[f].typ) {
              FieldReaches(g, t, f);
            }
            LenientIsStrict(g, g[n].fields[f].typ, v.fields[f]);
          }
        }
    }
  }

  // ---------------------------------------------------------------- every type takes some value

  /** What GraphQL asks of input types: an enum has values and required fields lead to each other in
      no circle (`rank` goes down along them), as sections 3.9 and 3.10 of the October 2021 edition
      have it; and one field of a `@oneOf` input, which that edition doesn't know yet, leads out. */
  ghost predicate Inhabited(g: Types, rank: map<string, nat>) {
    g.Keys <= rank.Keys && forall n :: n in g ==> InhabitedAt(g, rank, n)
  }

  ghost predicate InhabitedAt(g: Types, rank: map<string, nat>, n: string)
    requires n in g && g.Keys <= rank.Keys
  {
    match g[n]
    case KnownScalar(kinds) => kinds != {}
    case CustomScalar => true
    case EnumType(values) => values != {}
    case InputObject(oneOf, fields) =>
      if oneOf then exists f :: f in fields && GoesDown(rank, fields[f].typ, rank[n])
      else forall f :: f in fields && fields[f].typ.NonNull? && !fields[f].hasDefault ==> GoesDown(rank, fields[f].typ.of, rank[n])
  }

  predicate GoesDown(rank: map<string, nat>, t: InType, below: nat) {
    match t
    case ListOf(_) => true
    case Named(n) => n in rank && rank[n] < below
    case NonNull(_) => false
  }

  function RankOf(rank: map<string, nat>, t: InType): nat {
    match t
    case Named(n) => if n in rank then rank[n] + 1 else 0
    case _ => 0
  }

  /** Some value of the type, not null. */
  ghost function Sample(g: Types, rank: map<string, nat>, t: InType): Value
    requires TypesOk(g) && TypeOk(g, t) && !t.NonNull? && Inhabited(g, rank)
    decreases RankOf(rank, t), 1
  {
    match t
    case ListOf(_) => List([])
    case Named(n) =>
      assert InhabitedAt(g, rank, n);
      match g[n]
      case KnownScalar(kinds) => var kind :| kind in kinds; Leaf(kind, "")
      case CustomScalar => Leaf(Text, "")
      case EnumType(values) => var text :| text in values; Leaf(Text, text)
      case InputObject(oneOf, fields) =>
        if oneOf then
          var f :| f in fields && GoesDown(rank, fields[f].typ, rank[n]);
          Object(map[f := Sample(g, rank, fields[f].typ)])
        else SampleObject(g, rank, n)
  }

  /** The required fields of an input object, filled in. */
  ghost function SampleObject(g: Types, rank: map<string, nat>, n: string): Value
    requires TypesOk(g) && n in g && g[n].InputObject? && !g[n].oneOf && Inhabited(g, rank)
    decreases rank[n] + 1, 0
  {
    assert InhabitedAt(g, rank, n);
    var fields := g[n].fields;
    Object(map f | f in fields && fields[f].typ.NonNull? && !fields[f].hasDefault :: Sample(g, rank, fields[f].typ.of))
  }

  lemma {:induction false} SampleIsAccepted(g: Types, rank: map<string, nat>, t: InType)
    requires TypesOk(g) && TypeOk(g, t) && !t.NonNull? && Inhabited(g, rank)
    ensures !Sample(g, rank, t).Null? && AcceptsInner(g, t, Sample(g, rank, t), false)
    decreases RankOf(rank, t), 1
  {
    if t.Named? {
      assert InhabitedAt(g, rank, t.name);
      if g[t.name].InputObject? {
        if g[t.name].oneOf {
          var fields := g[t.name].fields;
          var v := Sample(g, rank, t);
          forall f | f in v.fields
            ensures f in fields && !v.fields[f].Null? && Accepts(g, fields[f].typ, v.fields[f], false)
          {
            SampleIsAccepted(g, rank, fields[f].typ);
          }
        } else {
          SampleObjectIsAccepted(g, rank, t.name);
        }
      }
    }
  }

  lemma {:induction false} SampleObjectIsAccepted(g: Types, rank: map<string, nat>, n: string)
    requires TypesOk(g) && n in g && g[n].InputObject? && !g[n].oneOf && Inhabited(g, rank)
    ensures SampleObject(g, rank, n).Object? && AcceptsInner(g, Named(n), SampleObject(g, rank, n), false)
    decreases rank[n] + 1, 0
  {
    assert InhabitedAt(g, rank, n);
    var (fields, v) := (g[n].fields, SampleObject(g, rank, n));
    forall f | f in v.fields
      ensures Accepts(g, fields[f].typ, v.fields[f], false)
    {
      SampleIsAccepted(g, rank, fields[f].typ.of);
    }
  }

  /** A value the schema lets through and the API refuses, for a type that reaches a non-null custom
      scalar: a null there, in as little as the types on the way need. */
  lemma {:induction false} NullGetsThrough(g: Types, rank: map<string, nat>, t: InType, depth: nat) returns (v: Value)
    requires TypesOk(g) && TypeOk(g, t) && Inhabited(g, rank) && ReachesWithin(g, t, depth)
    ensures Accepts(g, t, v, true) && !Accepts(g, t, v, false)
    decreases depth, t
  {
    match t
    case NonNull(of) =>
      if IsCustom(g, of) {
        v := Null;
      } else {
        v := NullGetsThrough(g, rank, of, depth);
        assert Accepts(g, of, Null, false);
      }
    case ListOf(of) =>
      var item := NullGetsThrough(g, rank, of, depth);
      v := List([item]);
      assert v.items[0] == item;
    case Named(n) =>
      var f :| f in g[n].fields && ReachesWithin(g, g[n].fields[f].typ, depth - 1);
      var u := NullGetsThrough(g, rank, g[n].fields[f].typ, depth - 1);
      v := NullInField(g, rank, n, f, u);
  }

  lemma NullInField(g: Types, rank: map<string, nat>, n: string, f: string, u: Value) returns (v: Value)
    requires TypesOk(g) && Inhabited(g, rank) && n in g && g[n].InputObject? && f in g[n].fields
    requires Accepts(g, g[n].fields[f].typ, u, true) && !Accepts(g, g[n].fields[f].typ, u, false)
    ensures Accepts(g, Named(n), v, true) && !Accepts(g, Named(n), v, false)
  {
    var fields := g[n].fields;
    if g[n].oneOf {
      v := Object(map[f := u]);
      assert f in v.fields;
    } else {
      SampleObjectIsAccepted(g, rank, n);
      var sample := SampleObject(g, rank, n);
      StrictIsLenient(g, Named(n), sample);
      v := Object(sample.fields[f := u]);
      assert f in v.fields;
    }
  }

  /** Nothing the API takes is refused, and the schema admits exactly what the API takes if and only
      if no non-null custom scalar is reachable from the type. */
  lemma SchemaIsExactIff(g: Types, rank: map<string, nat>, defs: Definitions, t: InType)
    requires TypesOk(g) && TypeOk(g, t) && Inhabited(g, rank) && Complete(g, defs) && Resolves(defs.Keys, SchemaOf(g, t))
    ensures forall v :: Accepts(g, t, v, false) ==> Admits(defs, SchemaOf(g, t), v)
    ensures (forall v :: Admits(defs, SchemaOf(g, t), v) <==> Accepts(g, t, v, false)) <==> !ReachesNonNullCustom(g, t)
  {
    forall v
      ensures Accepts(g, t, v, false) ==> Admits(defs, SchemaOf(g, t), v)
      ensures !ReachesNonNullCustom(g, t) ==> (Admits(defs, SchemaOf(g, t), v) <==> Accepts(g, t, v, false))
    {
      SchemaAdmits(g, defs, t, v);
    }
    if depth: nat :| ReachesWithin(g, t, depth) {
      var v := NullGetsThrough(g, rank, t, depth);
      SchemaMeansTheType(g, defs, t, v);
    }
  }

  lemma SchemaAdmits(g: Types, defs: Definitions, t: InType, v: Value)
    requires TypesOk(g) && TypeOk(g, t) && Complete(g, defs) && Resolves(defs.Keys, SchemaOf(g, t))
    ensures Accepts(g, t, v, false) ==> Admits(defs, SchemaOf(g, t), v)
    ensures !ReachesNonNullCustom(g, t) ==> (Admits(defs, SchemaOf(g, t), v) <==> Accepts(g, t, v, false))
  {
    SchemaMeansTheType(g, defs, t, v);
    if Accepts(g, t, v, false) {
      StrictIsLenient(g, t, v);
    }
    if Accepts(g, t, v, true) && !ReachesNonNullCustom(g, t) {
      LenientIsStrict(g, t, v);
    }
  }

  // ---------------------------------------------------------------- building them

  /** The definitions of a tool, filled in as input objects are met. A definition is a placeholder
      first, so that its fields may refer back to it. */
  class Builder {
    const types: Types
    var defs: map<string, Option<Definition>>

    ghost predicate Valid()
      reads this
    {
      && TypesOk(types)
      && (forall n :: n in defs ==> n in types && types[n].InputObject?)
      && (forall n :: n in defs && defs[n].Some? ==>
            defs[n].value == DefinitionOf(types, n) && AllResolve(defs.Keys, defs[n].value.properties))
    }

    constructor (types: Types)
      requires TypesOk(types)
      ensures Valid() && this.types == types && defs == map[]
    {
      this.types, defs := types, map[];
    }

    /** What there was stays as it was; what is new is finished. */
    twostate predicate Grown()
      reads this
    {
      && (forall n :: n in old(defs) ==> n in defs && defs[n] == old(defs)[n])
      && (forall n :: n in defs && n !in old(defs) ==> defs[n].Some?)
    }

    /** `input_schema`. */
    method For(t: InType) returns (s: Schema)
      requires Valid() && TypeOk(types, t)
      modifies this
      ensures Valid() && Grown()
      ensures s == SchemaOf(types, t) && Resolves(defs.Keys, s)
      decreases types.Keys - defs.Keys, t, 2
    {
      if t.NonNull? {
        s := Inner(t.of);
      } else {
        s := Inner(t);
        s := Nullable(s);
      }
    }

    /** `_input_schema`. */
    method Inner(t: InType) returns (s: Schema)
      requires Valid() && TypeOk(types, t) && !t.NonNull?
      modifies this
      ensures Valid() && Grown()
      ensures s == InnerSchema(types, t) && Resolves(defs.Keys, s)
      decreases types.Keys - defs.Keys, t, 1
    {
      match t
      case ListOf(of) =>
        s := For(of);
        s := ArrayOf(s, false);
      case Named(n) =>
        match types[n] {
          case KnownScalar(kinds) => s := Kinds(kinds, false);
          case CustomScalar => s := Anything;
          case EnumType(values) => s := Texts(values, false);
          case InputObject(_, _) =>
            if n !in defs {
              Define(n);
            }
            s := Ref(n);
        }
    }

    method Define(n: string)
      requires Valid() && n in types && types[n].InputObject? && n !in defs
      modifies this
      ensures Valid() && Grown() && n in defs
      decreases types.Keys - defs.Keys, Named(n), 0
    {
      assert n in types.Keys - defs.Keys;
      defs := defs[n := None];
      var properties, required := Properties(n);
      defs := defs[n := Some(Definition(properties, required, types[n].oneOf))];
      assert Definition(properties, required, types[n].oneOf) == DefinitionOf(types, n);
    }

    method Property(oneOf: bool, f: InField) returns (s: Schema)
      requires Valid() && TypeOk(types, f.typ) && (oneOf ==> !f.typ.NonNull?)
      modifies this
      ensures Valid() && Grown()
      ensures s == PropertySchema(types, oneOf, f) && Resolves(defs.Keys, s)
      decreases types.Keys - defs.Keys, f.typ
    {
      if oneOf {
        s := Inner(f.typ);
        s := Refusing(s);
      } else {
        s := For(f.typ);
      }
    }

    /** The properties of an input object whose placeholder is in. */
    method Properties(n: string) returns (properties: map<string, Schema>, required: set<string>)
      requires Valid() && n in defs && defs[n].None?
      modifies this
      ensures Valid() && Grown()
      ensures properties == DefinitionOf(types, n).properties && required == DefinitionOf(types, n).required
      ensures AllResolve(defs.Keys, properties)
      decreases types.Keys - defs.Keys
    {
      var fields, oneOf := types[n].fields, types[n].oneOf;
      properties, required := map[], {};
      var todo := fields.Keys;
      while todo != {}
        invariant Valid() && Grown() && todo <= fields.Keys && properties.Keys == fields.Keys - todo
        invariant forall f :: f in properties ==> properties[f] == PropertySchema(types, oneOf, fields[f])
        invariant AllResolve(defs.Keys, properties)
        invariant required == set f | f in fields && f !in todo && fields[f].typ.NonNull? && !fields[f].hasDefault
        decreases todo
      {
        var f :| f in todo;
        todo := todo - {f};
        var s := Property(oneOf, fields[f]);
        properties := properties[f := s];
        if fields[f].typ.NonNull? && !fields[f].hasDefault {
          required := required + {f};
        }
      }
    }
  }

  predicate AllResolve(names: set<string>, properties: map<string, Schema>) {
    forall f :: f in properties ==> Resolves(names, properties[f])
  }

  /** The schema and the definitions of one argument, on any input types, recursive ones too. */
  method SchemaFor(g: Types, t: InType) returns (s: Schema, defs: Definitions)
    requires TypesOk(g) && TypeOk(g, t)
    ensures Complete(g, defs) && s == SchemaOf(g, t) && Resolves(defs.Keys, s)
    ensures forall v :: Admits(defs, s, v) <==> Accepts(g, t, v, true)
  {
    var builder := new Builder(g);
    s := builder.For(t);
    defs := map n | n in builder.defs :: builder.defs[n].value;
    assert defs.Keys == builder.defs.Keys;
    forall v
      ensures Admits(defs, s, v) <==> Accepts(g, t, v, true)
    {
      SchemaMeansTheType(g, defs, t, v);
    }
  }
}
