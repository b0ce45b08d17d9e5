/**
 The other promise of relabelling: the schema a client now reads as 2020-12 satisfies 2020-12's
 meta-schema, so the complaint about the dialect isn't swapped for one about the schema.
 */
module SchemaMetaValidity {
  import opened Basics
  import opened SchemaEvaluation
  import opened SchemaDialect

  // ---------------------------------------------------------------- the two meta-schemas

  const STRINGS: set<string> := {
    "$schema", "$ref", "$comment", "title", "description", "format", "contentEncoding", "contentMediaType"
  }

  const BOOLEANS: set<string> := {"readOnly", "writeOnly"}

  const COMMON_SCHEMAS: set<string> := {
    "additionalProperties", "contains", "propertyNames", "not", "if", "then", "else"
  }

  const COMMON_LISTS: set<string> := {"allOf", "anyOf", "oneOf"}

  const COMMON_MAPS: set<string> := {"properties", "patternProperties", "definitions"}

  predicate IsStringArray(v: Json) {
    v.Arr? && forall i :: 0 <= i < |v.items| ==> v.items[i].Str?
  }

  predicate IsSchemaArray(v: Json) {
    v.Arr? && v.items != [] && forall i :: 0 <= i < |v.items| ==> IsSchemaValue(v.items[i])
  }

  /** What both meta-schemas say about the keywords of one object. */
  predicate CommonShapes(f: map<string, Json>) {
    && (forall k :: k in STRINGS && k in f ==> f[k].Str?)
    && (forall k :: k in BOOLEANS && k in f ==> f[k].Bool?)
    && (forall k :: k in COMMON_SCHEMAS && k in f ==> IsSchemaValue(f[k]))
    && (forall k :: k in COMMON_LISTS && k in f ==> IsSchemaArray(f[k]))
    && (forall k :: k in COMMON_MAPS && k in f ==> IsSchemaMap(f[k]))
    && ("$id" in f ==> f["$id"].Str?)
    && ("type" in f ==> f["type"].Str? || IsStringArray(f["type"]))
    && ("required" in f ==> IsStringArray(f["required"]))
    && ("dependencies" in f ==> f["dependencies"].Obj?)
    && ("dependencies" in f ==>
          forall n :: n in f["dependencies"].fields ==>
            IsSchemaValue(f["dependencies"].fields[n]) || IsStringArray(f["dependencies"].fields[n]))
  }

  predicate Shapes(d: Dialect, f: map<string, Json>) {
    CommonShapes(f) &&
    match d
    case Draft07 =>
      && ("items" in f ==> IsSchemaValue(f["items"]) || IsSchemaArray(f["items"]))
      && ("additionalItems" in f ==> IsSchemaValue(f["additionalItems"]))
    case Draft2020 => OwnShapes(f)
  }

  /** What 2020-12's meta-schema adds. */
  predicate OwnShapes(f: map<string, Json>) {
    && (forall k :: k in {"items", "contentSchema", "unevaluatedItems", "unevaluatedProperties"} && k in f ==>
          IsSchemaValue(f[k]))
    && (forall k :: k in {"$defs", "dependentSchemas"} && k in f ==> IsSchemaMap(f[k]))
    && (forall k :: k in {"minContains", "maxContains"} && k in f ==> IsNonNegativeInt(f[k]))
    && (forall k :: k in {"$anchor", "$dynamicAnchor", "$recursiveAnchor"} && k in f ==> IsAnchorString(f[k]))
    && (forall k :: k in {"$dynamicRef", "$recursiveRef"} && k in f ==> f[k].Str?)
    && ("$id" in f ==> IdIsPortable(f["$id"]))
    && ("$vocabulary" in f ==> f["$vocabulary"].Obj?)
    && ("deprecated" in f ==> f["deprecated"].Bool?)
    && ("prefixItems" in f ==> IsSchemaArray(f["prefixItems"]))
    && ("dependentRequired" in f ==> f["dependentRequired"].Obj?)
    && ("dependentRequired" in f ==>
          forall n :: n in f["dependentRequired"].fields ==> IsStringArray(f["dependentRequired"].fields[n]))
  }

  function SchemaKeys(d: Dialect): set<string> {
    COMMON_SCHEMAS + {"items"} +
    if d.Draft07? then {"additionalItems"}
    else {"contentSchema", "unevaluatedItems", "unevaluatedProperties"}
  }

  function ListKeys(d: Dialect): set<string> {
    COMMON_LISTS + if d.Draft07? then {"items"} else {"prefixItems"}
  }

  function MapKeys(d: Dialect): set<string> {
    COMMON_MAPS + {"dependencies"} + if d.Draft07? then {} else {"$defs", "dependentSchemas"}
  }

  /** The subschemas a meta-schema inspects. */
  function Inspected(d: Dialect, s: Json): (r: set<Json>)
    requires s.Obj?
    ensures forall c :: c in r ==> c < s && IsSchemaValue(c)
  {
    ValuesAt(SchemaKeys(d), s.fields) + ElementsAt(ListKeys(d), s.fields) + MembersAt(MapKeys(d), s.fields)
  }

  function ValuesAt(keys: set<string>, f: map<string, Json>): set<Json> {
    set k | k in keys && k in f && IsSchemaValue(f[k]) :: f[k]
  }

  function ElementsAt(keys: set<string>, f: map<string, Json>): set<Json> {
    set k, i | k in keys && k in f && f[k].Arr? && 0 <= i < |f[k].items| && IsSchemaValue(f[k].items[i]) :: f[k].items[i]
  }

  function MembersAt(keys: set<string>, f: map<string, Json>): set<Json> {
    set k, n | k in keys && k in f && f[k].Obj? && n in f[k].fields && IsSchemaValue(f[k].fields[n]) :: f[k].fields[n]
  }

  predicate MetaValid(d: Dialect, s: Json)
    decreases s
  {
    s.Bool? ||
    (s.Obj? && Shapes(d, s.fields) && forall c :: c in Inspected(d, s) ==> MetaValid(d, c))
  }

  // ---------------------------------------------------------------- what draft-07 never looks at

  /** The schemas both meta-schemas inspect. */
  function Shared(s: Json): (r: set<Json>)
    requires s.Obj?
    ensures forall c :: c in r ==> c < s
  {
    Inspected(Draft07, s) * Inspected(Draft2020, s)
  }

  /** The schemas 2020-12 inspects and draft-07 doesn't, wherever draft-07 looks at all. */
  function HiddenSchemas(s: Json): set<Json>
    decreases s
  {
    if !s.Obj? then {}
    else Inspected(Draft2020, s) - Inspected(Draft07, s) + set c, h | c in Shared(s) && h in HiddenSchemas(c) :: h
  }

  /** A schema obeys the rules of draft-07 that 2020-12 kept, all the way down. */
  predicate KeepsTheCommonRules(s: Json)
    decreases s
  {
    s.Bool? ||
    (s.Obj? && CommonShapes(s.fields) && ("items" in s.fields ==> IsSchemaValue(s.fields["items"])) &&
     forall c :: c in Inspected(Draft2020, s) ==> KeepsTheCommonRules(c))
  }

  // ---------------------------------------------------------------- the theorem

  lemma PassedTheNode(f: map<string, Json>, isRoot: bool)
    requires !NodeIncompatible(f, isRoot)
    ensures forall k :: k in POST_DRAFT_07_ASSERTION_KEYWORDS ==> k !in f
    ensures "$anchor" !in f && "$dynamicAnchor" !in f && "$vocabulary" !in f
    ensures !HasNonPortableValue(f) && ("$id" in f ==> IdIsPortable(f["$id"]))
  {
  }

  lemma InspectedAreWalked(s: Json, isRoot: bool)
    requires s.Obj? && !NodeIncompatible(s.fields, isRoot)
    ensures Inspected(Draft2020, s) <= WalkedChildren(s)
  {
    PassedTheNode(s.fields, isRoot);
    assert SchemaKeys(Draft2020) <= SCHEMA_KEYWORDS;
    assert ListKeys(Draft2020) <= SCHEMA_LIST_KEYWORDS + POST_DRAFT_07_ASSERTION_KEYWORDS;
    assert MapKeys(Draft2020) <= SCHEMA_NAME_MAP_KEYWORDS + POST_DRAFT_07_ASSERTION_KEYWORDS;
  }

  /** The walk leaves 2020-12's own rules nothing to catch. */
  lemma {:induction false} OnlyTheCommonRulesMatter(s: Json, isRoot: bool, depth: nat)
    requires !Incompatible(s, isRoot, depth)
    ensures MetaValid(Draft2020, s) <==> KeepsTheCommonRules(s)
    decreases s
  {
    if s.Obj? {
      PassedTheNode(s.fields, isRoot);
      assert Shapes(Draft2020, s.fields) <==>
             CommonShapes(s.fields) && ("items" in s.fields ==> IsSchemaValue(s.fields["items"]));
      InspectedAreWalked(s, isRoot);
      forall c | c in Inspected(Draft2020, s)
        ensures MetaValid(Draft2020, c) <==> KeepsTheCommonRules(c)
      {
        OnlyTheCommonRulesMatter(c, false, depth + 1);
      }
    }
  }

  lemma HiddenOf(s: Json, h: Json)
    requires s.Obj?
    ensures h in HiddenSchemas(s) <==>
            (h in Inspected(Draft2020, s) && h !in Inspected(Draft07, s)) || exists c :: c in Shared(s) && h in HiddenSchemas(c)
  {
  }

  /** At its own node, a draft-07 schema that passed the walk keeps the common rules. */
  lemma NodeKeeps(s: Json, isRoot: bool)
    requires s.Obj? && Shapes(Draft07, s.fields) && !NodeIncompatible(s.fields, isRoot)
    ensures CommonShapes(s.fields) && ("items" in s.fields ==> IsSchemaValue(s.fields["items"]))
  {
    PassedTheNode(s.fields, isRoot);
  }

  lemma {:induction false} HiddenDecides(s: Json, isRoot: bool, depth: nat)
    requires MetaValid(Draft07, s) && !Incompatible(s, isRoot, depth)
    ensures KeepsTheCommonRules(s) <==> forall h :: h in HiddenSchemas(s) ==> KeepsTheCommonRules(h)
    decreases s
  {
    if s.Obj? {
      NodeKeeps(s, isRoot);
      InspectedAreWalked(s, isRoot);
      forall c | c in Shared(s)
        ensures KeepsTheCommonRules(c) <==> forall h :: h in HiddenSchemas(c) ==> KeepsTheCommonRules(h)
      {
        HiddenDecides(c, false, depth + 1);
      }
      InspectedOrHidden(s);
    }
  }

  lemma InspectedOrHidden(s: Json)
    requires s.Obj?
    requires forall c :: c in Shared(s) ==>
               (KeepsTheCommonRules(c) <==> forall h :: h in HiddenSchemas(c) ==> KeepsTheCommonRules(h))
    ensures (forall c :: c in Inspected(Draft2020, s) ==> KeepsTheCommonRules(c)) <==>
            (forall h :: h in HiddenSchemas(s) ==> KeepsTheCommonRules(h))
  {
    forall h | h in HiddenSchemas(s) && forall c :: c in Inspected(Draft2020, s) ==> KeepsTheCommonRules(c)
      ensures KeepsTheCommonRules(h)
    {
      HiddenOf(s, h);
    }
    forall c | c in Inspected(Draft2020, s) && forall h :: h in HiddenSchemas(s) ==> KeepsTheCommonRules(h)
      ensures KeepsTheCommonRules(c)
    {
      HiddenOf(s, c);
      forall h | c in Shared(s) && h in HiddenSchemas(c)
        ensures KeepsTheCommonRules(h)
      {
        HiddenOf(s, h);
      }
    }
  }

  lemma InspectedIgnoresTheDialect(s: Json, uri: string)
    requires s.Obj?
    ensures Inspected(Draft2020, Obj(s.fields["$schema" := Str(uri)])) == Inspected(Draft2020, s)
  {
    assert "$schema" !in SchemaKeys(Draft2020) && "$schema" !in ListKeys(Draft2020) && "$schema" !in MapKeys(Draft2020);
    OtherKeysMatter(SchemaKeys(Draft2020), s.fields, "$schema", Str(uri));
    OtherKeysMatter(ListKeys(Draft2020), s.fields, "$schema", Str(uri));
    OtherKeysMatter(MapKeys(Draft2020), s.fields, "$schema", Str(uri));
  }

  lemma OtherKeysMatter(keys: set<string>, f: map<string, Json>, key: string, value: Json)
    requires key !in keys
    ensures ValuesAt(keys, f[key := value]) == ValuesAt(keys, f)
    ensures ElementsAt(keys, f[key := value]) == ElementsAt(keys, f)
    ensures MembersAt(keys, f[key := value]) == MembersAt(keys, f)
  {
  }

  lemma CommonShapesIgnoreTheDialect(f: map<string, Json>, g: map<string, Json>)
    requires f.Keys == g.Keys && forall k :: k in f && k != "$schema" ==> f[k] == g[k]
    requires "$schema" in g && g["$schema"].Str? && CommonShapes(f)
    ensures CommonShapes(g)
  {
    assert "$schema" !in BOOLEANS + COMMON_SCHEMAS + COMMON_LISTS + COMMON_MAPS;
    forall k | k in STRINGS && k in g
      ensures g[k].Str?
    {
    }
    assert forall k :: k in {"$id", "type", "required", "dependencies"} && k in f ==> f[k] == g[k];
  }

  lemma OwnShapesIgnoreTheDialect(f: map<string, Json>, g: map<string, Json>)
    requires f.Keys == g.Keys && forall k :: k in f && k != "$schema" ==> f[k] == g[k]
    ensures OwnShapes(f) == OwnShapes(g)
  {
    var own := {"items", "contentSchema", "unevaluatedItems", "unevaluatedProperties", "$defs", "dependentSchemas",
                "minContains", "maxContains", "$anchor", "$dynamicAnchor", "$recursiveAnchor", "$dynamicRef",
                "$recursiveRef", "$id", "$vocabulary", "deprecated", "prefixItems", "dependentRequired"};
    assert "$schema" !in own;
    assert forall k :: k in own && k in f ==> f[k] == g[k];
  }

  lemma ShapesIgnoreTheDialect(f: map<string, Json>, g: map<string, Json>)
    requires f.Keys == g.Keys && forall k :: k in f && k != "$schema" ==> f[k] == g[k]
    requires "$schema" in f && f["$schema"].Str? && g["$schema"].Str?
    ensures Shapes(Draft2020, f) <==> Shapes(Draft2020, g)
  {
    OwnShapesIgnoreTheDialect(f, g);
    if CommonShapes(f) {
      CommonShapesIgnoreTheDialect(f, g);
    }
    if CommonShapes(g) {
      CommonShapesIgnoreTheDialect(g, f);
    }
  }

  lemma MetaValidityIgnoresTheDialect(s: Json, uri: string)
    requires s.Obj? && "$schema" in s.fields && s.fields["$schema"].Str?
    ensures MetaValid(Draft2020, Obj(s.fields["$schema" := Str(uri)])) <==> MetaValid(Draft2020, s)
  {
    var t := Obj(s.fields["$schema" := Str(uri)]);
    InspectedIgnoresTheDialect(s, uri);
    ShapesIgnoreTheDialect(s.fields, t.fields);
  }

  /** The relabelled schema is a valid 2020-12 schema exactly when the schemas draft-07 never
      looked at (under `$defs` and `contentSchema`) obey the rules the dialects share. */
  lemma RelabelKeepsMetaValidityIff(s: Json)
    requires MetaValid(Draft07, s) && Normalized(s) != s
    ensures MetaValid(Draft2020, Normalized(s)) <==> forall h :: h in HiddenSchemas(s) ==> KeepsTheCommonRules(h)
  {
    OnlyTheCommonRulesMatter(s, true, 0);
    HiddenDecides(s, true, 0);
    MetaValidityIgnoresTheDialect(s, DIALECT_2020_12);
  }

  /** The condition is needed: draft-07 doesn't know `$defs`, so anything may stand in it. Every
      member that passes the walk and breaks a common rule, `{"type": 7}` for one, makes the
      relabelled schema invalid. */
  lemma HiddenSchemaBreaksMetaValidity(s: Json, name: string, t: Json)
    requires DeclaresDraft07(s) && s.fields.Keys == {"$schema", "$defs"}
    requires s.fields["$defs"] == Obj(map[name := t])
    requires t.Obj? && !Incompatible(t, false, 1) && !KeepsTheCommonRules(t)
    ensures MetaValid(Draft07, s) && Normalized(s) != s && !MetaValid(Draft2020, Normalized(s))
  {
    OnlyDefinitions(s, name, t);
    OnlyDefinitionsPass(s, name, t);
    RelabelKeepsMetaValidityIff(s);
  }

  lemma OnlyDefinitions(s: Json, name: string, t: Json)
    requires DeclaresDraft07(s) && s.fields.Keys == {"$schema", "$defs"}
    requires s.fields["$defs"] == Obj(map[name := t]) && t.Obj?
    ensures MetaValid(Draft07, s) && t in HiddenSchemas(s)
  {
    OnlyDefinitionsShapes(s.fields);
    OnlyDefinitionsInspected(s, name, t);
  }

  lemma OnlyDefinitionsInspected(s: Json, name: string, t: Json)
    requires s.Obj? && s.fields.Keys == {"$schema", "$defs"}
    requires s.fields["$defs"] == Obj(map[name := t]) && t.Obj?
    ensures Inspected(Draft07, s) == {} && t in Inspected(Draft2020, s)
  {
    var f := s.fields;
    assert {"$schema", "$defs"} !! SchemaKeys(Draft07) + ListKeys(Draft07) + MapKeys(Draft07);
    assert f["$defs"].fields[name] == t;
    assert "$defs" in MapKeys(Draft2020);
  }

  lemma OnlyDefinitionsShapes(f: map<string, Json>)
    requires f.Keys == {"$schema", "$defs"} && f["$schema"].Str?
    ensures Shapes(Draft07, f)
  {
    var others := {"$id", "type", "required", "dependencies", "items", "additionalItems"};
    assert f.Keys !! BOOLEANS + COMMON_SCHEMAS + COMMON_LISTS + COMMON_MAPS + others;
    assert forall k :: k in others ==> k !in f;
    assert "$defs" !in STRINGS;
    assert CommonShapes(f);
  }

  lemma OnlyDefinitionsAreWalked(s: Json, name: string, t: Json)
    requires s.Obj? && s.fields.Keys == {"$schema", "$defs"} && s.fields["$defs"] == Obj(map[name := t])
    ensures WalkedChildren(s) <= {t}
  {
    assert {"$schema", "$defs"} !! SCHEMA_KEYWORDS + SCHEMA_LIST_KEYWORDS;
    assert "$schema" !in SCHEMA_NAME_MAP_KEYWORDS;
  }

  lemma OnlyDefinitionsAreCompatible(s: Json, name: string, t: Json)
    requires DeclaresDraft07(s) && s.fields.Keys == {"$schema", "$defs"}
    requires s.fields["$defs"] == Obj(map[name := t]) && t.Obj?
    ensures !NodeIncompatible(s.fields, true)
  {
    assert {"$schema", "$defs"} !! POST_DRAFT_07_ASSERTION_KEYWORDS;
  }

  lemma OnlyDefinitionsPass(s: Json, name: string, t: Json)
    requires DeclaresDraft07(s) && s.fields.Keys == {"$schema", "$defs"}
    requires s.fields["$defs"] == Obj(map[name := t]) && t.Obj?
    requires !Incompatible(t, false, 1)
    ensures Normalized(s) != s
  {
    OnlyDefinitionsAreWalked(s, name, t);
    OnlyDefinitionsAreCompatible(s, name, t);
  }
}
