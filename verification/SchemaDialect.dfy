/**
 The bridge's decision to relabel a draft-07 schema as 2020-12 without touching a keyword
 (backend/app/bridge/host.py), and what that decision guarantees.
 */
module SchemaDialect {
  import opened Basics
  import opened SchemaEvaluation

  const DIALECT_2020_12 := "https://json-schema.org/draft/2020-12/schema"

  const DRAFT_07_URIS: set<string> := {
    "http://json-schema.org/draft-07/schema#",
    "http://json-schema.org/draft-07/schema",
    "https://json-schema.org/draft-07/schema#",
    "https://json-schema.org/draft-07/schema"
  }

  const SCHEMA_KEYWORDS: set<string> := {
    "additionalProperties", "unevaluatedProperties", "unevaluatedItems", "items", "contains",
    "propertyNames", "not", "if", "then", "else", "contentSchema"
  }

  const SCHEMA_LIST_KEYWORDS: set<string> := {"allOf", "anyOf", "oneOf"}

  const SCHEMA_NAME_MAP_KEYWORDS: set<string> := {
    "properties", "patternProperties", "$defs", "definitions", "dependencies"
  }

  const ANNOTATION_ONLY_KEYWORDS: set<string> := {
    "$schema", "$comment", "title", "description", "default", "examples", "deprecated", "readOnly",
    "writeOnly", "definitions", "$defs", "format", "contentEncoding", "contentMediaType",
    "additionalItems", "$recursiveAnchor", "$recursiveRef", "dependencies"
  }

  const POST_DRAFT_07_ASSERTION_KEYWORDS: set<string> := {
    "unevaluatedProperties", "unevaluatedItems", "dependentRequired", "dependentSchemas",
    "prefixItems", "$dynamicRef"
  }

  const MAX_SCHEMA_DEPTH: nat := 100

  // ---------------------------------------------------------------- the walk

  /** The subschemas the walk descends into. */
  function WalkedChildren(s: Json): (r: set<Json>)
    requires s.Obj?
    ensures forall c :: c in r ==> c < s
  {
    var f := s.fields;
    (set k | k in SCHEMA_KEYWORDS && k in f :: f[k]) +
    (set k, i | k in SCHEMA_LIST_KEYWORDS && k in f && f[k].Arr? && 0 <= i < |f[k].items| :: f[k].items[i]) +
    (set k, n | k in SCHEMA_NAME_MAP_KEYWORDS && k in f && f[k].Obj? && n in f[k].fields :: f[k].fields[n])
  }

  /** The name in a reference to a member of `$defs` or `definitions` and nothing deeper. */
  function WalkedRefName(ref: string): Option<(string, string)> {
    if "#/$defs/" <= ref && |ref| > 8 && '/' !in ref[8..] then Some(("$defs", ref[8..]))
    else if "#/definitions/" <= ref && |ref| > 14 && '/' !in ref[14..] then Some(("definitions", ref[14..]))
    else None
  }

  predicate RefTargetsAWalkedContainer(v: Json) {
    v.Str? && WalkedRefName(v.s).Some?
  }

  predicate ActivatesADormantAssertion(f: map<string, Json>) {
    || (exists k :: k in POST_DRAFT_07_ASSERTION_KEYWORDS && k in f)
    || ("contains" in f && ("minContains" in f || "maxContains" in f))
  }

  predicate ShiftsReferenceResolution(f: map<string, Json>, isRoot: bool) {
    || "$anchor" in f || "$dynamicAnchor" in f || "$vocabulary" in f
    || ("$id" in f && (!isRoot || "$ref" in f || !IdIsPortable(f["$id"])))
    || ("$ref" in f &&
        ((exists k :: k in f && k != "$ref" && k !in ANNOTATION_ONLY_KEYWORDS) ||
         !RefTargetsAWalkedContainer(f["$ref"])))
  }

  /** No fragment, or an empty one. */
  predicate IdIsPortable(v: Json) {
    v.Str? ==> forall i :: 0 <= i < |v.s| && v.s[i] == '#' ==> i == |v.s| - 1
  }

  predicate IsAnchorString(v: Json) {
    v.Str? && v.s != "" && AnchorStart(v.s[0]) &&
    forall i :: 1 <= i < |v.s| ==>
      AnchorStart(v.s[i]) || '0' <= v.s[i] <= '9' || v.s[i] == '-' || v.s[i] == '.'
  }

  predicate AnchorStart(c: char) {
    'A' <= c <= 'Z' || 'a' <= c <= 'z' || c == '_'
  }

  predicate IsNonNegativeInt(v: Json) {
    v.Num? && v.n == v.n.Floor as real && v.n >= 0.0
  }

  predicate IsSchemaValue(v: Json) {
    v.Obj? || v.Bool?
  }

  predicate IsSchemaMap(v: Json) {
    v.Obj? && forall n :: n in v.fields ==> IsSchemaValue(v.fields[n])
  }

  /** Does a keyword 2020-12 knows and draft-07 doesn't carry a value 2020-12 rejects? */
  predicate HasNonPortableValue(f: map<string, Json>) {
    || ("$recursiveAnchor" in f && !IsAnchorString(f["$recursiveAnchor"]))
    || ("$recursiveRef" in f && !f["$recursiveRef"].Str?)
    || ("$defs" in f && !IsSchemaMap(f["$defs"]))
    || ("contentSchema" in f && !IsSchemaValue(f["contentSchema"]))
    || ("deprecated" in f && !f["deprecated"].Bool?)
    || ("minContains" in f && !IsNonNegativeInt(f["minContains"]))
    || ("maxContains" in f && !IsNonNegativeInt(f["maxContains"]))
  }

  /** The walk's test of one object, its children aside. */
  predicate NodeIncompatible(f: map<string, Json>, isRoot: bool) {
    || ("items" in f && f["items"].Arr?)
    || ("dependencies" in f && "$ref" !in f)
    || ActivatesADormantAssertion(f)
    || ShiftsReferenceResolution(f, isRoot)
    || HasNonPortableValue(f)
  }

  predicate Incompatible(s: Json, isRoot: bool, depth: nat)
    decreases s
  {
    s.Obj? &&
    (depth >= MAX_SCHEMA_DEPTH ||
     NodeIncompatible(s.fields, isRoot) ||
     exists c :: c in WalkedChildren(s) && Incompatible(c, false, depth + 1))
  }

  predicate DeclaresDraft07(s: Json) {
    s.Obj? && "$schema" in s.fields && s.fields["$schema"].Str? &&
    s.fields["$schema"].s in DRAFT_07_URIS
  }

  function Normalized(s: Json): Json {
    if DeclaresDraft07(s) && !Incompatible(s, true, 0)
    then Obj(s.fields["$schema" := Str(DIALECT_2020_12)])
    else s
  }
}
