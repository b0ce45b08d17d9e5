/**
 Which schemas the normaliser relabels, told from the outside: by what a draft-07 schema holds at
 each position its grammar gives to a subschema. The walk is not mentioned here; it turns out to
 refuse exactly the others.
 */
module SchemaPortability {
  import opened Basics
  import opened SchemaEvaluation
  import opened SchemaDialect

  // ---------------------------------------------------------------- positions

  /** From a schema to one inside it: the value of a keyword, an item of its list, or a member of its
      map. */
  datatype Hop = Value(k: string) | Item(k: string, n: nat) | Member(k: string, name: string)

  /** The subschema a hop leads to, where the grammar has one. */
  function Inside(s: Json, hop: Hop): Option<Json> {
    if !s.Obj? || hop.k !in s.fields then None
    else
      var v := s.fields[hop.k];
      match hop
      case Value(k) =>
        if k in {"items", "contains", "additionalProperties", "propertyNames", "unevaluatedItems", "unevaluatedProperties",
                 "not", "if", "then", "else", "contentSchema"}
        then Some(v) else None
      case Item(k, n) =>
        if k in {"allOf", "anyOf", "oneOf"} && v.Arr? && n < |v.items| then Some(v.items[n]) else None
      case Member(k, name) =>
        if k in {"properties", "patternProperties", "$defs", "definitions", "dependencies"} && v.Obj? && name in v.fields
        then Some(v.fields[name]) else None
  }

  function At(s: Json, path: seq<Hop>): Option<Json>
    decreases |path|
  {
    if path == [] then Some(s)
    else
      match Inside(s, path[0])
      case None => None
      case Some(c) => At(c, path[1..])
  }

  // ---------------------------------------------------------------- what may be there

  /** An anchor's name: `^[A-Za-z_][-A-Za-z0-9._]*$`. */
  predicate AnchorName(v: Json) {
    && v.Str? && v.s != ""
    && forall i :: 0 <= i < |v.s| ==>
         var c := v.s[i];
         'a' <= c <= 'z' || 'A' <= c <= 'Z' || c == '_' || (i > 0 && ('0' <= c <= '9' || c == '.' || c == '-'))
  }

  predicate Count(v: Json) {
    v.Num? && v.n.Floor as real == v.n && v.n.Floor >= 0
  }

  /** `#/$defs/<name>` or `#/definitions/<name>`, and nothing below the name. */
  ghost predicate NamesADefinition(ref: Json) {
    ref.Str? && exists name: string ::
      name != "" && '/' !in name && (ref.s == "#/$defs/" + name || ref.s == "#/definitions/" + name)
  }

  /** Nothing 2020-12 gives a meaning that draft-07 did not, or takes one from. */
  predicate KeepsKeywords(f: map<string, Json>) {
    && (forall k :: k in {"dependentRequired", "dependentSchemas", "prefixItems", "unevaluatedItems",
                          "unevaluatedProperties", "$dynamicRef", "$anchor", "$dynamicAnchor", "$vocabulary"} ==>
          k !in f)
    && ("items" in f ==> !f["items"].Arr?)
    && ("contains" in f ==> "minContains" !in f && "maxContains" !in f)
    && ("dependencies" in f ==> "$ref" in f)
  }

  /** Beside a reference only what neither dialect asserts, and the reference to a definition; an
      `$id` only at the root, by itself, and without a fragment. */
  ghost predicate KeepsReferences(f: map<string, Json>, isRoot: bool) {
    && ("$ref" in f ==>
          && NamesADefinition(f["$ref"])
          && forall k :: k in f && k != "$ref" ==>
               k in {"$schema", "$comment", "title", "description", "default", "examples", "deprecated", "readOnly",
                     "writeOnly", "definitions", "$defs", "format", "contentEncoding", "contentMediaType",
                     "additionalItems", "$recursiveAnchor", "$recursiveRef", "dependencies"})
    && ("$id" in f ==>
          isRoot && "$ref" !in f && (f["$id"].Str? && '#' in f["$id"].s ==>
            f["$id"].s[|f["$id"].s| - 1] == '#' && '#' !in f["$id"].s[..|f["$id"].s| - 1]))
  }

  /** What 2020-12 reads and draft-07 doesn't has a value 2020-12 allows. */
  ghost predicate KeepsValues(f: map<string, Json>) {
    && ("$recursiveAnchor" in f ==> AnchorName(f["$recursiveAnchor"]))
    && ("$recursiveRef" in f ==> f["$recursiveRef"].Str?)
    && ("$defs" in f ==>
          f["$defs"].Obj? && forall n :: n in f["$defs"].fields ==> f["$defs"].fields[n].Obj? || f["$defs"].fields[n].Bool?)
    && ("contentSchema" in f ==> f["contentSchema"].Obj? || f["contentSchema"].Bool?)
    && ("deprecated" in f ==> f["deprecated"].Bool?)
    && ("minContains" in f ==> Count(f["minContains"]))
    && ("maxContains" in f ==> Count(f["maxContains"]))
  }

  ghost predicate Portable(f: map<string, Json>, isRoot: bool) {
    KeepsKeywords(f) && KeepsReferences(f, isRoot) && KeepsValues(f)
  }

  /** Everything at a subschema's position is portable, and no object lies a hundred deep. */
  ghost predicate PortableThroughout(s: Json, isRoot: bool, depth: nat) {
    forall path :: PortableAt(s, path, isRoot, depth)
  }

  ghost predicate PortableAt(s: Json, path: seq<Hop>, isRoot: bool, depth: nat) {
    At(s, path).Some? && At(s, path).value.Obj? ==>
      depth + |path| < 100 && Portable(At(s, path).value.fields, isRoot && path == [])
  }

  // ---------------------------------------------------------------- node by node

  lemma KeywordsKept(f: map<string, Json>)
    ensures KeepsKeywords(f) <==>
            && !("items" in f && f["items"].Arr?) && !("dependencies" in f && "$ref" !in f)
            && !ActivatesADormantAssertion(f)
            && "$anchor" !in f && "$dynamicAnchor" !in f && "$vocabulary" !in f
  {
    assert POST_DRAFT_07_ASSERTION_KEYWORDS + {"$anchor", "$dynamicAnchor", "$vocabulary"} ==
           {"dependentRequired", "dependentSchemas", "prefixItems", "unevaluatedItems",
            "unevaluatedProperties", "$dynamicRef", "$anchor", "$dynamicAnchor", "$vocabulary"};
  }

  lemma TrustedNamesADefinition(ref: Json)
    ensures NamesADefinition(ref) <==> RefTargetsAWalkedContainer(ref)
  {
    if ref.Str? {
      DefinitionNames(ref.s);
    }
  }

  lemma DefinitionNames(ref: string)
    ensures WalkedRefName(ref).Some? <==>
            exists name: string :: name != "" && '/' !in name && (ref == "#/$defs/" + name || ref == "#/definitions/" + name)
  {
    if WalkedRefName(ref).Some? {
      var name := WalkedRefName(ref).value.1;
      assert ref == "#/$defs/" + name || ref == "#/definitions/" + name;
    }
    if name: string :| name != "" && '/' !in name && (ref == "#/$defs/" + name || ref == "#/definitions/" + name) {
      if ref == "#/$defs/" + name {
        assert ref[8..] == name;
      } else {
        assert ref[14..] == name && ref[2] != "#/$defs/"[2];
      }
    }
  }

  lemma FragmentOnlyAtTheEnd(v: Json)
    ensures IdIsPortable(v) <==> (v.Str? && '#' in v.s ==> v.s[|v.s| - 1] == '#' && '#' !in v.s[..|v.s| - 1])
  {
  }

  lemma ReferencesKept(f: map<string, Json>, isRoot: bool)
    requires "$anchor" !in f && "$dynamicAnchor" !in f && "$vocabulary" !in f
    ensures KeepsReferences(f, isRoot) <==> !ShiftsReferenceResolution(f, isRoot)
  {
    assert ANNOTATION_ONLY_KEYWORDS ==
           {"$schema", "$comment", "title", "description", "default", "examples", "deprecated", "readOnly",
            "writeOnly", "definitions", "$defs", "format", "contentEncoding", "contentMediaType",
            "additionalItems", "$recursiveAnchor", "$recursiveRef", "dependencies"};
    if "$ref" in f {
      TrustedNamesADefinition(f["$ref"]);
    }
    if "$id" in f {
      FragmentOnlyAtTheEnd(f["$id"]);
    }
  }

  lemma ValuesKept(f: map<string, Json>)
    ensures KeepsValues(f) <==> !HasNonPortableValue(f)
  {
    forall v: Json
      ensures AnchorName(v) <==> IsAnchorString(v)
    {
      SameAnchors(v);
    }
  }

  lemma SameAnchors(v: Json)
    ensures AnchorName(v) <==> IsAnchorString(v)
  {
  }

  lemma NodeIsPortable(f: map<string, Json>, isRoot: bool)
    ensures Portable(f, isRoot) <==> !NodeIncompatible(f, isRoot)
  {
    KeywordsKept(f);
    if KeepsKeywords(f) {
      ReferencesKept(f, isRoot);
    }
    ValuesKept(f);
  }

  // ---------------------------------------------------------------- position by position

  lemma SameKeywords()
    ensures SCHEMA_KEYWORDS ==
            {"items", "contains", "additionalProperties", "propertyNames", "unevaluatedItems", "unevaluatedProperties",
             "not", "if", "then", "else", "contentSchema"}
    ensures SCHEMA_LIST_KEYWORDS == {"allOf", "anyOf", "oneOf"}
    ensures SCHEMA_NAME_MAP_KEYWORDS == {"properties", "patternProperties", "$defs", "definitions", "dependencies"}
  {
  }

  lemma InsideIsWalked(s: Json, hop: Hop)
    requires Inside(s, hop).Some?
    ensures s.Obj? && Inside(s, hop).value in WalkedChildren(s)
  {
    SameKeywords();
  }

  lemma WalkedIsInside(s: Json, c: Json) returns (hop: Hop)
    requires s.Obj? && c in WalkedChildren(s)
    ensures Inside(s, hop) == Some(c)
  {
    SameKeywords();
    var f := s.fields;
    if k :| k in SCHEMA_KEYWORDS && k in f && f[k] == c {
      hop := Value(k);
    } else if k, n :| k in SCHEMA_LIST_KEYWORDS && k in f && f[k].Arr? && 0 <= n < |f[k].items| && f[k].items[n] == c {
      hop := Item(k, n);
    } else {
      var k, n :| k in SCHEMA_NAME_MAP_KEYWORDS && k in f && f[k].Obj? && n in f[k].fields && f[k].fields[n] == c;
      hop := Member(k, n);
    }
  }

  /** The walk refuses a schema exactly when something at some position isn't portable. */
  lemma {:induction false} WalkRefusesTheRest(s: Json, isRoot: bool, depth: nat)
    ensures PortableThroughout(s, isRoot, depth) <==> !Incompatible(s, isRoot, depth)
    decreases s
  {
    if !s.Obj? {
      NothingInside(s, isRoot, depth);
    } else {
      forall c | c in WalkedChildren(s)
        ensures PortableThroughout(c, false, depth + 1) <==> !Incompatible(c, false, depth + 1)
      {
        WalkRefusesTheRest(c, false, depth + 1);
      }
      NodeIsPortable(s.fields, isRoot);
      if PortableThroughout(s, isRoot, depth) {
        assert PortableAt(s, [], isRoot, depth);
        forall c | c in WalkedChildren(s)
          ensures PortableThroughout(c, false, depth + 1)
        {
          PortableInside(s, c, isRoot, depth);
        }
      }
      if !Incompatible(s, isRoot, depth) {
        PortableOutside(s, isRoot, depth);
      }
    }
  }

  /** A portable node with portable children. */
  lemma PortableOutside(s: Json, isRoot: bool, depth: nat)
    requires s.Obj? && depth < 100 && Portable(s.fields, isRoot)
    requires forall c :: c in WalkedChildren(s) ==> PortableThroughout(c, false, depth + 1)
    ensures PortableThroughout(s, isRoot, depth)
  {
    forall path
      ensures PortableAt(s, path, isRoot, depth)
    {
      if path != [] && Inside(s, path[0]).Some? {
        var c := Inside(s, path[0]).value;
        InsideIsWalked(s, path[0]);
        assert PortableAt(c, path[1..], false, depth + 1);
      }
    }
  }

  lemma NothingInside(s: Json, isRoot: bool, depth: nat)
    requires !s.Obj?
    ensures PortableThroughout(s, isRoot, depth)
  {
  }

  lemma PortableInside(s: Json, c: Json, isRoot: bool, depth: nat)
    requires s.Obj? && c in WalkedChildren(s) && PortableThroughout(s, isRoot, depth)
    ensures PortableThroughout(c, false, depth + 1)
  {
    var hop := WalkedIsInside(s, c);
    var below := depth + 1;
    forall path
      ensures PortableAt(c, path, false, below)
    {
      assert ([hop] + path)[1..] == path && ([hop] + path)[0] == hop;
      assert At(s, [hop] + path) == At(c, path);
      assert PortableAt(s, [hop] + path, isRoot, depth);
    }
  }

  // ---------------------------------------------------------------- the theorem

  predicate DeclaresIt(s: Json) {
    s.Obj? && "$schema" in s.fields &&
    s.fields["$schema"] in {Str("http://json-schema.org/draft-07/schema#"), Str("http://json-schema.org/draft-07/schema"),
                            Str("https://json-schema.org/draft-07/schema#"), Str("https://json-schema.org/draft-07/schema")}
  }

  /** A schema that declares draft-07 is relabelled, in that one field, exactly when it is portable
      throughout; any other is left as it is. */
  lemma PortableSchemasAreRelabelled(s: Json)
    ensures Normalized(s) ==
            if DeclaresIt(s) && PortableThroughout(s, true, 0)
            then Obj(s.fields["$schema" := Str("https://json-schema.org/draft/2020-12/schema")])
            else s
  {
    WalkRefusesTheRest(s, true, 0);
    assert DeclaresIt(s) <==> DeclaresDraft07(s);
  }
}
