/**
 When relabelling keeps a schema's meaning: exactly the references the walk trusts have to name
 members the walk has seen.
 */
module SchemaPreservation {
  import opened Basics
  import opened SchemaEvaluation
  import opened SchemaDialect

  // ---------------------------------------------------------------- where a trusted reference points

  /** `%2F` stands for a slash, which a pointer splits on after decoding. */
  predicate HasEncodedSlash(s: string) {
    exists i :: 0 <= i < |s| - 2 && EncodedSlashAt(s, i)
  }

  predicate EncodedSlashAt(s: string, i: nat)
    requires i + 2 < |s|
  {
    s[i] == '%' && s[i + 1] == '2' && (s[i + 2] == 'F' || s[i + 2] == 'f')
  }

  lemma {:induction false} DecodedSlash(s: string)
    requires '/' !in s
    ensures '/' in PercentDecode(s) <==> HasEncodedSlash(s)
  {
    if s == "" {
    } else {
      var n := if StartsWithEscape(s) then 3 else 1;
      DecodedSlash(s[n..]);
      if HasEncodedSlash(s) {
        var i :| 0 <= i < |s| - 2 && EncodedSlashAt(s, i);
        if i >= n {
          assert EncodedSlashAt(s[n..], i - n);
        } else {
          assert i == 0 && PercentDecode(s)[0] == '/';
        }
      }
      if HasEncodedSlash(s[n..]) {
        var i :| 0 <= i < |s[n..]| - 2 && EncodedSlashAt(s[n..], i);
        assert EncodedSlashAt(s, i + n);
      }
      if '/' in PercentDecode(s) && '/' !in PercentDecode(s[n..]) {
        assert PercentDecode(s)[0] == '/';
        assert EncodedSlashAt(s, 0);
      }
    }
  }

  lemma {:induction false} DecodeAfterPlain(plain: string, s: string)
    requires '%' !in plain
    ensures PercentDecode(plain + s) == plain + PercentDecode(s)
  {
    if plain == "" {
      assert plain + s == s;
    } else {
      assert (plain + s)[1..] == plain[1..] + s;
      DecodeAfterPlain(plain[1..], s);
    }
  }

  lemma {:induction false} TokensSplitAtFirstSlash(head: string, tail: string)
    requires '/' !in head
    ensures Tokens(head + "/" + tail) == [head] + Tokens(tail)
  {
    var s := head + "/" + tail;
    if head == "" {
      assert s[1..] == tail;
    } else {
      assert s[1..] == head[1..] + "/" + tail;
      TokensSplitAtFirstSlash(head[1..], tail);
      assert [head[0]] + head[1..] == head;
    }
  }

  lemma {:induction false} OneToken(s: string)
    ensures |Tokens(s)| == 1 <==> '/' !in s
    ensures '/' !in s ==> Tokens(s) == [s]
  {
    if s != "" {
      OneToken(s[1..]);
      assert s == [s[0]] + s[1..];
    }
  }

  lemma {:induction false} UnescapePlain(s: string)
    requires '~' !in s
    ensures Unescape(s) == s
  {
    if s != "" {
      UnescapePlain(s[1..]);
    }
  }

  lemma TrustedRefShape(ref: string, container: string, name: string)
    requires WalkedRefName(ref) == Some((container, name))
    ensures ref == "#" + ("/" + container + "/") + name
    ensures '/' !in container && '%' !in container && '~' !in container
    ensures container in {"$defs", "definitions"} && '/' !in name
  {
    if container == "$defs" {
      assert ref[..8] == "#/$defs/";
    } else {
      assert ref[..14] == "#/definitions/";
    }
  }

  /** The pointer `/container/rest` has its container for a first token. */
  lemma PointerTokens(ref: string, container: string, name: string)
    requires ref == "#" + ("/" + container + "/") + name
    requires '/' !in container && '%' !in container
    ensures var pointer := PercentDecode(ref[1..]);
            pointer != "" && pointer[0] == '/' &&
            Tokens(pointer[1..]) == [container] + Tokens(PercentDecode(name))
  {
    assert ref[1..] == ("/" + container + "/") + name;
    DecodeAfterPlain("/" + container + "/", name);
    assert PercentDecode(ref[1..])[1..] == container + "/" + PercentDecode(name);
    TokensSplitAtFirstSlash(container, PercentDecode(name));
  }

  /** The reference tokens of a reference the walk trusts: its container, then its name, split
      once more wherever the name hides an encoded slash. */
  lemma TrustedRefTokens(ref: string, container: string, name: string)
    requires WalkedRefName(ref) == Some((container, name))
    ensures var pointer := PercentDecode(ref[1..]);
            pointer != "" && pointer[0] == '/' &&
            Tokens(pointer[1..]) == [container] + Tokens(PercentDecode(name))
    ensures Unescape(container) == container
  {
    TrustedRefShape(ref, container, name);
    PointerTokens(ref, container, name);
    UnescapePlain(container);
  }

  lemma EncodedSlashIsInTheName(ref: string, container: string, name: string)
    requires WalkedRefName(ref) == Some((container, name))
    ensures HasEncodedSlash(ref) <==> HasEncodedSlash(name)
  {
    var n := |ref| - |name|;
    assert n <= 14 && ref[..n] <= (if n == 8 then "#/$defs/" else "#/definitions/");
    assert ref[n..] == name;
    if HasEncodedSlash(ref) {
      var i :| 0 <= i < |ref| - 2 && EncodedSlashAt(ref, i);
      assert EncodedSlashAt(name, i - n);
    }
    if HasEncodedSlash(name) {
      var i :| 0 <= i < |name| - 2 && EncodedSlashAt(name, i);
      assert EncodedSlashAt(ref, i + n);
    }
  }

  /** A trusted reference is a pointer to a member of its container, and not to something below
      that member, exactly when it carries no encoded slash. */
  lemma TrustedRefNamesAMemberIff(ref: string)
    requires WalkedRefName(ref).Some?
    ensures |Tokens(PercentDecode(ref[1..])[1..])| == 2 <==> !HasEncodedSlash(ref)
  {
    var (container, name) := WalkedRefName(ref).value;
    TrustedRefTokens(ref, container, name);
    EncodedSlashIsInTheName(ref, container, name);
    DecodedSlash(name);
    OneToken(PercentDecode(name));
  }

  /** Then, with the container an object, what it resolves to was itself walked. */
  lemma TrustedRefTargetIsWalked(root: Json, ref: string)
    requires root.Obj? && WalkedRefName(ref).Some? && !HasEncodedSlash(ref)
    requires DefinitionsAreObjects(root)
    ensures var target := Resolve(root, ref);
            target.Some? ==> target.value in WalkedChildren(root)
  {
    var (container, name) := WalkedRefName(ref).value;
    TrustedRefTokens(ref, container, name);
    TrustedRefNamesAMemberIff(ref);
    DecodedSlash(name);
    OneToken(PercentDecode(name));
    var tokens := [container, PercentDecode(name)];
    assert Tokens(PercentDecode(ref[1..])[1..]) == tokens;
    assert tokens[1..] == [PercentDecode(name)] && tokens[1..][1..] == [];
    if Resolve(root, ref).Some? {
      var members := root.fields[container];
      var member := Unescape(PercentDecode(name));
      assert Walk(root, tokens) == Walk(members, tokens[1..]);
      assert container in SCHEMA_NAME_MAP_KEYWORDS && members.Obj? && member in members.fields;
    }
  }

  // ---------------------------------------------------------------- the guard the theorem needs

  /** Both containers a trusted reference may name are objects, where present. */
  predicate DefinitionsAreObjects(root: Json) {
    root.Obj? &&
    ("$defs" in root.fields ==> root.fields["$defs"].Obj?) &&
    ("definitions" in root.fields ==> root.fields["definitions"].Obj?)
  }

  /** No reference in a walked position hides a slash. */
  predicate PlainRefs(s: Json)
    decreases s
  {
    s.Obj? ==>
      && ("$ref" in s.fields && s.fields["$ref"].Str? ==> !HasEncodedSlash(s.fields["$ref"].s))
      && forall c :: c in WalkedChildren(s) ==> PlainRefs(c)
  }

  /** `relabelled` is `original` with another `$schema`, the original passed the walk, and its
      references are plain. */
  ghost predicate Relabelled(original: Document, relabelled: Document) {
    && original.matches == relabelled.matches
    && SameButDialect(original.root, relabelled.root)
    && original.root.Obj?
    && !Incompatible(original.root, true, 0)
    && PlainRefs(original.root)
    && DefinitionsAreObjects(original.root)
  }

  ghost predicate SameButDialect(a: Json, b: Json) {
    a == b ||
    (a.Obj? && b.Obj? &&
     forall k :: k != "$schema" ==> (k in a.fields <==> k in b.fields) && (k in a.fields ==> a.fields[k] == b.fields[k]))
  }

  ghost predicate Agree(original: Document, relabelled: Document, s: Json, fuel: nat) {
    forall v :: Valid(Draft07, original, s, v, fuel) == Valid(Draft2020, relabelled, s, v, fuel)
  }

  // ---------------------------------------------------------------- keyword family by keyword family

  lemma AssertionsAgree(a: Json, b: Json, v: Json, isRoot: bool)
    requires a.Obj? && b.Obj? && SameButDialect(a, b) && !NodeIncompatible(a.fields, isRoot)
    ensures Assertions(Draft07, a.fields, v) == Assertions(Draft2020, b.fields, v)
  {
    assert "dependentRequired" !in a.fields;
  }

  /** The subschemas under a list keyword give the same verdicts. */
  ghost predicate SameVerdicts(x: Document, y: Document, a: Json, k: string, v: Json, fuel: nat) {
    a.Obj? && k in a.fields && a.fields[k].Arr? ==>
      forall i :: 0 <= i < |a.fields[k].items| ==>
        Valid(Draft07, x, a.fields[k].items[i], v, fuel) == Valid(Draft2020, y, a.fields[k].items[i], v, fuel)
  }

  lemma MembersAgree(x: Document, y: Document, a: Json, k: string, v: Json, fuel: nat)
    requires a.Obj? && k in SCHEMA_LIST_KEYWORDS
    requires forall c :: c in WalkedChildren(a) ==> Agree(x, y, c, fuel)
    ensures SameVerdicts(x, y, a, k, v, fuel)
  {
    if k in a.fields && a.fields[k].Arr? {
      forall i | 0 <= i < |a.fields[k].items|
        ensures Agree(x, y, a.fields[k].items[i], fuel)
      {
        assert a.fields[k].items[i] in WalkedChildren(a);
      }
    }
  }

  lemma InPlaceAgree(x: Document, y: Document, a: Json, b: Json, v: Json, fuel: nat)
    requires a.Obj? && b.Obj? && SameButDialect(a, b)
    requires forall c :: c in WalkedChildren(a) ==> Agree(x, y, c, fuel)
    ensures InPlace(Draft07, x, a, v, fuel) == InPlace(Draft2020, y, b, v, fuel)
  {
    if "not" in a.fields {
      assert "not" in SCHEMA_KEYWORDS && a.fields["not"] in WalkedChildren(a);
      assert Agree(x, y, a.fields["not"], fuel);
    }
    assert "allOf" in SCHEMA_LIST_KEYWORDS && "anyOf" in SCHEMA_LIST_KEYWORDS && "oneOf" in SCHEMA_LIST_KEYWORDS;
    MembersAgree(x, y, a, "allOf", v, fuel);
    MembersAgree(x, y, a, "anyOf", v, fuel);
    MembersAgree(x, y, a, "oneOf", v, fuel);
    assert SameAt(a, b, "not") && SameAt(a, b, "allOf") && SameAt(a, b, "anyOf") && SameAt(a, b, "oneOf");
    InPlaceByVerdicts(x, y, a, b, v, fuel);
  }

  /** `k` is there in both or in neither, and says the same. */
  predicate SameAt(a: Json, b: Json, k: string) {
    a.Obj? && b.Obj? && (k in a.fields <==> k in b.fields) && (k in a.fields ==> a.fields[k] == b.fields[k])
  }

  lemma AllOfAgrees(x: Document, y: Document, a: Json, b: Json, v: Json, fuel: nat)
    requires SameAt(a, b, "allOf") && SameVerdicts(x, y, a, "allOf", v, fuel)
    ensures AllOf(Draft07, x, a, v, fuel) == AllOf(Draft2020, y, b, v, fuel)
  {
  }

  lemma AnyOfAgrees(x: Document, y: Document, a: Json, b: Json, v: Json, fuel: nat)
    requires SameAt(a, b, "anyOf") && SameVerdicts(x, y, a, "anyOf", v, fuel)
    ensures AnyOf(Draft07, x, a, v, fuel) == AnyOf(Draft2020, y, b, v, fuel)
  {
  }

  lemma InPlaceByVerdicts(x: Document, y: Document, a: Json, b: Json, v: Json, fuel: nat)
    requires SameAt(a, b, "not") && SameAt(a, b, "allOf") && SameAt(a, b, "anyOf") && SameAt(a, b, "oneOf")
    requires "not" in a.fields ==>
               Valid(Draft07, x, a.fields["not"], v, fuel) == Valid(Draft2020, y, a.fields["not"], v, fuel)
    requires SameVerdicts(x, y, a, "allOf", v, fuel) && SameVerdicts(x, y, a, "anyOf", v, fuel)
    requires SameVerdicts(x, y, a, "oneOf", v, fuel)
    ensures InPlace(Draft07, x, a, v, fuel) == InPlace(Draft2020, y, b, v, fuel)
  {
    AllOfAgrees(x, y, a, b, v, fuel);
    AnyOfAgrees(x, y, a, b, v, fuel);
    if "oneOf" in a.fields && a.fields["oneOf"].Arr? {
      SameMatches(x, y, a, b, v, fuel);
    }
  }

  lemma SameMatches(x: Document, y: Document, a: Json, b: Json, v: Json, fuel: nat)
    requires a.Obj? && b.Obj? && "oneOf" in a.fields && "oneOf" in b.fields
    requires a.fields["oneOf"] == b.fields["oneOf"] && a.fields["oneOf"].Arr?
    requires forall i :: 0 <= i < |a.fields["oneOf"].items| ==>
               Valid(Draft07, x, a.fields["oneOf"].items[i], v, fuel) == Valid(Draft2020, y, a.fields["oneOf"].items[i], v, fuel)
    ensures Matching(Draft07, x, a, v, fuel) == Matching(Draft2020, y, b, v, fuel)
  {
  }

  lemma ConditionalAgree(x: Document, y: Document, a: Json, b: Json, v: Json, isRoot: bool, fuel: nat)
    requires a.Obj? && b.Obj? && SameButDialect(a, b) && !NodeIncompatible(a.fields, isRoot)
    requires "$ref" !in a.fields
    requires forall c :: c in WalkedChildren(a) ==> Agree(x, y, c, fuel)
    ensures Conditional(Draft07, x, a, v, fuel) == Conditional(Draft2020, y, b, v, fuel)
  {
    var f := a.fields;
    assert "dependencies" !in f && "dependentSchemas" !in f;
    assert forall k :: k in SCHEMA_KEYWORDS && k in f ==> Agree(x, y, f[k], fuel);
    assert "if" in SCHEMA_KEYWORDS && "then" in SCHEMA_KEYWORDS && "else" in SCHEMA_KEYWORDS;
  }

  /** The schemas under a keyword that names schemas mean the same. */
  ghost predicate AllAgree(x: Document, y: Document, a: Json, k: string, fuel: nat) {
    a.Obj? && k in a.fields && a.fields[k].Obj? ==>
      forall n :: n in a.fields[k].fields ==> Agree(x, y, a.fields[k].fields[n], fuel)
  }

  ghost predicate AgreeAt(x: Document, y: Document, a: Json, k: string, fuel: nat) {
    a.Obj? && k in a.fields ==> Agree(x, y, a.fields[k], fuel)
  }

  lemma NamedSchemasAgree(x: Document, y: Document, a: Json, k: string, fuel: nat)
    requires a.Obj? && k in SCHEMA_NAME_MAP_KEYWORDS && forall c :: c in WalkedChildren(a) ==> Agree(x, y, c, fuel)
    ensures AllAgree(x, y, a, k, fuel)
  {
    if k in a.fields && a.fields[k].Obj? {
      forall n | n in a.fields[k].fields
        ensures Agree(x, y, a.fields[k].fields[n], fuel)
      {
        assert a.fields[k].fields[n] in WalkedChildren(a);
      }
    }
  }

  lemma PropertiesByAgreement(x: Document, y: Document, a: Json, b: Json, v: Json, fuel: nat)
    requires a.Obj? && b.Obj? && SameButDialect(a, b) && "unevaluatedProperties" !in a.fields && x.matches == y.matches
    requires AllAgree(x, y, a, "properties", fuel) && AllAgree(x, y, a, "patternProperties", fuel)
    requires AgreeAt(x, y, a, "additionalProperties", fuel) && AgreeAt(x, y, a, "propertyNames", fuel)
    ensures Properties(Draft07, x, a, v, fuel) == Properties(Draft2020, y, b, v, fuel)
  {
    assert forall p :: Named(x, a.fields, p) == Named(y, b.fields, p);
  }

  lemma PropertiesAgree(x: Document, y: Document, a: Json, b: Json, v: Json, isRoot: bool, fuel: nat)
    requires a.Obj? && b.Obj? && SameButDialect(a, b) && !NodeIncompatible(a.fields, isRoot)
    requires x.matches == y.matches
    requires forall c :: c in WalkedChildren(a) ==> Agree(x, y, c, fuel)
    ensures Properties(Draft07, x, a, v, fuel) == Properties(Draft2020, y, b, v, fuel)
  {
    assert "unevaluatedProperties" !in a.fields;
    assert "additionalProperties" in SCHEMA_KEYWORDS && "propertyNames" in SCHEMA_KEYWORDS;
    assert forall k :: k in SCHEMA_KEYWORDS && k in a.fields ==> a.fields[k] in WalkedChildren(a);
    assert "properties" in SCHEMA_NAME_MAP_KEYWORDS && "patternProperties" in SCHEMA_NAME_MAP_KEYWORDS;
    NamedSchemasAgree(x, y, a, "properties", fuel);
    NamedSchemasAgree(x, y, a, "patternProperties", fuel);
    PropertiesByAgreement(x, y, a, b, v, fuel);
  }

  lemma ElementsAgree(x: Document, y: Document, a: Json, b: Json, v: Json, isRoot: bool, fuel: nat)
    requires a.Obj? && b.Obj? && SameButDialect(a, b) && !NodeIncompatible(a.fields, isRoot)
    requires forall c :: c in WalkedChildren(a) ==> Agree(x, y, c, fuel)
    ensures Elements(Draft07, x, a, v, fuel) == Elements(Draft2020, y, b, v, fuel)
  {
    var f := a.fields;
    assert forall k :: k in SCHEMA_KEYWORDS && k in f ==> Agree(x, y, f[k], fuel);
    assert "items" in SCHEMA_KEYWORDS && "contains" in SCHEMA_KEYWORDS;
    assert "unevaluatedItems" !in f && "prefixItems" !in f;
    if "contains" in f && v.Arr? {
      assert "minContains" !in f && "maxContains" !in f;
      var m07 := set i | 0 <= i < |v.items| && Valid(Draft07, x, f["contains"], v.items[i], fuel);
      var m20 := set i | 0 <= i < |v.items| && Valid(Draft2020, y, f["contains"], v.items[i], fuel);
      assert m07 == m20;
    }
  }

  /** Keywords 2020-12 asserts something with, of those the evaluator knows. */
  const ASSERTING: set<string> := {
    "$dynamicRef", "type", "required", "dependentRequired", "not", "allOf", "anyOf", "oneOf", "if", "dependentSchemas",
    "properties", "patternProperties", "additionalProperties", "propertyNames", "unevaluatedProperties", "items",
    "prefixItems", "contains", "unevaluatedItems"
  }

  lemma AnnotationsAssertNothing(f: map<string, Json>)
    requires forall k :: k in f && k != "$ref" ==> k in ANNOTATION_ONLY_KEYWORDS
    ensures forall k :: k in ASSERTING ==> k !in f
  {
    assert ASSERTING !! ANNOTATION_ONLY_KEYWORDS + {"$ref"};
  }

  lemma NothingOnObjects(y: Document, b: Json, v: Json, fuel: nat)
    requires b.Obj? && forall k :: k in ASSERTING ==> k !in b.fields
    ensures Properties(Draft2020, y, b, v, fuel)
    ensures Elements(Draft2020, y, b, v, fuel)
  {
  }

  lemma NothingInPlace(y: Document, b: Json, v: Json, fuel: nat)
    requires b.Obj? && forall k :: k in ASSERTING ==> k !in b.fields
    ensures Assertions(Draft2020, b.fields, v)
    ensures InPlace(Draft2020, y, b, v, fuel) && Conditional(Draft2020, y, b, v, fuel)
  {
  }

  /** Beside a reference only inert keywords are left, so 2020-12 has nothing more to check. */
  lemma SiblingsAreInert(y: Document, b: Json, v: Json, fuel: nat)
    requires b.Obj? && forall k :: k in b.fields && k != "$ref" ==> k in ANNOTATION_ONLY_KEYWORDS
    ensures Assertions(Draft2020, b.fields, v)
    ensures InPlace(Draft2020, y, b, v, fuel) && Conditional(Draft2020, y, b, v, fuel)
    ensures Properties(Draft2020, y, b, v, fuel)
    ensures Elements(Draft2020, y, b, v, fuel)
    ensures "$dynamicRef" !in b.fields
  {
    AnnotationsAssertNothing(b.fields);
    NothingInPlace(y, b, v, fuel);
    NothingOnObjects(y, b, v, fuel);
    assert "$dynamicRef" in ASSERTING;
  }

  // ---------------------------------------------------------------- the theorem

  /** A node without a reference means the same when all it contains does. */
  lemma KeywordsAgree(x: Document, y: Document, a: Json, b: Json, v: Json, isRoot: bool, fuel: nat)
    requires a.Obj? && b.Obj? && SameButDialect(a, b) && !NodeIncompatible(a.fields, isRoot)
    requires "$ref" !in a.fields && x.matches == y.matches && InResource(x, y, a, b)
    requires forall c :: c in WalkedChildren(a) ==> Agree(x, y, c, fuel)
    ensures Valid(Draft07, x, a, v, fuel) == Valid(Draft2020, y, b, v, fuel)
  {
    AssertionsAgree(a, b, v, isRoot);
    InPlaceAgree(x, y, a, b, v, fuel);
    ConditionalAgree(x, y, a, b, v, isRoot, fuel);
    PropertiesAgree(x, y, a, b, v, isRoot, fuel);
    ElementsAgree(x, y, a, b, v, isRoot, fuel);
    assert "$dynamicRef" in POST_DRAFT_07_ASSERTION_KEYWORDS;
  }

  /** A node with a reference means what the reference does. */
  lemma ReferencesAgree(x: Document, y: Document, a: Json, b: Json, v: Json, isRoot: bool, fuel: nat)
    requires a.Obj? && b.Obj? && SameButDialect(a, b) && !NodeIncompatible(a.fields, isRoot)
    requires "$ref" in a.fields && InResource(x, y, a, b)
    requires Follows(Draft07, x, a.fields["$ref"], v, fuel) == Follows(Draft2020, y, a.fields["$ref"], v, fuel)
    ensures Valid(Draft07, x, a, v, fuel) == Valid(Draft2020, y, b, v, fuel)
  {
    SiblingsAreInert(y, b, v, fuel) by {
      assert "$schema" in ANNOTATION_ONLY_KEYWORDS;
    }
  }

  /** Neither schema starts a resource other than the one it is in. */
  ghost predicate InResource(x: Document, y: Document, a: Json, b: Json) {
    Within(Draft07, x, a) == x && Within(Draft2020, y, b) == y
  }

  /** Below the root nothing the walk accepts has an `$id`, and the root's own makes the root the
      resource it is anyway. */
  lemma WalkedStaysInResource(x: Document, y: Document, a: Json, b: Json, isRoot: bool, depth: nat)
    requires SameButDialect(a, b) && !Incompatible(a, isRoot, depth)
    requires isRoot ==> a == x.root && b == y.root
    ensures InResource(x, y, a, b)
  {
    assert a.Obj? && !isRoot ==> "$id" !in a.fields;
  }

  lemma {:induction false} SameMeaning(
      x: Document, y: Document, a: Json, b: Json, isRoot: bool, depth: nat, v: Json, fuel: nat)
    requires Relabelled(x, y) && SameButDialect(a, b) && (isRoot ==> a == x.root && b == y.root)
    requires !Incompatible(a, isRoot, depth) && PlainRefs(a)
    ensures Valid(Draft07, x, a, v, fuel) == Valid(Draft2020, y, b, v, fuel)
    decreases fuel, a
  {
    WalkedStaysInResource(x, y, a, b, isRoot, depth);
    if a.Obj? {
      if "$ref" in a.fields {
        SameTarget(x, y, a.fields["$ref"], v, fuel);
        ReferencesAgree(x, y, a, b, v, isRoot, fuel);
      } else {
        forall c | c in WalkedChildren(a)
          ensures Agree(x, y, c, fuel)
        {
          forall w
            ensures Valid(Draft07, x, c, w, fuel) == Valid(Draft2020, y, c, w, fuel)
          {
            SameMeaning(x, y, c, c, false, depth + 1, w, fuel);
          }
        }
        KeywordsAgree(x, y, a, b, v, isRoot, fuel);
      }
    }
  }

  lemma FollowsAlike(x: Document, y: Document, ref: Json, v: Json, fuel: nat)
    requires ref.Str? && Resolve(x.root, ref.s) == Resolve(y.root, ref.s)
    requires var target := Resolve(x.root, ref.s);
             target.Some? && fuel > 0 ==>
               Valid(Draft07, x, target.value, v, fuel - 1) == Valid(Draft2020, y, target.value, v, fuel - 1)
    ensures Follows(Draft07, x, ref, v, fuel) == Follows(Draft2020, y, ref, v, fuel)
  {
  }

  lemma {:induction false} SameTarget(x: Document, y: Document, ref: Json, v: Json, fuel: nat)
    requires Relabelled(x, y) && RefTargetsAWalkedContainer(ref) && !HasEncodedSlash(ref.s)
    ensures Follows(Draft07, x, ref, v, fuel) == Follows(Draft2020, y, ref, v, fuel)
    decreases fuel, ref
  {
    SameResolution(x.root, y.root, ref.s);
    var target := Resolve(x.root, ref.s);
    if target.Some? && fuel > 0 {
      TrustedRefTargetIsWalked(x.root, ref.s);
      SameMeaning(x, y, target.value, target.value, false, 1, v, fuel - 1);
    }
    FollowsAlike(x, y, ref, v, fuel);
  }

  /** `$schema` is on no trusted path. */
  lemma SameResolution(a: Json, b: Json, ref: string)
    requires a.Obj? && SameButDialect(a, b) && WalkedRefName(ref).Some?
    ensures Resolve(a, ref) == Resolve(b, ref)
  {
    var (container, name) := WalkedRefName(ref).value;
    TrustedRefTokens(ref, container, name);
    var tokens := Tokens(PercentDecode(ref[1..])[1..]);
    assert tokens[0] == container != "$schema";
    if container in a.fields {
      assert Walk(a, tokens) == Walk(a.fields[container], tokens[1..]) == Walk(b, tokens);
    }
  }

  /** The relabelled schema accepts exactly the instances the original accepted, whatever the
      instance, the pattern engine and the number of references followed. */
  lemma RelabelKeepsMeaning(s: Json, matches: (string, string) -> bool, v: Json, fuel: nat)
    requires Normalized(s) != s && PlainRefs(s) && DefinitionsAreObjects(s)
    ensures Valid(Draft07, Document(s, matches), s, v, fuel) ==
            Valid(Draft2020, Document(Normalized(s), matches), Normalized(s), v, fuel)
  {
    SameMeaning(Document(s, matches), Document(Normalized(s), matches), s, Normalized(s), true, 0, v, fuel);
  }

  // ---------------------------------------------------------------- why the guard is needed

  /** `{"dependencies": {"a": ["b"]}}`, which draft-07 enforces and 2020-12 ignores. */
  const DEPENDENCY := Obj(map["dependencies" := Obj(map["a" := Arr([Str("b")])])])

  const ONLY_A := Obj(map["a" := Null])

  /** A draft-07 root that is a reference and the container it points into, nothing else. */
  predicate OnlyRefersInto(s: Json, container: string, ref: string, members: Json) {
    DeclaresDraft07(s) && container in {"$defs", "definitions"} &&
    s.fields.Keys == {"$schema", "$ref", container} &&
    s.fields["$ref"] == Str(ref) && s.fields[container] == members
  }

  predicate Plain(name: string) {
    '/' !in name && '%' !in name && '~' !in name
  }

  /** Every encoded slash leads the reference past the member the walk has seen, to a value it
      has not: whatever the member and the unwalked key are called, `"#/$defs/T%2Fdefault"` for
      one, the meaning changes. */
  lemma EncodedSlashChangesMeaning(s: Json, member: string, key: string, matches: (string, string) -> bool)
    requires Plain(member) && Plain(key) && !Incompatible(Obj(map[key := DEPENDENCY]), false, 1)
    requires OnlyRefersInto(s, "$defs", "#/$defs/" + (member + ("%2F" + key)), Obj(map[member := Obj(map[key := DEPENDENCY])]))
    ensures Normalized(s) != s && DefinitionsAreObjects(s)
    ensures !Valid(Draft07, Document(s, matches), s, ONLY_A, 1)
    ensures Valid(Draft2020, Document(Normalized(s), matches), Normalized(s), ONLY_A, 1)
  {
    var ref := "#/$defs/" + (member + ("%2F" + key));
    ChildrenAreMembers(s, "$defs", ref, s.fields["$defs"]);
    ResolvesBelowTheMember(s, ref, member, key);
    PassesTheWalk(s, ref);
    WitnessVerdicts(s, ref, matches);
  }

  lemma ChildrenAreMembers(s: Json, container: string, ref: string, members: Json)
    requires OnlyRefersInto(s, container, ref, members)
    ensures forall c :: c in WalkedChildren(s) ==> members.Obj? && c in members.fields.Values
  {
    assert {"$schema", "$ref", "$defs", "definitions"} !! SCHEMA_KEYWORDS + SCHEMA_LIST_KEYWORDS;
    assert {"$schema", "$ref"} !! SCHEMA_NAME_MAP_KEYWORDS;
    forall c | c in WalkedChildren(s)
      ensures members.Obj? && c in members.fields.Values
    {
      var k, n :| k in SCHEMA_NAME_MAP_KEYWORDS && k in s.fields && s.fields[k].Obj? && n in s.fields[k].fields && s.fields[k].fields[n] == c;
      assert k == container;
    }
  }

  lemma ResolvesBelowTheMember(s: Json, ref: string, member: string, key: string)
    requires Plain(member) && Plain(key) && ref == "#/$defs/" + (member + ("%2F" + key))
    requires s.Obj? && "$defs" in s.fields
    requires s.fields["$defs"] == Obj(map[member := Obj(map[key := DEPENDENCY])])
    ensures WalkedRefName(ref).Some? && Resolve(s, ref) == Some(DEPENDENCY)
  {
    var name := member + ("%2F" + key);
    assert ref[..8] == "#/$defs/" && ref[8..] == name;
    assert '/' !in "%2F" + key;
    TrustedRefTokens(ref, "$defs", name);
    EncodedSlashSplits(member, key);
    ThreeTokens(s, "$defs", member, key, DEPENDENCY);
  }

  lemma EncodedSlashSplits(head: string, tail: string)
    requires Plain(head) && Plain(tail)
    ensures Tokens(PercentDecode(head + ("%2F" + tail))) == [head, tail]
  {
    DecodeAfterPlain(head, "%2F" + tail);
    var rest := "%2F" + tail;
    assert StartsWithEscape(rest) && rest[3..] == tail;
    DecodeAfterPlain(tail, "");
    assert tail + "" == tail;
    assert PercentDecode(rest) == "/" + tail;
    assert head + ("/" + tail) == head + "/" + tail;
    TokensSplitAtFirstSlash(head, tail);
    OneToken(tail);
  }

  lemma ThreeTokens(s: Json, container: string, member: string, key: string, target: Json)
    requires Plain(container) && Plain(member) && Plain(key)
    requires s.Obj? && container in s.fields
    requires s.fields[container] == Obj(map[member := Obj(map[key := target])])
    ensures Walk(s, [container] + [member, key]) == Some(target)
  {
    UnescapePlain(container);
    UnescapePlain(member);
    UnescapePlain(key);
    var inner := Obj(map[key := target]);
    var tokens := [container] + [member, key];
    assert tokens[1..] == [member, key] && [member, key][1..] == [key] && [key][1..] == [];
    assert Walk(inner, [key]) == Walk(target, []);
    assert Walk(s.fields[container], [member, key]) == Walk(inner, [key]);
  }

  /** A root of nothing but a dialect, a trusted reference and definitions passes the walk when
      the definitions do. */
  lemma PassesTheWalk(s: Json, ref: string)
    requires DeclaresDraft07(s) && "$ref" in s.fields && s.fields["$ref"] == Str(ref)
    requires s.fields.Keys <= {"$schema", "$ref", "$defs", "definitions"} && WalkedRefName(ref).Some?
    requires "$defs" in s.fields ==> IsSchemaMap(s.fields["$defs"])
    requires forall c :: c in WalkedChildren(s) ==> !Incompatible(c, false, 1)
    ensures Normalized(s) != s
  {
    assert {"$schema", "$defs", "definitions"} <= ANNOTATION_ONLY_KEYWORDS;
    assert {"$schema", "$ref", "$defs", "definitions"} !! POST_DRAFT_07_ASSERTION_KEYWORDS;
    var f := s.fields;
    assert !ActivatesADormantAssertion(f);
    assert !ShiftsReferenceResolution(f, true);
    assert !HasNonPortableValue(f);
  }

  lemma WitnessVerdicts(s: Json, ref: string, matches: (string, string) -> bool)
    requires Normalized(s) != s && "$ref" in s.fields && s.fields["$ref"] == Str(ref)
    requires s.fields.Keys <= {"$schema", "$ref", "$defs", "definitions"}
    requires WalkedRefName(ref).Some? && Resolve(s, ref) == Some(DEPENDENCY)
    ensures !Valid(Draft07, Document(s, matches), s, ONLY_A, 1)
    ensures Valid(Draft2020, Document(Normalized(s), matches), Normalized(s), ONLY_A, 1)
  {
    RefusedBefore(s, ref, matches);
    SameResolution(s, Normalized(s), ref);
    AcceptedAfter(Normalized(s), ref, matches);
  }

  lemma RefusedBefore(s: Json, ref: string, matches: (string, string) -> bool)
    requires s.Obj? && "$ref" in s.fields && s.fields["$ref"] == Str(ref) && Resolve(s, ref) == Some(DEPENDENCY)
    ensures !Valid(Draft07, Document(s, matches), s, ONLY_A, 1)
  {
    DependencyRefuses(Document(s, matches));
  }

  lemma AcceptedAfter(t: Json, ref: string, matches: (string, string) -> bool)
    requires t.Obj? && "$ref" in t.fields && t.fields["$ref"] == Str(ref) && Resolve(t, ref) == Some(DEPENDENCY)
    requires t.fields.Keys <= {"$schema", "$ref", "$defs", "definitions"}
    ensures Valid(Draft2020, Document(t, matches), t, ONLY_A, 1)
  {
    DependencyIsInert(Document(t, matches));
    assert !StartsResource(Draft2020, t.fields);
    assert {"$schema", "$defs", "definitions"} <= ANNOTATION_ONLY_KEYWORDS;
    SiblingsAreInert(Document(t, matches), t, ONLY_A, 1);
  }

  lemma DependencyRefuses(x: Document)
    ensures !Valid(Draft07, x, DEPENDENCY, ONLY_A, 0)
  {
    var f := DEPENDENCY.fields;
    assert "a" in f["dependencies"].fields && "a" in ONLY_A.fields;
    assert f["dependencies"].fields["a"].items[0] == Str("b");
    assert !AllPresent(f["dependencies"].fields["a"], ONLY_A);
    assert !Conditional(Draft07, x, DEPENDENCY, ONLY_A, 0);
  }

  lemma DependencyIsInert(y: Document)
    ensures Valid(Draft2020, y, DEPENDENCY, ONLY_A, 0)
  {
    var f := DEPENDENCY.fields;
    assert "$ref" !in f && "$dynamicRef" !in f && !StartsResource(Draft2020, f);
    assert forall k :: k in f && k != "$ref" ==> k in ANNOTATION_ONLY_KEYWORDS;
    SiblingsAreInert(y, DEPENDENCY, ONLY_A, 0);
  }

  /** A `definitions` that is an array has no members to walk, and still has elements. */
  lemma DefinitionsArrayChangesMeaning(s: Json, matches: (string, string) -> bool)
    requires OnlyRefersInto(s, "definitions", "#/definitions/" + "0", Arr([DEPENDENCY]))
    ensures Normalized(s) != s && PlainRefs(s)
    ensures !Valid(Draft07, Document(s, matches), s, ONLY_A, 1)
    ensures Valid(Draft2020, Document(Normalized(s), matches), Normalized(s), ONLY_A, 1)
  {
    var ref := "#/definitions/" + "0";
    ChildrenAreMembers(s, "definitions", ref, Arr([DEPENDENCY]));
    ResolvesToTheElement(s, ref);
    PassesTheWalk(s, ref);
    WitnessVerdicts(s, ref, matches);
  }

  lemma ResolvesToTheElement(s: Json, ref: string)
    requires ref == "#/definitions/" + "0"
    requires s.Obj? && "definitions" in s.fields && s.fields["definitions"] == Arr([DEPENDENCY])
    ensures WalkedRefName(ref).Some? && !HasEncodedSlash(ref) && Resolve(s, ref) == Some(DEPENDENCY)
  {
    FirstDefinition(ref);
    NoSlashInZero(ref, "definitions", "0");
    ResolvesToFirst(s, ref, "definitions", "0", DEPENDENCY);
  }

  lemma NoSlashInZero(ref: string, container: string, name: string)
    requires WalkedRefName(ref) == Some((container, name)) && name == "0"
    ensures !HasEncodedSlash(ref)
  {
    EncodedSlashIsInTheName(ref, container, name);
  }

  lemma ResolvesToFirst(s: Json, ref: string, container: string, name: string, target: Json)
    requires WalkedRefName(ref) == Some((container, name)) && name == "0" && Plain(container)
    requires s.Obj? && container in s.fields && s.fields[container] == Arr([target])
    ensures Resolve(s, ref) == Some(target)
  {
    TrustedRefTokens(ref, container, name);
    ZeroIsItself(name);
    FirstElement(s, container, target);
    ResolvedByTokens(s, ref, [container] + [name]);
  }

  lemma ResolvedByTokens(s: Json, ref: string, tokens: seq<string>)
    requires ref != "" && ref[0] == '#'
    requires var pointer := PercentDecode(ref[1..]);
             pointer != "" && pointer[0] == '/' && Tokens(pointer[1..]) == tokens
    ensures Resolve(s, ref) == Walk(s, tokens)
  {
  }

  lemma ZeroIsItself(name: string)
    requires name == "0"
    ensures PercentDecode(name) == name && Tokens(name) == [name]
  {
    DecodeAfterPlain(name, "");
    assert name + "" == name;
    OneToken(name);
  }

  lemma FirstDefinition(ref: string)
    requires ref == "#/definitions/" + "0"
    ensures WalkedRefName(ref) == Some(("definitions", "0"))
  {
    assert ref[..14] == "#/definitions/" && ref[14..] == "0" && ref[2] != "#/$defs/"[2];
  }

  lemma FirstElement(s: Json, container: string, target: Json)
    requires Plain(container)
    requires s.Obj? && container in s.fields && s.fields[container] == Arr([target])
    ensures Walk(s, [container] + ["0"]) == Some(target)
  {
    UnescapePlain(container);
    UnescapePlain("0");
    var tokens := [container] + ["0"];
    assert tokens[1..] == ["0"] && ["0"][1..] == [];
    assert Index("0") == Some(0);
    assert Walk(Arr([target]), ["0"]) == Walk(target, []);
  }

  // ---------------------------------------------------------------- why the walk refuses a nested `$id`

  /** A schema resource with one definition of its own, referred to from beside its `$id`. */
  predicate RefersToItsOwn(inner: Json, name: string) {
    inner.Obj? && inner.fields.Keys == {"$id", "$ref", "$defs"} && StartsResource(Draft2020, inner.fields) &&
    inner.fields["$ref"] == Str("#/$defs/" + name) && inner.fields["$defs"] == Obj(map[name := Bool(false)])
  }

  /** And one around it, with a definition of the same name. */
  predicate RefusesWhatItNames(s: Json, name: string) {
    DeclaresDraft07(s) && s.fields.Keys == {"$schema", "$defs", "not"} &&
    s.fields["$defs"] == Obj(map[name := Bool(true)]) && RefersToItsOwn(s.fields["not"], name)
  }

  /** Relabelled, every schema of this family would accept every instance where it accepted none:
      beside the reference, draft-07 ignores the `$id` that 2020-12 resolves it by. */
  lemma NestedIdWouldChangeMeaning(s: Json, name: string, matches: (string, string) -> bool, v: Json)
    requires Plain(name) && name != "" && RefusesWhatItNames(s, name)
    ensures var t := Obj(s.fields["$schema" := Str(DIALECT_2020_12)]);
            && Normalized(s) == s
            && !Valid(Draft07, Document(s, matches), s, v, 1)
            && Valid(Draft2020, Document(t, matches), t, v, 1)
  {
    var inner := s.fields["not"];
    NestedIdIsRefused(s);
    AllowsAllBefore(Document(s, matches), inner, name, v);
    OnlyNot(Draft07, Document(s, matches), s, v);
    var t := Obj(s.fields["$schema" := Str(DIALECT_2020_12)]);
    RefusesAllAfter(Document(t, matches), inner, name, v);
    assert t.fields.Keys == s.fields.Keys;
    OnlyNot(Draft2020, Document(t, matches), t, v);
  }

  lemma NestedIdIsRefused(s: Json)
    requires s.Obj? && "not" in s.fields && s.fields["not"].Obj? && "$id" in s.fields["not"].fields
    ensures Normalized(s) == s
  {
    assert "not" in SCHEMA_KEYWORDS && s.fields["not"] in WalkedChildren(s);
    assert Incompatible(s.fields["not"], false, 1);
  }

  lemma AllowsAllBefore(x: Document, inner: Json, name: string, v: Json)
    requires Plain(name) && name != "" && RefersToItsOwn(inner, name)
    requires x.root.Obj? && "$defs" in x.root.fields && x.root.fields["$defs"] == Obj(map[name := Bool(true)])
    ensures Valid(Draft07, x, inner, v, 1)
  {
    DefinitionResolves(x.root, name, Bool(true));
    assert Valid(Draft07, x, Bool(true), v, 0);
    assert Follows(Draft07, x, inner.fields["$ref"], v, 1);
    assert !StartsResource(Draft07, inner.fields);
  }

  lemma RefusesAllAfter(y: Document, inner: Json, name: string, v: Json)
    requires Plain(name) && name != "" && RefersToItsOwn(inner, name)
    ensures !Valid(Draft2020, y, inner, v, 1)
  {
    DefinitionResolves(inner, name, Bool(false));
    var own := y.(root := inner);
    assert !Valid(Draft2020, own, Bool(false), v, 0);
    assert !Follows(Draft2020, own, inner.fields["$ref"], v, 1);
  }

  lemma DefinitionResolves(root: Json, name: string, target: Json)
    requires Plain(name) && name != ""
    requires root.Obj? && "$defs" in root.fields && root.fields["$defs"] == Obj(map[name := target])
    ensures Resolve(root, "#/$defs/" + name) == Some(target)
  {
    var ref := "#/$defs/" + name;
    assert ref[..8] == "#/$defs/" && ref[8..] == name;
    TrustedRefTokens(ref, "$defs", name);
    DecodeAfterPlain(name, "");
    assert name + "" == name;
    OneToken(name);
    UnescapePlain(name);
    var tokens := ["$defs"] + [name];
    ResolvedByTokens(root, ref, tokens);
    assert tokens[1..] == [name] && [name][1..] == [];
    assert Walk(root.fields["$defs"], [name]) == Walk(target, []);
  }

  /** A schema with nothing to assert but its `not`. */
  lemma OnlyNot(d: Dialect, doc: Document, s: Json, v: Json)
    requires s.Obj? && s.fields.Keys == {"$schema", "$defs", "not"}
    ensures Valid(d, doc, s, v, 1) <==> !Valid(d, doc, s.fields["not"], v, 1)
  {
    assert !StartsResource(d, s.fields);
    NothingButNot(s.fields);
    OnlyNotInPlace(d, doc, s, v);
    OnlyNotElsewhere(d, doc, s, v);
  }

  /** Every keyword the evaluator looks at, but `not`. */
  const EVALUATED: set<string> := ASSERTING + {"$ref", "dependencies", "additionalItems"} - {"not"}

  lemma NothingButNot(f: map<string, Json>)
    requires f.Keys == {"$schema", "$defs", "not"}
    ensures forall k :: k in EVALUATED ==> k !in f
  {
    assert EVALUATED !! {"$schema", "$defs", "not"};
  }

  lemma OnlyNotInPlace(d: Dialect, doc: Document, s: Json, v: Json)
    requires s.Obj? && "not" in s.fields && forall k :: k in EVALUATED ==> k !in s.fields
    ensures InPlace(d, doc, s, v, 1) <==> !Valid(d, doc, s.fields["not"], v, 1)
    ensures Assertions(d, s.fields, v)
  {
  }

  lemma OnlyNotElsewhere(d: Dialect, doc: Document, s: Json, v: Json)
    requires s.Obj? && "not" in s.fields && forall k :: k in EVALUATED ==> k !in s.fields
    ensures Conditional(d, doc, s, v, 1) && Properties(d, doc, s, v, 1) && Elements(d, doc, s, v, 1)
    ensures "$ref" !in s.fields && "$dynamicRef" !in s.fields
  {
  }
}
