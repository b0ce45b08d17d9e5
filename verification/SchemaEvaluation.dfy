/**
 JSON values, and what a JSON Schema means under draft-07 and under 2020-12.

 One evaluator serves both dialects; every place where their specifications differ is an
 explicit test on the dialect:
 - core section 8.3 of draft-07: an object with `$ref` is that reference and nothing else, so an
   `$id` beside it moves no base; 2020-12 core sections 8.2.1 and 8.2.3.1 honour the `$id` and
   evaluate the other siblings too;
 - validation sections 6.4.1 and 6.4.6 of draft-07 (tuple `items`, `contains`) against core
   section 10.3.1 and validation sections 6.4.4 and 6.4.5 of 2020-12 (`prefixItems`, one `items`
   schema, bounded `contains`);
 - validation section 6.5.7 of draft-07 (`dependencies`) against validation section 6.5.4 and
   core section 10.2.2.4 of 2020-12 (`dependentRequired`, `dependentSchemas`);
 - core section 11 of 2020-12 (`unevaluatedItems`, `unevaluatedProperties`).
 `format` and the `content*` keywords are annotations in both.
 */
module SchemaEvaluation {
  import opened Basics

  datatype Json =
    | Null
    | Bool(b: bool)
    | Num(n: real)
    | Str(s: string)
    | Arr(items: seq<Json>)
    | Obj(fields: map<string, Json>)

  datatype Dialect = Draft07 | Draft2020

  /** The schema resource references resolve in, and the regular-expression engine, whose meaning
      the two dialects share. */
  datatype Document = Document(root: Json, matches: (string, string) -> bool)

  // ---------------------------------------------------------------- references

  predicate IsHex(c: char) {
    '0' <= c <= '9' || 'a' <= c <= 'f' || 'A' <= c <= 'F'
  }

  function HexValue(c: char): (r: nat)
    requires IsHex(c)
    ensures r < 16
  {
    if '0' <= c <= '9' then (c - '0') as nat
    else if 'a' <= c <= 'f' then 10 + (c - 'a') as nat
    else 10 + (c - 'A') as nat
  }

  predicate StartsWithEscape(s: string) {
    |s| >= 3 && s[0] == '%' && IsHex(s[1]) && IsHex(s[2])
  }

  /** Percent-decoding of a URI fragment (section 2.1 of RFC 3986), one octet a character. */
  function PercentDecode(s: string): string {
    if s == "" then ""
    else if StartsWithEscape(s) then
      [(16 * HexValue(s[1]) + HexValue(s[2])) as char] + PercentDecode(s[3..])
    else [s[0]] + PercentDecode(s[1..])
  }

  /** The reference tokens of a JSON Pointer whose leading slash is already gone. */
  function Tokens(s: string): (r: seq<string>)
    ensures |r| > 0
  {
    if s == "" then [""]
    else
      var rest := Tokens(s[1..]);
      if s[0] == '/' then [""] + rest else [[s[0]] + rest[0]] + rest[1..]
  }

  /** `~1` is a slash and `~0` a tilde (section 4 of RFC 6901). */
  function Unescape(token: string): string {
    if |token| >= 2 && token[0] == '~' && token[1] == '1' then "/" + Unescape(token[2..])
    else if |token| >= 2 && token[0] == '~' && token[1] == '0' then "~" + Unescape(token[2..])
    else if token == "" then ""
    else [token[0]] + Unescape(token[1..])
  }

  /** An array index token: digits, without a leading zero. */
  function Index(token: string): Option<nat> {
    if token == "" || (|token| > 1 && token[0] == '0') then None else Digits(token, 0)
  }

  function Digits(token: string, value: nat): Option<nat> {
    if token == "" then Some(value)
    else if '0' <= token[0] <= '9' then Digits(token[1..], 10 * value + (token[0] - '0') as nat)
    else None
  }

  function Walk(j: Json, tokens: seq<string>): Option<Json> {
    if tokens == [] then Some(j)
    else
      var name := Unescape(tokens[0]);
      match j
      case Obj(fields) => if name in fields then Walk(fields[name], tokens[1..]) else None
      case Arr(items) =>
        var at := Index(name);
        if at.Some? && at.value < |items| then Walk(items[at.value], tokens[1..]) else None
      case _ => None
  }

  /** The value a same-document reference names: section 6 of RFC 6901, percent-decoding
      first. Anything that isn't a pointer into this document resolves to nothing. */
  function Resolve(root: Json, ref: string): Option<Json> {
    if ref == "" || ref[0] != '#' then None
    else
      var pointer := PercentDecode(ref[1..]);
      if pointer == "" then Some(root)
      else if pointer[0] != '/' then None
      else Walk(root, Tokens(pointer[1..]))
  }

  /** Does `$id` make the schema a resource of its own, in which its references resolve? */
  predicate StartsResource(d: Dialect, f: map<string, Json>) {
    "$id" in f && f["$id"].Str? && f["$id"].s != "" && f["$id"].s[0] != '#' && !(d.Draft07? && "$ref" in f)
  }

  function Within(d: Dialect, doc: Document, s: Json): Document {
    if s.Obj? && StartsResource(d, s.fields) then doc.(root := s) else doc
  }

  // ---------------------------------------------------------------- keywords without subschemas

  predicate IsType(name: string, v: Json) {
    match v
    case Null => name == "null"
    case Bool(_) => name == "boolean"
    case Num(n) => name == "number" || (name == "integer" && n == n.Floor as real)
    case Str(_) => name == "string"
    case Arr(_) => name == "array"
    case Obj(_) => name == "object"
  }

  predicate TypeHolds(t: Json, v: Json) {
    match t
    case Str(name) => IsType(name, v)
    case Arr(names) => exists i :: 0 <= i < |names| && names[i].Str? && IsType(names[i].s, v)
    case _ => true
  }

  /** Every name in `names` is a property of the object `v`. */
  predicate AllPresent(names: Json, v: Json) {
    names.Arr? && v.Obj? ==>
      forall i :: 0 <= i < |names.items| && names.items[i].Str? ==> names.items[i].s in v.fields
  }

  predicate Assertions(d: Dialect, f: map<string, Json>, v: Json) {
    && ("type" in f ==> TypeHolds(f["type"], v))
    && ("required" in f ==> AllPresent(f["required"], v))
    && (d.Draft2020? && "dependentRequired" in f && f["dependentRequired"].Obj? && v.Obj? ==>
          forall p :: p in f["dependentRequired"].fields && p in v.fields ==>
            AllPresent(f["dependentRequired"].fields[p], v))
  }

  /** Does `properties` or `patternProperties` speak about the property `p`? */
  predicate Named(doc: Document, f: map<string, Json>, p: string) {
    || ("properties" in f && f["properties"].Obj? && p in f["properties"].fields)
    || ("patternProperties" in f && f["patternProperties"].Obj? &&
        exists r :: r in f["patternProperties"].fields && doc.matches(r, p))
  }

  /** A bound of 2020-12's `contains`: the keyword's value, or `otherwise` when absent. */
  function Bound(f: map<string, Json>, k: string, otherwise: real): real {
    if k in f && f[k].Num? then f[k].n else otherwise
  }

  // ---------------------------------------------------------------- the evaluator

  /** Is `v` valid against `s`? `fuel` bounds the references followed in a row; a reference
      that can't be resolved or followed makes the instance invalid. A value that is no schema
      at all constrains nothing. */
  predicate Valid(d: Dialect, doc: Document, s: Json, v: Json, fuel: nat)
    decreases fuel, s, 3
  {
    match s
    case Bool(b) => b
    case Obj(f) =>
      var own := Within(d, doc, s);
      if d.Draft07? && "$ref" in f then Follows(d, own, f["$ref"], v, fuel)
      else
        && (d.Draft2020? && "$ref" in f ==> Follows(d, own, f["$ref"], v, fuel))
        && (d.Draft2020? && "$dynamicRef" in f ==> Follows(d, own, f["$dynamicRef"], v, fuel))
        && Assertions(d, f, v)
        && InPlace(d, own, s, v, fuel)
        && Conditional(d, own, s, v, fuel)
        && Properties(d, own, s, v, fuel)
        && Elements(d, own, s, v, fuel)
    case _ => true
  }

  predicate Follows(d: Dialect, doc: Document, ref: Json, v: Json, fuel: nat)
    decreases fuel, ref, 0
  {
    ref.Str? &&
    var target := Resolve(doc.root, ref.s);
    target.Some? && fuel > 0 && Valid(d, doc, target.value, v, fuel - 1)
  }

  /** The keywords that apply a subschema to the instance itself. */
  predicate InPlace(d: Dialect, doc: Document, s: Json, v: Json, fuel: nat)
    requires s.Obj?
    decreases fuel, s, 2
  {
    var f := s.fields;
    && ("not" in f ==> !Valid(d, doc, f["not"], v, fuel))
    && AllOf(d, doc, s, v, fuel)
    && AnyOf(d, doc, s, v, fuel)
    && ("oneOf" in f && f["oneOf"].Arr? ==> |Matching(d, doc, s, v, fuel)| == 1)
  }

  predicate AllOf(d: Dialect, doc: Document, s: Json, v: Json, fuel: nat)
    requires s.Obj?
    decreases fuel, s, 1
  {
    "allOf" in s.fields && s.fields["allOf"].Arr? ==>
      forall i :: 0 <= i < |s.fields["allOf"].items| ==> Valid(d, doc, s.fields["allOf"].items[i], v, fuel)
  }

  predicate AnyOf(d: Dialect, doc: Document, s: Json, v: Json, fuel: nat)
    requires s.Obj?
    decreases fuel, s, 1
  {
    "anyOf" in s.fields && s.fields["anyOf"].Arr? ==>
      exists i :: 0 <= i < |s.fields["anyOf"].items| && Valid(d, doc, s.fields["anyOf"].items[i], v, fuel)
  }

  /** The places of `oneOf` whose schema accepts the instance. */
  function Matching(d: Dialect, doc: Document, s: Json, v: Json, fuel: nat): set<int>
    requires s.Obj? && "oneOf" in s.fields && s.fields["oneOf"].Arr?
    decreases fuel, s, 1
  {
    set i | 0 <= i < |s.fields["oneOf"].items| && Valid(d, doc, s.fields["oneOf"].items[i], v, fuel)
  }

  /** The keywords that apply a subschema to the instance itself under a condition. */
  predicate Conditional(d: Dialect, doc: Document, s: Json, v: Json, fuel: nat)
    requires s.Obj?
    decreases fuel, s, 2
  {
    var f := s.fields;
    && ("if" in f ==>
          if Valid(d, doc, f["if"], v, fuel)
          then "then" in f ==> Valid(d, doc, f["then"], v, fuel)
          else "else" in f ==> Valid(d, doc, f["else"], v, fuel))
    && (d.Draft07? && "dependencies" in f && f["dependencies"].Obj? && v.Obj? ==>
          forall p :: p in f["dependencies"].fields && p in v.fields ==>
            if f["dependencies"].fields[p].Arr? then AllPresent(f["dependencies"].fields[p], v)
            else Valid(d, doc, f["dependencies"].fields[p], v, fuel))
    && (d.Draft2020? && "dependentSchemas" in f && f["dependentSchemas"].Obj? && v.Obj? ==>
          forall p :: p in f["dependentSchemas"].fields && p in v.fields ==>
            Valid(d, doc, f["dependentSchemas"].fields[p], v, fuel))
  }

  /** The keywords that apply subschemas to an object's properties. */
  predicate Properties(d: Dialect, doc: Document, s: Json, v: Json, fuel: nat)
    requires s.Obj?
    decreases fuel, s, 2
  {
    var f := s.fields;
    v.Obj? ==>
      && ("properties" in f && f["properties"].Obj? ==>
            forall p :: p in f["properties"].fields && p in v.fields ==>
              Valid(d, doc, f["properties"].fields[p], v.fields[p], fuel))
      && ("patternProperties" in f && f["patternProperties"].Obj? ==>
            forall r, p :: r in f["patternProperties"].fields && p in v.fields && doc.matches(r, p) ==>
              Valid(d, doc, f["patternProperties"].fields[r], v.fields[p], fuel))
      && ("additionalProperties" in f ==>
            forall p :: p in v.fields && !Named(doc, f, p) ==>
              Valid(d, doc, f["additionalProperties"], v.fields[p], fuel))
      && ("propertyNames" in f ==>
            forall p :: p in v.fields ==> Valid(d, doc, f["propertyNames"], Str(p), fuel))
      && (d.Draft2020? && "unevaluatedProperties" in f ==>
            forall p :: p in v.fields && !Evaluates(doc, s, v, Property(p), fuel) ==>
              Valid(d, doc, f["unevaluatedProperties"], v.fields[p], fuel))
  }

  /** The keywords that apply subschemas to an array's elements. */
  predicate Elements(d: Dialect, doc: Document, s: Json, v: Json, fuel: nat)
    requires s.Obj?
    decreases fuel, s, 2
  {
    var f := s.fields;
    v.Arr? ==>
      && (d.Draft07? && "items" in f && f["items"].Arr? ==>
            forall i :: 0 <= i < |v.items| ==>
              if i < |f["items"].items| then Valid(d, doc, f["items"].items[i], v.items[i], fuel)
              else "additionalItems" in f ==> Valid(d, doc, f["additionalItems"], v.items[i], fuel))
      && (d.Draft2020? && "prefixItems" in f && f["prefixItems"].Arr? ==>
            forall i :: 0 <= i < |v.items| && i < |f["prefixItems"].items| ==>
              Valid(d, doc, f["prefixItems"].items[i], v.items[i], fuel))
      && ("items" in f && !f["items"].Arr? ==>
            forall i :: PrefixLength(d, f) <= i < |v.items| ==>
              Valid(d, doc, f["items"], v.items[i], fuel))
      && ("contains" in f ==>
            var found := |set i | 0 <= i < |v.items| && Valid(d, doc, f["contains"], v.items[i], fuel)|;
            if d.Draft07? then found >= 1
            else Bound(f, "minContains", 1.0) <= found as real <= Bound(f, "maxContains", found as real))
      && (d.Draft2020? && "unevaluatedItems" in f ==>
            forall i :: 0 <= i < |v.items| && !Evaluates(doc, s, v, Element(i), fuel) ==>
              Valid(d, doc, f["unevaluatedItems"], v.items[i], fuel))
  }

  /** How many leading elements 2020-12's `items` leaves to `prefixItems`. */
  function PrefixLength(d: Dialect, f: map<string, Json>): nat {
    if d.Draft2020? && "prefixItems" in f && f["prefixItems"].Arr? then |f["prefixItems"].items| else 0
  }

  /** A property or an element of the instance, for 2020-12's `unevaluated*` keywords. */
  datatype Spot = Property(name: string) | Element(index: nat)

  /** Have the keywords of `s` other than `unevaluated*` evaluated `spot` of `v`? */
  predicate Evaluates(doc: Document, s: Json, v: Json, spot: Spot, fuel: nat)
    requires s.Obj?
    decreases fuel, s, 1
  {
    var f := s.fields;
    || (match spot
        case Property(p) => Named(doc, f, p) || "additionalProperties" in f
        case Element(i) =>
          || "items" in f
          || i < PrefixLength(Draft2020, f)
          || ("contains" in f && v.Arr? && i < |v.items| &&
              Valid(Draft2020, doc, f["contains"], v.items[i], fuel)))
    || ("$ref" in f && CoversThrough(doc, f["$ref"], v, spot, fuel))
    || ("$dynamicRef" in f && CoversThrough(doc, f["$dynamicRef"], v, spot, fuel))
    || (exists k, i ::
          k in {"allOf", "anyOf", "oneOf"} && k in f && f[k].Arr? && 0 <= i < |f[k].items| &&
          Covers(doc, f[k].items[i], v, spot, fuel))
    || ("if" in f &&
        if Valid(Draft2020, doc, f["if"], v, fuel)
        then Covers(doc, f["if"], v, spot, fuel) || ("then" in f && Covers(doc, f["then"], v, spot, fuel))
        else "else" in f && Covers(doc, f["else"], v, spot, fuel))
    || ("dependentSchemas" in f && f["dependentSchemas"].Obj? && v.Obj? &&
        exists p :: p in f["dependentSchemas"].fields && p in v.fields &&
          Covers(doc, f["dependentSchemas"].fields[p], v, spot, fuel))
  }

  /** A subschema evaluates a spot only when it accepts the instance. */
  predicate Covers(doc: Document, s: Json, v: Json, spot: Spot, fuel: nat)
    decreases fuel, s, 4
  {
    s.Obj? && Valid(Draft2020, doc, s, v, fuel) &&
    (Evaluates(Within(Draft2020, doc, s), s, v, spot, fuel) ||
     (if spot.Property? then "unevaluatedProperties" else "unevaluatedItems") in s.fields)
  }

  predicate CoversThrough(doc: Document, ref: Json, v: Json, spot: Spot, fuel: nat)
    decreases fuel, ref, 0
  {
    ref.Str? &&
    var target := Resolve(doc.root, ref.s);
    target.Some? && fuel > 0 && Covers(doc, target.value, v, spot, fuel - 1)
  }
}
