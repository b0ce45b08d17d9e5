/**
 The selection set generated for a GraphQL output type (`selection_for`, `_candidate_selections`,
 backend/app/bridge/graphql.py), on any type graph, cyclic connections included.
 */
module Selection {
  import opened Basics

  const FREE_HOPS: nat := 2
  const SELECTION_DEPTH: nat := 2
  const MAX_SELECTION_FIELDS: nat := 300

  /** `typ` names the field's type with list and non-null wrappers taken off, `typeText` the type
      as written. */
  datatype FieldDef = FieldDef(name: string, deprecated: bool, requiresArgument: bool, typ: string, typeText: string)

  datatype TypeDef =
    | LeafType
    | UnionType(members: seq<string>)
    | ObjectType(fields: seq<FieldDef>)
    | InterfaceType(fields: seq<FieldDef>)

  type Schema = map<string, TypeDef>

  /** A GraphQL schema: names resolve, and a union's members are object types. */
  ghost predicate SchemaOk(s: Schema) {
    && (forall t, m :: t in s && s[t].UnionType? && m in s[t].members ==> m in s && s[m].ObjectType?)
    && (forall t, f :: t in s && HasFields(s[t]) && f in s[t].fields ==> f.typ in s)
  }

  predicate HasFields(t: TypeDef) {
    t.ObjectType? || t.InterfaceType?
  }

  // ---------------------------------------------------------------- selections

  /** A leaf has no selection; a selection set is never empty. */
  datatype Part =
    | TypeName
    | Field(name: string, alias: Option<string>, parts: seq<Part>)
    | On(member: string, parts: seq<Part>)

  function EndsWith(s: string, suffix: string): bool {
    |suffix| <= |s| && s[|s| - |suffix|..] == suffix
  }

  /** `_is_connection_plumbing`. */
  predicate IsPlumbing(parent: string, field: string) {
    || (EndsWith(parent, "Connection") && (field == "edges" || field == "nodes"))
    || (EndsWith(parent, "Edge") && field == "node")
  }

  predicate Skipped(f: FieldDef) {
    (|f.name| >= 2 && f.name[..2] == "__") || f.deprecated || f.requiresArgument
  }

  /** Does some member declare field `name` with type `text`? */
  ghost predicate Declares(s: Schema, members: seq<string>, name: string, text: string) {
    exists m, f :: m in members && m in s && HasFields(s[m]) && f in s[m].fields && f.name == name && f.typeText == text
  }

  /** `_union_conflicts`: the names members declare with different types. */
  ghost predicate Clashes(s: Schema, members: seq<string>, name: string) {
    exists a, b :: a != b && Declares(s, members, name, a) && Declares(s, members, name, b)
  }

  function AliasFor(f: FieldDef, parent: string, conflicts: set<string>): Option<string> {
    if f.name in conflicts then Some(f.name + "_" + parent) else None
  }

  function NextDepth(parent: string, f: FieldDef, depth: nat, free: nat): int {
    if free > 0 && IsPlumbing(parent, f.name) then depth else depth - 1
  }

  function NextFree(parent: string, f: FieldDef, free: nat): nat {
    if free > 0 && IsPlumbing(parent, f.name) then free - 1 else FREE_HOPS
  }

  // ---------------------------------------------------------------- what a selection is like

  /** The fields a selection emits, `__typename` aside. */
  function Count(parts: seq<Part>): nat {
    if parts == [] then 0 else Count(parts[..|parts| - 1]) + CountOf(parts[|parts| - 1])
  }

  function CountOf(p: Part): nat {
    match p
    case TypeName => 0
    case Field(_, _, inner) => 1 + Count(inner)
    case On(_, inner) => Count(inner)
  }

  /** How many fields are nested in each other at most. */
  function Nesting(parts: seq<Part>): nat {
    if parts == [] then 0 else Max(Nesting(parts[..|parts| - 1]), NestingOf(parts[|parts| - 1]))
  }

  function NestingOf(p: Part): nat {
    match p
    case TypeName => 0
    case Field(_, _, inner) => 1 + Nesting(inner)
    case On(_, inner) => Nesting(inner)
  }

  /** A part GraphQL lets select on `t`: a field it has, that needs no argument, with a selection
      exactly when its type isn't a leaf; or, on a union, a fragment on one of its members. */
  ghost predicate PartOk(s: Schema, t: string, p: Part)
    decreases p
  {
    t in s &&
    match p
    case TypeName => !s[t].LeafType?
    case Field(name, _, inner) =>
      HasFields(s[t]) && exists f :: f in s[t].fields && f.name == name && FieldOk(s, f, inner)
    case On(member, inner) =>
      s[t].UnionType? && member in s[t].members && inner != [] && forall q :: q in inner ==> PartOk(s, member, q)
  }

  ghost predicate FieldOk(s: Schema, f: FieldDef, inner: seq<Part>)
    decreases inner
  {
    && !Skipped(f) && f.typ in s
    && (s[f.typ].LeafType? <==> inner == [])
    && forall q :: q in inner ==> PartOk(s, f.typ, q)
  }

  ghost predicate SelectionOk(s: Schema, t: string, parts: seq<Part>) {
    t in s && (s[t].LeafType? <==> parts == []) && forall q :: q in parts ==> PartOk(s, t, q)
  }

  /** No deeper than depth and free hops allow. */
  function Bound(depth: nat, free: nat): nat {
    if depth == 0 then 1 else (depth - 1) * (FREE_HOPS + 1) + free + 1
  }

  lemma CountMore(parts: seq<Part>, p: Part)
    ensures Count(parts + [p]) == Count(parts) + CountOf(p)
    ensures Nesting(parts + [p]) == Max(Nesting(parts), NestingOf(p))
  {
    assert (parts + [p])[..|parts|] == parts;
  }

  /** What a selection of `t` promises. */
  ghost predicate Promised(s: Schema, t: string, parts: seq<Part>, depth: nat, free: nat) {
    SelectionOk(s, t, parts) && Nesting(parts) <= Bound(depth, free)
  }

  function Rank(t: TypeDef): nat {
    if t.UnionType? then 1 else 0
  }

  // ---------------------------------------------------------------- which selection it is

  ghost function ClashingNames(s: Schema, members: seq<string>): set<string> {
    set m, f | m in members && m in s && HasFields(s[m]) && f in s[m].fields && Clashes(s, members, f.name) :: f.name
  }

  /** The field can be asked for, and its type's selection isn't cut off by the depth. */
  ghost predicate Askable(s: Schema, t: string, f: FieldDef, depth: nat, free: nat) {
    !Skipped(f) && f.typ in s && (s[f.typ].LeafType? || NextDepth(t, f, depth, free) > 0)
  }

  /** A field with everything below it. */
  ghost function FieldPart(s: Schema, t: string, f: FieldDef, depth: nat, conflicts: set<string>, free: nat): Part
    requires SchemaOk(s) && Askable(s, t, f, depth, free)
    decreases depth, free, 0, 0
  {
    Field(f.name, AliasFor(f, t, conflicts),
          if s[f.typ].LeafType? then [] else Selected(s, f.typ, NextDepth(t, f, depth, free), {}, NextFree(t, f, free)))
  }

  ghost function FieldParts(
      s: Schema, t: string, fields: seq<FieldDef>, depth: nat, conflicts: set<string>, free: nat): seq<Part>
    requires SchemaOk(s)
    decreases depth, free, 0, |fields| + 1
  {
    if fields == [] then []
    else
      var (before, f) := (fields[..|fields| - 1], fields[|fields| - 1]);
      FieldParts(s, t, before, depth, conflicts, free) +
      if Askable(s, t, f, depth, free) then [FieldPart(s, t, f, depth, conflicts, free)] else []
  }

  ghost function MemberParts(
      s: Schema, members: seq<string>, depth: nat, conflicts: set<string>, free: nat): seq<Part>
    requires SchemaOk(s) && forall m :: m in members ==> m in s && s[m].ObjectType?
    decreases depth, free, 1, |members|
  {
    if members == [] then []
    else
      var (before, m) := (members[..|members| - 1], members[|members| - 1]);
      MemberParts(s, before, depth, conflicts, free) + [On(m, Selected(s, m, depth, conflicts, free))]
  }

  /** The selection of `t`: all that can be asked for, in the schema's order, as deep as allowed. */
  ghost function Selected(s: Schema, t: string, depth: nat, conflicts: set<string>, free: nat): seq<Part>
    requires SchemaOk(s) && t in s
    decreases depth, free, Rank(s[t]), WidthOf(s[t]) + 2
  {
    match s[t]
    case LeafType => []
    case UnionType(members) => [TypeName] + MemberParts(s, members, depth, ClashingNames(s, members), free)
    case _ =>
      var parts := FieldParts(s, t, s[t].fields, depth, conflicts, free);
      if s[t].InterfaceType? || parts == [] then parts + [TypeName] else parts
  }

  function WidthOf(t: TypeDef): nat {
    match t
    case LeafType => 0
    case UnionType(members) => |members|
    case _ => |t.fields|
  }

  /** `selection_for`, with the cell it counts in. */
  class Generator {
    const schema: Schema
    var counter: nat

    constructor (schema: Schema)
      ensures this.schema == schema && counter == 0
    {
      this.schema, counter := schema, 0;
    }

    method SelectionFor(t: string, depth: nat, conflicts: set<string>, free: nat) returns (parts: seq<Part>)
      requires SchemaOk(schema) && t in schema
      modifies this`counter
      ensures Promised(schema, t, parts, depth, free) && counter == old(counter) + Count(parts)
      ensures parts == Selected(schema, t, depth, conflicts, free)
      decreases depth, free, Rank(schema[t]), 1
    {
      match schema[t]
      case LeafType => parts := [];
      case UnionType(_) => parts := OnUnion(t, depth, free);
      case _ => parts := OnFields(t, depth, conflicts, free);
    }

    method OnUnion(t: string, depth: nat, free: nat) returns (parts: seq<Part>)
      requires SchemaOk(schema) && t in schema && schema[t].UnionType?
      modifies this`counter
      ensures Promised(schema, t, parts, depth, free) && counter == old(counter) + Count(parts)
      ensures parts == Selected(schema, t, depth, {}, free)
      decreases depth, free, 1, 0
    {
      var members := schema[t].members;
      var clashing := UnionConflicts(schema, members);
      SameNames(schema, members, clashing);
      parts := [TypeName];
      FragmentsBegin(schema, t, depth, free);
      for i := 0 to |members|
        invariant FragmentsSoFar(schema, t, parts, i, depth, clashing, free)
        invariant counter == old(counter) + Count(parts)
      {
        var sub := SelectionFor(members[i], depth, clashing, free);
        if sub != [] {
          TakesMember(schema, t, parts, i, depth, clashing, free, sub);
          parts := parts + [On(members[i], sub)];
        }
      }
      assert members[..|members|] == members;
    }

    method OnFields(t: string, depth: nat, conflicts: set<string>, free: nat) returns (parts: seq<Part>)
      requires SchemaOk(schema) && t in schema && HasFields(schema[t])
      modifies this`counter
      ensures Promised(schema, t, parts, depth, free) && counter == old(counter) + Count(parts)
      ensures parts == Selected(schema, t, depth, conflicts, free)
      decreases depth, free, 0, 0
    {
      var fields := schema[t].fields;
      parts := [];
      for i := 0 to |fields|
        invariant FieldsSoFar(schema, t, parts, i, depth, conflicts, free)
        invariant counter == old(counter) + Count(parts)
      {
        var f := fields[i];
        if Skipped(f) {
          SkipsField(schema, t, parts, i, depth, conflicts, free);
          continue;
        }
        var alias := AliasFor(f, t, conflicts);
        if schema[f.typ].LeafType? {
          TakesField(schema, t, parts, i, depth, conflicts, free, []);
          parts := parts + [Field(f.name, alias, [])];
          counter := counter + 1;
          continue;
        }
        var nextDepth, nextFree := NextDepth(t, f, depth, free), NextFree(t, f, free);
        if nextDepth <= 0 {
          SkipsField(schema, t, parts, i, depth, conflicts, free);
          continue;
        }
        var sub := SelectionFor(f.typ, nextDepth, {}, nextFree);
        if sub != [] {
          DeeperBound(t, f, depth, free);
          TakesField(schema, t, parts, i, depth, conflicts, free, sub);
          parts := parts + [Field(f.name, alias, sub)];
          counter := counter + 1;
        }
      }
      FieldsEnd(schema, t, parts, depth, conflicts, free);
      if schema[t].InterfaceType? || parts == [] {
        parts := parts + [TypeName];
      }
    }
  }

  /** What a loop over a type's fields has put together of the first `n`. */
  ghost predicate FieldsSoFar(s: Schema, t: string, parts: seq<Part>, n: nat, depth: nat, conflicts: set<string>, free: nat)
    requires SchemaOk(s) && t in s && HasFields(s[t]) && n <= |s[t].fields|
  {
    && AllOk(s, t, parts) && Nesting(parts) <= Bound(depth, free)
    && parts == FieldParts(s, t, s[t].fields[..n], depth, conflicts, free)
  }

  lemma FieldPartsMore(s: Schema, t: string, n: nat, depth: nat, conflicts: set<string>, free: nat)
    requires SchemaOk(s) && t in s && HasFields(s[t]) && n < |s[t].fields|
    ensures var f := s[t].fields[n];
            FieldParts(s, t, s[t].fields[..n + 1], depth, conflicts, free) ==
            FieldParts(s, t, s[t].fields[..n], depth, conflicts, free) +
            if Askable(s, t, f, depth, free) then [FieldPart(s, t, f, depth, conflicts, free)] else []
  {
    var first := s[t].fields[..n + 1];
    assert first[..n] == s[t].fields[..n] && first[n] == s[t].fields[n];
  }

  lemma SkipsField(s: Schema, t: string, parts: seq<Part>, n: nat, depth: nat, conflicts: set<string>, free: nat)
    requires SchemaOk(s) && t in s && HasFields(s[t]) && n < |s[t].fields|
    requires FieldsSoFar(s, t, parts, n, depth, conflicts, free) && !Askable(s, t, s[t].fields[n], depth, free)
    ensures FieldsSoFar(s, t, parts, n + 1, depth, conflicts, free)
  {
    FieldPartsMore(s, t, n, depth, conflicts, free);
  }

  lemma TakesField(
      s: Schema, t: string, parts: seq<Part>, n: nat, depth: nat, conflicts: set<string>, free: nat, sub: seq<Part>)
    requires SchemaOk(s) && t in s && HasFields(s[t]) && n < |s[t].fields|
    requires FieldsSoFar(s, t, parts, n, depth, conflicts, free) && Askable(s, t, s[t].fields[n], depth, free)
    requires var f := s[t].fields[n];
             SelectionOk(s, f.typ, sub) && 1 + Nesting(sub) <= Bound(depth, free) &&
             sub == FieldPart(s, t, f, depth, conflicts, free).parts
    ensures var p := Field(s[t].fields[n].name, AliasFor(s[t].fields[n], t, conflicts), sub);
            FieldsSoFar(s, t, parts + [p], n + 1, depth, conflicts, free) && Count(parts + [p]) == Count(parts) + 1 + Count(sub)
  {
    var f := s[t].fields[n];
    var p := Field(f.name, AliasFor(f, t, conflicts), sub);
    FieldPartsMore(s, t, n, depth, conflicts, free);
    FieldIsOk(s, t, f, AliasFor(f, t, conflicts), sub);
    CountMore(parts, p);
    AllOkMore(s, t, parts, p);
  }

  lemma AllOkMore(s: Schema, t: string, parts: seq<Part>, p: Part)
    requires AllOk(s, t, parts) && PartOk(s, t, p)
    ensures AllOk(s, t, parts + [p])
  {
  }

  lemma DeeperBound(t: string, f: FieldDef, depth: nat, free: nat)
    requires NextDepth(t, f, depth, free) > 0
    ensures 1 + Bound(NextDepth(t, f, depth, free), NextFree(t, f, free)) <= Bound(depth, free)
  {
  }

  lemma FieldsEnd(s: Schema, t: string, parts: seq<Part>, depth: nat, conflicts: set<string>, free: nat)
    requires SchemaOk(s) && t in s && HasFields(s[t])
    requires FieldsSoFar(s, t, parts, |s[t].fields|, depth, conflicts, free)
    ensures var all := if s[t].InterfaceType? || parts == [] then parts + [TypeName] else parts;
            all == Selected(s, t, depth, conflicts, free) && Promised(s, t, all, depth, free) && Count(all) == Count(parts)
  {
    assert s[t].fields[..|s[t].fields|] == s[t].fields;
    CountMore(parts, TypeName);
    AllOkMore(s, t, parts, TypeName);
  }

  /** What the loop over a union's members has put together of the first `n`. */
  ghost predicate FragmentsSoFar(s: Schema, t: string, parts: seq<Part>, n: nat, depth: nat, clashing: set<string>, free: nat)
    requires SchemaOk(s) && t in s && s[t].UnionType? && n <= |s[t].members|
  {
    && parts != [] && AllOk(s, t, parts) && Nesting(parts) <= Bound(depth, free)
    && parts == [TypeName] + MemberParts(s, s[t].members[..n], depth, clashing, free)
  }

  lemma FragmentsBegin(s: Schema, t: string, depth: nat, free: nat)
    requires SchemaOk(s) && t in s && s[t].UnionType?
    ensures forall clashing :: FragmentsSoFar(s, t, [TypeName], 0, depth, clashing, free)
    ensures Count([TypeName]) == 0
  {
    CountMore([], TypeName);
    assert [] + [TypeName] == [TypeName];
  }

  lemma TakesMember(
      s: Schema, t: string, parts: seq<Part>, n: nat, depth: nat, clashing: set<string>, free: nat, sub: seq<Part>)
    requires SchemaOk(s) && t in s && s[t].UnionType? && n < |s[t].members|
    requires FragmentsSoFar(s, t, parts, n, depth, clashing, free)
    requires var m := s[t].members[n];
             sub != [] && Promised(s, m, sub, depth, free) && sub == Selected(s, m, depth, clashing, free)
    ensures var p := On(s[t].members[n], sub);
            FragmentsSoFar(s, t, parts + [p], n + 1, depth, clashing, free) && Count(parts + [p]) == Count(parts) + Count(sub)
  {
    var (first, p) := (s[t].members[..n + 1], On(s[t].members[n], sub));
    assert first[..n] == s[t].members[..n] && first[n] == s[t].members[n];
    assert MemberParts(s, first, depth, clashing, free) == MemberParts(s, s[t].members[..n], depth, clashing, free) + [p];
    CountMore(parts, p);
    AllOkMore(s, t, parts, p);
  }

  lemma SameNames(s: Schema, members: seq<string>, clashing: set<string>)
    requires forall name :: name in clashing <==> Clashes(s, members, name)
    ensures clashing == ClashingNames(s, members)
  {
    forall name | Clashes(s, members, name)
      ensures name in ClashingNames(s, members)
    {
      var a, b :| a != b && Declares(s, members, name, a) && Declares(s, members, name, b);
      var m, f :| m in members && m in s && HasFields(s[m]) && f in s[m].fields && f.name == name && f.typeText == a;
    }
  }

  ghost predicate AllOk(s: Schema, t: string, parts: seq<Part>) {
    forall q :: q in parts ==> PartOk(s, t, q)
  }

  lemma FieldIsOk(s: Schema, t: string, f: FieldDef, alias: Option<string>, inner: seq<Part>)
    requires t in s && HasFields(s[t]) && f in s[t].fields && !Skipped(f) && SelectionOk(s, f.typ, inner)
    ensures PartOk(s, t, Field(f.name, alias, inner))
  {
    assert FieldOk(s, f, inner);
  }

  // ---------------------------------------------------------------- clashing members

  /** Some of the first `n` fields has that name and that type. */
  ghost predicate Among(fields: seq<FieldDef>, n: nat, name: string, text: string) {
    exists k :: 0 <= k < n && k < |fields| && IsOf(fields[k], name, text)
  }

  predicate IsOf(f: FieldDef, name: string, text: string) {
    f.name == name && f.typeText == text
  }

  /** The first `n` fields of member `i`, and all of those before it. */
  ghost predicate Seen(s: Schema, members: seq<string>, i: nat, n: nat, name: string, text: string)
    requires i < |members| && members[i] in s && HasFields(s[members[i]])
  {
    Declares(s, members[..i], name, text) || Among(s[members[i]].fields, n, name, text)
  }

  predicate Noted(seen: map<string, set<string>>, name: string, text: string) {
    name in seen && text in seen[name]
  }

  function Note(seen: map<string, set<string>>, f: FieldDef): map<string, set<string>> {
    seen[f.name := (if f.name in seen then seen[f.name] else {}) + {f.typeText}]
  }

  lemma AmongMore(fields: seq<FieldDef>, k: nat, name: string, text: string)
    requires k < |fields|
    ensures Among(fields, k + 1, name, text) <==> Among(fields, k, name, text) || IsOf(fields[k], name, text)
  {
    if Among(fields, k + 1, name, text) {
      var j :| 0 <= j < k + 1 && j < |fields| && IsOf(fields[j], name, text);
      assert j < k ==> Among(fields, k, name, text);
    }
  }

  /** Everything noted is what has been seen, and all of it. */
  ghost predicate AllNoted(s: Schema, members: seq<string>, i: nat, n: nat, seen: map<string, set<string>>)
    requires i < |members| && members[i] in s && HasFields(s[members[i]])
  {
    forall name, text :: Noted(seen, name, text) <==> Seen(s, members, i, n, name, text)
  }

  lemma NoteKeeps(s: Schema, members: seq<string>, i: nat, k: nat, seen: map<string, set<string>>)
    requires i < |members| && members[i] in s && HasFields(s[members[i]]) && k < |s[members[i]].fields|
    requires AllNoted(s, members, i, k, seen)
    ensures AllNoted(s, members, i, k + 1, Note(seen, s[members[i]].fields[k]))
  {
    var f := s[members[i]].fields[k];
    forall name, text
      ensures Noted(Note(seen, f), name, text) <==> Seen(s, members, i, k + 1, name, text)
    {
      AmongMore(s[members[i]].fields, k, name, text);
      assert Noted(Note(seen, f), name, text) <==> Noted(seen, name, text) || IsOf(f, name, text);
    }
  }

  lemma AmongAll(fields: seq<FieldDef>, name: string, text: string)
    ensures Among(fields, |fields|, name, text) <==> exists f :: f in fields && IsOf(f, name, text)
  {
    if f :| f in fields && IsOf(f, name, text) {
      var k :| 0 <= k < |fields| && fields[k] == f;
    }
  }

  lemma DeclaresMore(s: Schema, before: seq<string>, m: string, name: string, text: string)
    requires m in s && HasFields(s[m])
    ensures Declares(s, before + [m], name, text) <==>
            Declares(s, before, name, text) || exists f :: f in s[m].fields && IsOf(f, name, text)
  {
    if Declares(s, before + [m], name, text) {
      var c, f :| c in before + [m] && c in s && HasFields(s[c]) && f in s[c].fields && f.name == name && f.typeText == text;
      assert IsOf(f, name, text);
      assert c in before ==> Declares(s, before, name, text);
    }
    if Declares(s, before, name, text) {
      var c, f :| c in before && c in s && HasFields(s[c]) && f in s[c].fields && f.name == name && f.typeText == text;
      assert c in before + [m];
    }
    if f :| f in s[m].fields && IsOf(f, name, text) {
      assert m in before + [m];
    }
  }

  /** What the first members declare is noted. */
  ghost predicate MembersNoted(s: Schema, members: seq<string>, seen: map<string, set<string>>) {
    forall name, text :: Noted(seen, name, text) <==> Declares(s, members, name, text)
  }

  lemma MemberBegins(s: Schema, members: seq<string>, i: nat, seen: map<string, set<string>>)
    requires i < |members| && members[i] in s && HasFields(s[members[i]]) && MembersNoted(s, members[..i], seen)
    ensures AllNoted(s, members, i, 0, seen)
  {
    forall name, text
      ensures Noted(seen, name, text) <==> Seen(s, members, i, 0, name, text)
    {
      assert Noted(seen, name, text) <==> Declares(s, members[..i], name, text);
    }
  }

  lemma MemberEnds(s: Schema, members: seq<string>, i: nat, seen: map<string, set<string>>)
    requires i < |members| && members[i] in s && HasFields(s[members[i]])
    requires AllNoted(s, members, i, |s[members[i]].fields|, seen)
    ensures MembersNoted(s, members[..i + 1], seen)
  {
    assert members[..i + 1] == members[..i] + [members[i]];
    forall name, text
      ensures Noted(seen, name, text) <==> Declares(s, members[..i + 1], name, text)
    {
      AmongAll(s[members[i]].fields, name, text);
      DeclaresMore(s, members[..i], members[i], name, text);
      assert Noted(seen, name, text) <==> Seen(s, members, i, |s[members[i]].fields|, name, text);
    }
  }

  lemma MoreThanOne<T>(texts: set<T>)
    ensures |texts| > 1 <==> exists a, b :: a in texts && b in texts && a != b
  {
    if |texts| > 1 {
      var a :| a in texts;
      assert |texts - {a}| > 0;
      var b :| b in texts - {a};
    } else if |texts| == 1 {
      var a :| a in texts;
      assert |texts - {a}| == 0;
    }
  }

  /** A name clashes exactly when two types are noted for it. */
  lemma TwoNotedClash(s: Schema, members: seq<string>, seen: map<string, set<string>>, name: string)
    requires MembersNoted(s, members, seen)
    ensures Clashes(s, members, name) <==> name in seen && |seen[name]| > 1
  {
    if name in seen {
      MoreThanOne(seen[name]);
      if a, b :| a in seen[name] && b in seen[name] && a != b {
        assert Noted(seen, name, a) && Noted(seen, name, b);
      }
    }
    if Clashes(s, members, name) {
      var a, b :| a != b && Declares(s, members, name, a) && Declares(s, members, name, b);
      assert Noted(seen, name, a) && Noted(seen, name, b);
    }
  }

  /** `_union_conflicts`. */
  method UnionConflicts(s: Schema, members: seq<string>) returns (names: set<string>)
    requires forall m :: m in members ==> m in s && HasFields(s[m])
    ensures forall name :: name in names <==> Clashes(s, members, name)
  {
    var seen: map<string, set<string>> := map[];
    for i := 0 to |members|
      invariant MembersNoted(s, members[..i], seen)
    {
      MemberBegins(s, members, i, seen);
      var fields := s[members[i]].fields;
      for k := 0 to |fields|
        invariant AllNoted(s, members, i, k, seen)
      {
        NoteKeeps(s, members, i, k, seen);
        seen := Note(seen, fields[k]);
      }
      MemberEnds(s, members, i, seen);
    }
    assert members[..|members|] == members;
    names := set name | name in seen && |seen[name]| > 1;
    forall name
      ensures name in names <==> Clashes(s, members, name)
    {
      TwoNotedClash(s, members, seen, name);
    }
  }

  // ---------------------------------------------------------------- nothing askable is left out

  /** On an object or interface every field that can be asked for is selected, with everything
      below it, and nothing else is. */
  lemma ExactlyTheAskableFields(s: Schema, t: string, depth: nat, conflicts: set<string>, free: nat, p: Part)
    requires SchemaOk(s) && t in s && HasFields(s[t]) && p.Field?
    ensures p in Selected(s, t, depth, conflicts, free) <==>
            exists f :: f in s[t].fields && Askable(s, t, f, depth, free) &&
                        p == FieldPart(s, t, f, depth, conflicts, free)
  {
    PickedFields(s, t, s[t].fields, depth, conflicts, free, p);
  }

  lemma {:induction false} PickedFields(
      s: Schema, t: string, fields: seq<FieldDef>, depth: nat, conflicts: set<string>, free: nat, p: Part)
    requires SchemaOk(s)
    ensures p in FieldParts(s, t, fields, depth, conflicts, free) <==>
            exists f :: f in fields && Askable(s, t, f, depth, free) && p == FieldPart(s, t, f, depth, conflicts, free)
  {
    if fields != [] {
      var (before, last) := (fields[..|fields| - 1], fields[|fields| - 1]);
      assert fields == before + [last];
      PickedFields(s, t, before, depth, conflicts, free, p);
    }
  }

  /** On a union every member has its fragment. */
  lemma {:induction false} EveryMemberHasItsFragment(
      s: Schema, members: seq<string>, depth: nat, conflicts: set<string>, free: nat, i: nat)
    requires SchemaOk(s) && forall m :: m in members ==> m in s && s[m].ObjectType?
    requires i < |members|
    ensures |MemberParts(s, members, depth, conflicts, free)| == |members|
    ensures MemberParts(s, members, depth, conflicts, free)[i] ==
            On(members[i], Selected(s, members[i], depth, conflicts, free))
  {
    var before := members[..|members| - 1];
    if before != [] {
      EveryMemberHasItsFragment(s, before, depth, conflicts, free, if i < |before| then i else 0);
    }
  }

  lemma {:induction false} IsAFragment(
      s: Schema, members: seq<string>, depth: nat, conflicts: set<string>, free: nat, p: Part)
    requires SchemaOk(s) && forall m :: m in members ==> m in s && s[m].ObjectType?
    requires p in MemberParts(s, members, depth, conflicts, free)
    ensures p.On? && p.member in members && p.parts == Selected(s, p.member, depth, conflicts, free)
  {
    var i :| 0 <= i < |MemberParts(s, members, depth, conflicts, free)| && MemberParts(s, members, depth, conflicts, free)[i] == p;
    MemberCount(s, members, depth, conflicts, free);
    EveryMemberHasItsFragment(s, members, depth, conflicts, free, i);
  }

  lemma MemberCount(s: Schema, members: seq<string>, depth: nat, conflicts: set<string>, free: nat)
    requires SchemaOk(s) && forall m :: m in members ==> m in s && s[m].ObjectType?
    ensures |MemberParts(s, members, depth, conflicts, free)| == |members|
  {
    if members != [] {
      EveryMemberHasItsFragment(s, members, depth, conflicts, free, 0);
    }
  }

  // ---------------------------------------------------------------- one response name, one type

  /** A type names each of its fields once. */
  ghost predicate NamedOnce(s: Schema) {
    forall t, x, y :: t in s && HasFields(s[t]) && x in s[t].fields && y in s[t].fields && x.name == y.name ==> x == y
  }

  function ResponseName(p: Part): string
    requires p.Field?
  {
    if p.alias.Some? then p.alias.value else p.name
  }

  /** What a field of member `m` is called in the response. */
  function NamedFor(x: FieldDef, m: string, clashing: set<string>): string {
    if x.name in clashing then x.name + "_" + m else x.name
  }

  /** Fields of different types, or different fields of one type, can't share a response name. */
  predicate MustDiffer(x: FieldDef, m: string, y: FieldDef, k: string) {
    x.typeText != y.typeText || (m == k && x.name != y.name)
  }

  /** Two aliases meet: one field's name is the other's with the start of a member's name on it. */
  ghost predicate AliasesMeet(x: FieldDef, m: string, y: FieldDef, k: string, clashing: set<string>) {
    && x.name in clashing && y.name in clashing
    && exists w ::
         || (y.name == x.name + "_" + w && m == w + "_" + k)
         || (x.name == y.name + "_" + w && k == w + "_" + m)
  }

  /** An alias meets a field that keeps its own name. */
  predicate AliasMeetsName(x: FieldDef, m: string, y: FieldDef, clashing: set<string>) {
    x.name in clashing && y.name !in clashing && y.name == x.name + "_" + m
  }

  ghost predicate NamesCollide(x: FieldDef, m: string, y: FieldDef, k: string, clashing: set<string>) {
    || AliasesMeet(x, m, y, k, clashing)
    || AliasMeetsName(x, m, y, clashing)
    || AliasMeetsName(y, k, x, clashing)
  }

  lemma SplitsDiffer(x: string, m: string, y: string, k: string)
    requires x + "_" + m == y + "_" + k && (x != y || m != k)
    ensures exists w :: (y == x + "_" + w && m == w + "_" + k) || (x == y + "_" + w && k == w + "_" + m)
  {
    var whole := x + "_" + m;
    assert whole[..|x|] == x && whole[|x| + 1..] == m;
    assert whole[..|y|] == y && whole[|y| + 1..] == k by {
      assert whole == y + "_" + k;
    }
    assert |x| != |y|;
    if |x| < |y| {
      LongerName(x, m, y, k);
    } else {
      LongerName(y, k, x, m);
    }
  }

  lemma LongerName(x: string, m: string, y: string, k: string)
    requires x + "_" + m == y + "_" + k && |x| < |y|
    ensures exists w :: y == x + "_" + w && m == w + "_" + k
  {
    var whole := x + "_" + m;
    var w := y[|x| + 1..];
    assert whole[..|y|] == y && whole[..|x|] == x && whole[|x|] == '_';
    assert y == x + "_" + w;
    assert m == whole[|x| + 1..] == w + "_" + k;
  }

  lemma SplitAgain(x: string, w: string, k: string)
    ensures x + "_" + (w + "_" + k) == (x + "_" + w) + "_" + k
  {
  }

  /** Of two different fields that must differ. */
  lemma SameNameIff(x: FieldDef, m: string, y: FieldDef, k: string, clashing: set<string>)
    requires x.name != y.name || m != k
    requires x.name == y.name && x.name !in clashing ==> !MustDiffer(x, m, y, k)
    ensures NamedFor(x, m, clashing) == NamedFor(y, k, clashing) && MustDiffer(x, m, y, k) <==>
            NamesCollide(x, m, y, k, clashing) && MustDiffer(x, m, y, k)
  {
    if x.name in clashing && y.name in clashing {
      if NamedFor(x, m, clashing) == NamedFor(y, k, clashing) {
        SplitsDiffer(x.name, m, y.name, k);
      }
      forall w | y.name == x.name + "_" + w && m == w + "_" + k
        ensures NamedFor(x, m, clashing) == NamedFor(y, k, clashing)
      {
        SplitAgain(x.name, w, k);
      }
      forall w | x.name == y.name + "_" + w && k == w + "_" + m
        ensures NamedFor(x, m, clashing) == NamedFor(y, k, clashing)
      {
        SplitAgain(y.name, w, m);
      }
    }
  }

  /** Field `x` of member `m`, as part `f` of fragment `a` of the union's selection. */
  ghost predicate Selects(s: Schema, t: string, depth: nat, free: nat, a: Part, f: Part, m: string, x: FieldDef)
    requires SchemaOk(s) && t in s
  {
    && a in Selected(s, t, depth, {}, free) && a.On? && a.member == m && f in a.parts && f.Field?
    && m in s && HasFields(s[m]) && x in s[m].fields && x.name == f.name
  }

  lemma SelectedUnderItsName(s: Schema, t: string, depth: nat, free: nat, a: Part, f: Part, m: string, x: FieldDef)
    requires SchemaOk(s) && t in s && s[t].UnionType? && Selects(s, t, depth, free, a, f, m, x)
    ensures m in s[t].members && ResponseName(f) == NamedFor(x, m, ClashingNames(s, s[t].members))
  {
    var names := ClashingNames(s, s[t].members);
    IsAFragment(s, s[t].members, depth, names, free, a);
    ExactlyTheAskableFields(s, m, depth, names, free, f);
  }

  /** Fields that keep their own name under one name are of one type. */
  lemma PlainFieldsAgree(s: Schema, members: seq<string>, x: FieldDef, m: string, y: FieldDef, k: string)
    requires m in members && m in s && HasFields(s[m]) && x in s[m].fields
    requires k in members && k in s && HasFields(s[k]) && y in s[k].fields
    requires x.name == y.name && x.name !in ClashingNames(s, members)
    ensures x.typeText == y.typeText
  {
    assert Declares(s, members, x.name, x.typeText) && Declares(s, members, x.name, y.typeText);
    assert x.typeText != y.typeText ==> Clashes(s, members, x.name);
  }

  /** Two fields of a union's selection that must differ share a response name exactly when their
      names collide: two aliases, or an alias and a name kept. */
  lemma ConflictIff(
      s: Schema, t: string, depth: nat, free: nat, a: Part, f: Part, m: string, x: FieldDef, b: Part, g: Part, k: string, y: FieldDef)
    requires SchemaOk(s) && NamedOnce(s) && t in s && s[t].UnionType?
    requires Selects(s, t, depth, free, a, f, m, x) && Selects(s, t, depth, free, b, g, k, y)
    ensures ResponseName(f) == ResponseName(g) && MustDiffer(x, m, y, k) <==>
            NamesCollide(x, m, y, k, ClashingNames(s, s[t].members)) && MustDiffer(x, m, y, k)
  {
    var members := s[t].members;
    SelectedUnderItsName(s, t, depth, free, a, f, m, x);
    SelectedUnderItsName(s, t, depth, free, b, g, k, y);
    if x.name == y.name && x.name !in ClashingNames(s, members) {
      PlainFieldsAgree(s, members, x, m, y, k);
    }
    if MustDiffer(x, m, y, k) {
      assert x.name != y.name || m != k;
      SameNameIff(x, m, y, k, ClashingNames(s, members));
    }
  }

  // ---------------------------------------------------------------- schemas where they do

  function LeafField(name: string, typ: string): FieldDef {
    FieldDef(name, false, false, typ, typ)
  }

  /** A union `U` of two object types. */
  ghost predicate UnionOfTwo(s: Schema, m: string, k: string, of: seq<FieldDef>, others: seq<FieldDef>) {
    && s.Keys == {"U", m, k, "Int", "String"} && m !in {"U", "Int", "String", k} && k !in {"U", "Int", "String"}
    && s["U"] == UnionType([m, k]) && s[m] == ObjectType(of) && s[k] == ObjectType(others)
    && s["Int"] == LeafType && s["String"] == LeafType
    && (forall x :: x in of || x in others ==> x == LeafField(x.name, x.typ) && x.typ in {"Int", "String"} && !Skipped(x))
  }

  lemma UnionOfTwoIsOk(s: Schema, m: string, k: string, of: seq<FieldDef>, others: seq<FieldDef>)
    requires UnionOfTwo(s, m, k, of, others)
    ensures SchemaOk(s)
  {
  }

  /** Every field of a member is selected. */
  lemma LeafIsSelected(
      s: Schema, m: string, k: string, of: seq<FieldDef>, others: seq<FieldDef>, depth: nat, free: nat, i: nat, x: FieldDef)
      returns (a: Part, f: Part)
    requires UnionOfTwo(s, m, k, of, others) && SchemaOk(s) && i < 2
    requires x in if i == 0 then of else others
    ensures Selects(s, "U", depth, free, a, f, if i == 0 then m else k, x)
  {
    var (members, names, c) := ([m, k], ClashingNames(s, [m, k]), if i == 0 then m else k);
    assert members[i] == c;
    EveryMemberHasItsFragment(s, members, depth, names, free, i);
    a := MemberParts(s, members, depth, names, free)[i];
    assert a in MemberParts(s, members, depth, names, free);
    f := FieldPart(s, c, x, depth, names, free);
    ExactlyTheAskableFields(s, c, depth, names, free, f);
  }

  /** Two fields that must differ share a response name. */
  ghost predicate Conflicts(s: Schema, t: string, depth: nat, free: nat, a: Part, f: Part, m: string, x: FieldDef, b: Part, g: Part, k: string, y: FieldDef)
    requires SchemaOk(s) && t in s
  {
    && Selects(s, t, depth, free, a, f, m, x) && Selects(s, t, depth, free, b, g, k, y)
    && ResponseName(f) == ResponseName(g) && MustDiffer(x, m, y, k)
  }

  /** `type B {a: Int}` and `type C {a: String, a_B: String}`: the alias of `B`'s `a` is `a_B`.
      Here `n` is `a`, `m` is `B` and `k` is `C`. */
  lemma AliasMeetsANameThere(s: Schema, n: string, m: string, k: string, depth: nat, free: nat)
      returns (a: Part, f: Part, b: Part, g: Part)
    requires UnionOfTwo(s, m, k, [LeafField(n, "Int")], [LeafField(n, "String"), LeafField(n + "_" + m, "String")])
    ensures SchemaOk(s)
    ensures Conflicts(s, "U", depth, free, a, f, m, LeafField(n, "Int"), b, g, k, LeafField(n + "_" + m, "String"))
  {
    var (x, z, y) := (LeafField(n, "Int"), LeafField(n, "String"), LeafField(n + "_" + m, "String"));
    var (of, others) := ([x], [z, y]);
    UnionOfTwoIsOk(s, m, k, of, others);
    assert x in of && z in others && y in others;
    a, f := LeafIsSelected(s, m, k, of, others, depth, free, 0, x);
    b, g := LeafIsSelected(s, m, k, of, others, depth, free, 1, y);
    SelectedUnderItsName(s, "U", depth, free, a, f, m, x);
    SelectedUnderItsName(s, "U", depth, free, b, g, k, y);
    assert m in [m, k] && k in [m, k];
    Clash(s, [m, k], m, x, k, z);
    assert |y.name| > |n|;
    NoClash(s, m, k, of, others, y.name, "String");
  }

  lemma Clash(s: Schema, members: seq<string>, m: string, x: FieldDef, k: string, z: FieldDef)
    requires m in members && m in s && HasFields(s[m]) && x in s[m].fields
    requires k in members && k in s && HasFields(s[k]) && z in s[k].fields
    requires x.name == z.name && x.typeText != z.typeText
    ensures x.name in ClashingNames(s, members)
  {
    assert Declares(s, members, x.name, x.typeText) && Declares(s, members, x.name, z.typeText);
  }

  lemma BothClash(
      s: Schema, m: string, k: string, of: seq<FieldDef>, others: seq<FieldDef>, x: FieldDef, x': FieldDef, y: FieldDef, y': FieldDef)
    requires UnionOfTwo(s, m, k, of, others) && x in of && x' in of && y in others && y' in others
    requires x.name == y.name && x.typeText != y.typeText && x'.name == y'.name && x'.typeText != y'.typeText
    ensures x.name in ClashingNames(s, [m, k]) && x'.name in ClashingNames(s, [m, k])
  {
    assert m in [m, k] && k in [m, k];
    Clash(s, [m, k], m, x, k, y);
    Clash(s, [m, k], m, x', k, y');
  }

  lemma NoClash(s: Schema, m: string, k: string, of: seq<FieldDef>, others: seq<FieldDef>, name: string, text: string)
    requires UnionOfTwo(s, m, k, of, others)
    requires forall x :: (x in of || x in others) && x.name == name ==> x.typeText == text
    ensures name !in ClashingNames(s, [m, k])
  {
    assert forall other :: Declares(s, [m, k], name, other) ==> other == text;
  }

  /** `type C {a: Int, a_B: Int}` and `type B_C {a: String, a_B: String}`: `C`'s `a_B` and `B_C`'s
      `a` are both `a_B_C`. Here `n` is `a`, `w` is `B` and `m` is `C`. */
  lemma AliasesMeetThere(s: Schema, n: string, w: string, m: string, depth: nat, free: nat)
      returns (a: Part, f: Part, b: Part, g: Part)
    requires UnionOfTwo(s, m, w + "_" + m, [LeafField(n, "Int"), LeafField(n + "_" + w, "Int")],
                        [LeafField(n, "String"), LeafField(n + "_" + w, "String")])
    ensures SchemaOk(s)
    ensures Conflicts(s, "U", depth, free, a, f, m, LeafField(n + "_" + w, "Int"), b, g, w + "_" + m, LeafField(n, "String"))
  {
    var (k, n') := (w + "_" + m, n + "_" + w);
    var (x, x', y, y') := (LeafField(n, "Int"), LeafField(n', "Int"), LeafField(n, "String"), LeafField(n', "String"));
    var (of, others) := ([x, x'], [y, y']);
    UnionOfTwoIsOk(s, m, k, of, others);
    assert x in of && x' in of && y in others && y' in others;
    a, f := LeafIsSelected(s, m, k, of, others, depth, free, 0, x');
    b, g := LeafIsSelected(s, m, k, of, others, depth, free, 1, y);
    SelectedUnderItsName(s, "U", depth, free, a, f, m, x');
    SelectedUnderItsName(s, "U", depth, free, b, g, k, y);
    BothClash(s, m, k, of, others, x, x', y, y');
    SplitAgain(n, w, m);
  }

  // ---------------------------------------------------------------- which one is tried

  /** The selections tried from the deepest down to `depth`. */
  ghost function TriedFrom(s: Schema, t: string, depth: nat): seq<seq<Part>>
    requires SchemaOk(s) && t in s && depth > 0
    decreases SELECTION_DEPTH - depth
  {
    if depth > SELECTION_DEPTH then []
    else
      var parts := Selected(s, t, depth, {}, FREE_HOPS);
      TriedFrom(s, t, depth + 1) + if Count(parts) <= MAX_SELECTION_FIELDS || depth == 1 then [parts] else []
  }

  lemma TwoAreTried(s: Schema, t: string)
    requires SchemaOk(s) && t in s
    ensures
      var (deep, shallow) := (Selected(s, t, SELECTION_DEPTH, {}, FREE_HOPS), Selected(s, t, 1, {}, FREE_HOPS));
      TriedFrom(s, t, 1) == (if Count(deep) <= MAX_SELECTION_FIELDS then [deep] else []) + [shallow]
  {
    assert TriedFrom(s, t, 3) == [];
    assert TriedFrom(s, t, 1) == TriedFrom(s, t, 2) + [Selected(s, t, 1, {}, FREE_HOPS)];
  }

  /** `_candidate_selections`: every candidate is one the type allows, and none but the
      shallowest is larger than the limit. */
  method CandidateSelections(s: Schema, t: string) returns (candidates: seq<seq<Part>>)
    requires SchemaOk(s) && t in s
    ensures candidates != [] && forall c :: c in candidates ==> SelectionOk(s, t, c)
    ensures
      var (deep, shallow) := (Selected(s, t, SELECTION_DEPTH, {}, FREE_HOPS), Selected(s, t, 1, {}, FREE_HOPS));
      candidates == (if Count(deep) <= MAX_SELECTION_FIELDS then [deep] else []) + [shallow] +
                    [if s[t].LeafType? then [] else [TypeName]]
    ensures forall c :: c in candidates ==>
              Nesting(c) <= SELECTION_DEPTH * (FREE_HOPS + 1) &&
              (Count(c) <= MAX_SELECTION_FIELDS || Nesting(c) <= FREE_HOPS + 1)
  {
    candidates := [];
    var selection: seq<Part> := [];
    var depth := SELECTION_DEPTH;
    while depth > 0
      invariant 0 <= depth <= SELECTION_DEPTH
      invariant depth < SELECTION_DEPTH ==> SelectionOk(s, t, selection)
      invariant candidates == TriedFrom(s, t, depth + 1)
      invariant forall c :: c in candidates ==>
                  SelectionOk(s, t, c) && Nesting(c) <= SELECTION_DEPTH * (FREE_HOPS + 1) &&
                  (Count(c) <= MAX_SELECTION_FIELDS || Nesting(c) <= FREE_HOPS + 1)
    {
      var generator := new Generator(s);
      selection := generator.SelectionFor(t, depth, {}, FREE_HOPS);
      if generator.counter <= MAX_SELECTION_FIELDS || depth == 1 {
        candidates := candidates + [selection];
      }
      depth := depth - 1;
    }
    TwoAreTried(s, t);
    CountMore([], TypeName);
    assert [] + [TypeName] == [TypeName];
    candidates := candidates + [if selection != [] then [TypeName] else []];
  }
}
