/**
 What a generated selection holds (`selection_for`, backend/app/bridge/graphql.py), field by field and
 member by member, told without the functions that put it together.
 */
module SelectionOutline {
  import opened Basics
  import opened Selection

  // ---------------------------------------------------------------- one field

  predicate StartsWith(s: string, head: string) {
    head <= s
  }

  ghost predicate NamedLike(t: string, tail: string) {
    exists head: string :: t == head + tail
  }

  /** A hop of a connection that only leads to its data. */
  ghost predicate LeadsToData(t: string, name: string) {
    (NamedLike(t, "Connection") && (name == "edges" || name == "nodes")) || (NamedLike(t, "Edge") && name == "node")
  }

  lemma EndingsAreTails(t: string, tail: string)
    ensures EndsWith(t, tail) <==> NamedLike(t, tail)
  {
    if EndsWith(t, tail) {
      assert t == t[..|t| - |tail|] + tail;
    }
    if head: string :| t == head + tail {
      assert t[|t| - |tail|..] == tail;
    }
  }

  /** The client can ask for the field, without an argument to make up. */
  predicate CanAsk(f: FieldDef) {
    !StartsWith(f.name, "__") && !f.deprecated && !f.requiresArgument
  }

  /** The part of a selection on `t` that asks for `f`: a leaf as it is, anything else with its own
      selection, one level deeper, or on the same level while hops to a connection's data are free. */
  ghost predicate AsksFor(
      s: Schema, t: string, f: FieldDef, depth: nat, conflicts: set<string>, free: nat, p: Part)
    requires SchemaOk(s)
  {
    && CanAsk(f) && f.typ in s && p.Field? && p.name == f.name
    && p.alias == (if f.name in conflicts then Some(f.name + "_" + t) else None)
    && if s[f.typ].LeafType? then p.parts == []
       else if free > 0 && LeadsToData(t, f.name) then depth > 0 && p.parts == Selected(s, f.typ, depth, {}, free - 1)
       else depth > 1 && p.parts == Selected(s, f.typ, depth - 1, {}, 2)
  }

  lemma PartAsks(s: Schema, t: string, f: FieldDef, depth: nat, conflicts: set<string>, free: nat, p: Part)
    requires SchemaOk(s)
    ensures AsksFor(s, t, f, depth, conflicts, free, p) <==>
            Askable(s, t, f, depth, free) && p == FieldPart(s, t, f, depth, conflicts, free)
  {
    EndingsAreTails(t, "Connection");
    EndingsAreTails(t, "Edge");
    assert StartsWith(f.name, "__") <==> |f.name| >= 2 && f.name[..2] == "__";
  }

  // ---------------------------------------------------------------- the fields in order

  /** The places below `n` of the fields that are asked for, in order, with their parts. */
  ghost predicate Asks(
      s: Schema, t: string, fields: seq<FieldDef>, n: nat, depth: nat, conflicts: set<string>, free: nat,
      from: seq<nat>, parts: seq<Part>)
    requires SchemaOk(s) && n <= |fields|
  {
    && |from| == |parts| && (forall j, k :: 0 <= j < k < |from| ==> from[j] < from[k])
    && (forall k :: 0 <= k < |from| ==> from[k] < n && AsksFor(s, t, fields[from[k]], depth, conflicts, free, parts[k]))
    && (forall i :: 0 <= i < n && i !in from ==> forall p :: !AsksFor(s, t, fields[i], depth, conflicts, free, p))
  }

  lemma FieldIsLeftOut(
      s: Schema, t: string, fields: seq<FieldDef>, n: nat, depth: nat, conflicts: set<string>, free: nat,
      from: seq<nat>, parts: seq<Part>)
    requires SchemaOk(s) && n < |fields| && Asks(s, t, fields, n, depth, conflicts, free, from, parts)
    requires forall p :: !AsksFor(s, t, fields[n], depth, conflicts, free, p)
    ensures Asks(s, t, fields, n + 1, depth, conflicts, free, from, parts)
  {
  }

  lemma FieldIsAsked(
      s: Schema, t: string, fields: seq<FieldDef>, n: nat, depth: nat, conflicts: set<string>, free: nat,
      from: seq<nat>, parts: seq<Part>, p: Part)
    requires SchemaOk(s) && n < |fields| && Asks(s, t, fields, n, depth, conflicts, free, from, parts)
    requires AsksFor(s, t, fields[n], depth, conflicts, free, p)
    ensures Asks(s, t, fields, n + 1, depth, conflicts, free, from + [n], parts + [p])
  {
    assert forall i :: i in from + [n] <==> i in from || i == n;
  }

  lemma {:induction false} FieldsAsked(s: Schema, t: string, n: nat, depth: nat, conflicts: set<string>, free: nat)
      returns (from: seq<nat>)
    requires SchemaOk(s) && t in s && HasFields(s[t]) && n <= |s[t].fields|
    ensures Asks(s, t, s[t].fields, n, depth, conflicts, free, from,
                 FieldParts(s, t, s[t].fields[..n], depth, conflicts, free))
  {
    if n == 0 {
      from := [];
    } else {
      var before := FieldsAsked(s, t, n - 1, depth, conflicts, free);
      var f := s[t].fields[n - 1];
      var parts := FieldParts(s, t, s[t].fields[..n - 1], depth, conflicts, free);
      FieldPartsMore(s, t, n - 1, depth, conflicts, free);
      if Askable(s, t, f, depth, free) {
        var p := FieldPart(s, t, f, depth, conflicts, free);
        PartAsks(s, t, f, depth, conflicts, free, p);
        FieldIsAsked(s, t, s[t].fields, n - 1, depth, conflicts, free, before, parts, p);
        from := before + [n - 1];
      } else {
        forall p
          ensures !AsksFor(s, t, f, depth, conflicts, free, p)
        {
          PartAsks(s, t, f, depth, conflicts, free, p);
        }
        FieldIsLeftOut(s, t, s[t].fields, n - 1, depth, conflicts, free, before, parts);
        from := before;
        assert parts + [] == parts;
      }
    }
  }

  /** On an object or interface the selection is a part for each field that can be asked for, in the
      schema's order; and the type's name, on an interface and where there is nothing else. */
  lemma SelectionAsksInOrder(s: Schema, t: string, depth: nat, conflicts: set<string>, free: nat)
      returns (from: seq<nat>, parts: seq<Part>)
    requires SchemaOk(s) && t in s && HasFields(s[t])
    ensures Asks(s, t, s[t].fields, |s[t].fields|, depth, conflicts, free, from, parts)
    ensures Selected(s, t, depth, conflicts, free) ==
            parts + if s[t].InterfaceType? || parts == [] then [TypeName] else []
  {
    var fields := s[t].fields;
    from := FieldsAsked(s, t, |fields|, depth, conflicts, free);
    assert fields[..|fields|] == fields;
    parts := FieldParts(s, t, fields, depth, conflicts, free);
    assert parts + [] == parts;
  }

  // ---------------------------------------------------------------- leaves and unions

  predicate HasField(s: Schema, members: seq<string>, m: string, f: FieldDef) {
    m in members && m in s && HasFields(s[m]) && f in s[m].fields
  }

  /** Two members declare the field with different types. */
  ghost predicate DeclaredTwice(s: Schema, members: seq<string>, name: string) {
    exists m, k, f, g ::
      HasField(s, members, m, f) && HasField(s, members, k, g) && f.name == g.name == name && f.typeText != g.typeText
  }

  /** On a union: the type's name, and a fragment for each member, in order, in which the fields that
      members declare with different types have aliases. */
  lemma UnionSelectsEachMember(s: Schema, t: string, depth: nat, conflicts: set<string>, free: nat)
      returns (clashing: set<string>)
    requires SchemaOk(s) && t in s && s[t].UnionType?
    ensures forall name :: name in clashing <==> DeclaredTwice(s, s[t].members, name)
    ensures var (parts, members) := (Selected(s, t, depth, conflicts, free), s[t].members);
            && |parts| == |members| + 1 && parts[0] == TypeName
            && forall i :: 0 <= i < |members| ==> parts[i + 1] == On(members[i], Selected(s, members[i], depth, clashing, free))
  {
    var members := s[t].members;
    clashing := ClashingNames(s, members);
    forall name
      ensures name in clashing <==> DeclaredTwice(s, members, name)
    {
      NamesThatClash(s, members, name);
    }
    if members != [] {
      EveryMemberHasItsFragment(s, members, depth, clashing, free, 0);
    }
    forall i | 0 <= i < |members|
      ensures MemberParts(s, members, depth, clashing, free)[i] == On(members[i], Selected(s, members[i], depth, clashing, free))
    {
      EveryMemberHasItsFragment(s, members, depth, clashing, free, i);
    }
  }

  lemma NamesThatClash(s: Schema, members: seq<string>, name: string)
    ensures name in ClashingNames(s, members) <==> DeclaredTwice(s, members, name)
  {
    if name in ClashingNames(s, members) {
      var a, b :| a != b && Declares(s, members, name, a) && Declares(s, members, name, b);
      var m, f := WhoDeclares(s, members, name, a);
      var k, g := WhoDeclares(s, members, name, b);
    }
    if m, k, f, g :|
        HasField(s, members, m, f) && HasField(s, members, k, g) && f.name == g.name == name && f.typeText != g.typeText
    {
      DeclaredIsListed(s, members, m, f, k, g);
    }
  }

  lemma WhoDeclares(s: Schema, members: seq<string>, name: string, text: string) returns (m: string, f: FieldDef)
    requires Declares(s, members, name, text)
    ensures HasField(s, members, m, f) && f.name == name && f.typeText == text
  {
    m, f :| m in members && m in s && HasFields(s[m]) && f in s[m].fields && f.name == name && f.typeText == text;
  }

  lemma DeclaredIsListed(s: Schema, members: seq<string>, m: string, f: FieldDef, k: string, g: FieldDef)
    requires HasField(s, members, m, f) && HasField(s, members, k, g) && f.name == g.name && f.typeText != g.typeText
    ensures f.name in ClashingNames(s, members)
  {
    assert Declares(s, members, f.name, f.typeText) && Declares(s, members, f.name, g.typeText);
  }

  lemma LeafSelectsNothing(s: Schema, t: string, depth: nat, conflicts: set<string>, free: nat)
    requires SchemaOk(s) && t in s
    ensures Selected(s, t, depth, conflicts, free) == [] <==> s[t].LeafType?
  {
  }
}
