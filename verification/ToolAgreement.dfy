/**
 Listing and resolving agree: what a bridge advertises is what it answers to, with the same
 upstream tool behind it, exactly when no rename's way back is shadowed by another rename.
 */
module ToolAgreement {
  import opened Basics
  import opened SchemaEvaluation
  import opened SchemaDialect
  import opened ToolPolicy

  predicate UniqueNames(tools: seq<Tool>) {
    forall i, j :: 0 <= i < j < |tools| ==> tools[i].name != tools[j].name
  }

  // ---------------------------------------------------------------- what a listed tool comes from

  /** The upstream tools behind the list, in its order. */
  function Sources(p: Policy, tools: seq<Tool>): (r: seq<Tool>)
    ensures forall t :: t in r <==> t in tools && !Hides(p, t.name)
    ensures UniqueNames(tools) ==> UniqueNames(r)
  {
    if tools == [] then []
    else (if Hides(p, tools[0].name) then [] else [tools[0]]) + Sources(p, tools[1..])
  }

  lemma FrontAdvertised(p: Policy, taken: set<string>, t: Tool, later: seq<Tool>, others: seq<Tool>)
    requires |later| == |others| && forall i :: 0 <= i < |later| ==> later[i] == Advertise(p, taken, others[i])
    ensures var (list, sources) := ([Advertise(p, taken, t)] + later, [t] + others);
            |list| == |sources| && forall i :: 0 <= i < |list| ==> list[i] == Advertise(p, taken, sources[i])
  {
  }

  lemma {:induction false} ListedFromSources(p: Policy, taken: set<string>, tools: seq<Tool>)
    ensures var list, sources := ListFrom(p, taken, tools), Sources(p, tools);
            |list| == |sources| && forall i :: 0 <= i < |list| ==> list[i] == Advertise(p, taken, sources[i])
  {
    if tools != [] {
      var (later, others) := (ListFrom(p, taken, tools[1..]), Sources(p, tools[1..]));
      ListedFromSources(p, taken, tools[1..]);
      FrontAdvertised(p, taken, tools[0], later, others);
      assert [] + later == later && [] + others == others;
    }
  }

  /** A rename applies when its target is nobody's: no live tool that isn't hidden has it. */
  predicate RenameApplies(p: Policy, tools: seq<Tool>, source: string) {
    RenamesTo(p, source).Some? && RenamesTo(p, source).value !in Taken(p, tools)
  }

  /** Every rename that applies is the one its target leads back to. */
  predicate NoRenameIsShadowed(p: Policy, tools: seq<Tool>)
    requires WellFormed(p)
  {
    forall t :: t in Sources(p, tools) && RenameApplies(p, tools, t.name) ==>
      var target := RenamesTo(p, t.name).value;
      target in NameReverse(p) && NameReverse(p)[target] == t.name
  }

  /** Distinct targets among the enabled renames are enough. */
  lemma DistinctTargetsShadowNothing(p: Policy, tools: seq<Tool>)
    requires WellFormed(p)
    requires forall a, b :: a in p.transforms && b in p.transforms && !Hides(p, a) && !Hides(p, b) ==>
               RenamesTo(p, a).Some? && RenamesTo(p, a) == RenamesTo(p, b) ==> a == b
    ensures NoRenameIsShadowed(p, tools)
  {
    forall t | t in Sources(p, tools) && RenameApplies(p, tools, t.name)
      ensures RenamesTo(p, t.name).value in NameReverse(p) && NameReverse(p)[RenamesTo(p, t.name).value] == t.name
    {
      InOrder(p, t.name);
      var target := RenamesTo(p, t.name).value;
      var back := NameReverse(p)[target];
      InOrder(p, back);
      assert RenamesTo(p, back) == RenamesTo(p, t.name);
    }
  }

  lemma InOrder(p: Policy, name: string)
    requires WellFormed(p)
    ensures name in p.order <==> name in p.transforms
  {
    assert name in p.order <==> name in (set i | 0 <= i < |p.order| :: p.order[i]);
  }

  lemma {:induction false} LookupByName(tools: seq<Tool>, t: Tool)
    requires UniqueNames(tools) && t in tools
    ensures CallNext(tools, t.name) == Some(t)
  {
    if tools[0] != t {
      LookupByName(tools[1..], t);
    }
  }

  // ---------------------------------------------------------------- the two answers

  /** How the answer for a name may differ from its entry in the list: an override that names a
      tool what it is already called stamps the identity only on the resolved copy. */
  function Resolved(p: Policy, source: Tool, listed: Tool): Tool {
    if source.name in p.transforms && p.transforms[source.name].name == Some(source.name) && source.name != ""
    then listed.(meta := listed.meta[UPSTREAM_META_KEY := Identity(source.name)])
    else listed
  }

  /** The answer for a listed tool's name is that tool. */
  predicate AnswersTo(p: Policy, tools: seq<Tool>, source: Tool)
    requires WellFormed(p)
  {
    var listed := Advertise(p, Taken(p, tools), source);
    GetTool(p, tools, listed.name) == Some(Resolved(p, source, listed))
  }

  lemma NativeAnswer(p: Policy, tools: seq<Tool>, t: Tool)
    requires WellFormed(p) && UniqueNames(tools) && t in tools && !Hides(p, t.name)
    ensures GetTool(p, tools, t.name) ==
            if RenameApplies(p, tools, t.name) then None
            else Some(Resolved(p, t, Advertise(p, Taken(p, tools), t)))
  {
    LookupByName(tools, t);
    var target := RenamesTo(p, t.name);
    if target.Some? {
      var other := CallNext(tools, target.value);
      if other.Some? && !Hides(p, target.value) {
        assert target.value in Taken(p, tools);
      }
      if target.value in Taken(p, tools) {
        var u :| u in tools && u.name == target.value && !Hides(p, u.name);
        LookupByName(tools, u);
      }
    }
  }

  lemma AdvertisedName(p: Policy, tools: seq<Tool>, t: Tool)
    ensures Advertise(p, Taken(p, tools), t).name ==
            if RenameApplies(p, tools, t.name) then RenamesTo(p, t.name).value else t.name
  {
  }

  /** A free name with a rename to it is answered by that rename's source, or by nobody. */
  lemma FreeNameAnswer(p: Policy, tools: seq<Tool>, name: string)
    requires WellFormed(p) && UniqueNames(tools) && name in NameReverse(p) && name !in Taken(p, tools)
    ensures var back := NameReverse(p)[name];
            back in p.transforms && back != name &&
            GetTool(p, tools, name) ==
            match CallNext(tools, back)
            case None => None
            case Some(source) => Some(Apply(Scrub(p, source), p.transforms[back], true))
  {
    InOrder(p, NameReverse(p)[name]);
    var direct := CallNext(tools, name);
    assert direct.Some? && !Hides(p, name) ==> name in Taken(p, tools);
  }

  lemma RenamedAnswer(p: Policy, tools: seq<Tool>, t: Tool)
    requires WellFormed(p) && UniqueNames(tools) && t in tools && !Hides(p, t.name)
    requires RenameApplies(p, tools, t.name)
    ensures var listed := Advertise(p, Taken(p, tools), t);
            listed.name == RenamesTo(p, t.name).value &&
            (GetTool(p, tools, listed.name) == Some(listed) <==> NameReverse(p)[listed.name] == t.name)
  {
    var target := RenamesTo(p, t.name).value;
    InOrder(p, t.name);
    LookupByName(tools, t);
    FreeNameAnswer(p, tools, target);
    AdvertisedName(p, tools, t);
    var listed := Advertise(p, Taken(p, tools), t);
    assert listed == Apply(Scrub(p, t), p.transforms[t.name], true);
    assert listed.meta[UPSTREAM_META_KEY] == Identity(t.name);
    var back := NameReverse(p)[target];
    var source := CallNext(tools, back);
    if back != t.name && source.Some? {
      var answer := Apply(Scrub(p, source.value), p.transforms[back], true);
      assert answer.meta[UPSTREAM_META_KEY] == Identity(back);
      DifferentIdentities(back, t.name);
    }
  }

  lemma DifferentIdentities(a: string, b: string)
    requires a != b
    ensures Identity(a) != Identity(b)
  {
    assert Identity(a).fields["name"] == Str(a);
  }

  /** The list and the resolver agree on every advertised tool exactly when no rename that
      applies is shadowed. */
  lemma EveryListedToolAnswersIff(p: Policy, tools: seq<Tool>)
    requires WellFormed(p) && UniqueNames(tools)
    ensures (forall t :: t in Sources(p, tools) ==> AnswersTo(p, tools, t)) <==> NoRenameIsShadowed(p, tools)
  {
    forall t | t in Sources(p, tools)
      ensures AnswersTo(p, tools, t) <==>
              (RenameApplies(p, tools, t.name) ==> NameReverse(p)[RenamesTo(p, t.name).value] == t.name)
      ensures RenameApplies(p, tools, t.name) ==> RenamesTo(p, t.name).value in NameReverse(p)
    {
      InOrder(p, t.name);
      if RenameApplies(p, tools, t.name) {
        RenamedAnswer(p, tools, t);
      } else {
        NativeAnswer(p, tools, t);
      }
    }
  }

  lemma NotAdvertised(p: Policy, tools: seq<Tool>, name: string)
    requires forall t :: t in ListTools(p, tools) ==> t.name != name
    ensures forall t :: t in Sources(p, tools) ==> Advertise(p, Taken(p, tools), t).name != name
  {
    ListedFromSources(p, Taken(p, tools), tools);
    var list, sources := ListTools(p, tools), Sources(p, tools);
    forall t | t in sources
      ensures Advertise(p, Taken(p, tools), t).name != name
    {
      var i :| 0 <= i < |sources| && sources[i] == t;
      assert list[i] in list;
    }
  }

  /** A name nobody advertises is refused, whatever the renames: hidden, renamed away, stale. */
  lemma NothingElseAnswers(p: Policy, tools: seq<Tool>, name: string)
    requires WellFormed(p) && UniqueNames(tools)
    requires forall t :: t in ListTools(p, tools) ==> t.name != name
    ensures GetTool(p, tools, name).None?
  {
    NotAdvertised(p, tools, name);
    UnadvertisedIsRefused(p, tools, name);
  }

  /** What a free name leads back to, if it is there, is advertised under that name. */
  lemma FreeNameIsAdvertised(p: Policy, tools: seq<Tool>, name: string)
    requires WellFormed(p) && UniqueNames(tools) && name in NameReverse(p) && name !in Taken(p, tools)
    requires CallNext(tools, NameReverse(p)[name]).Some?
    ensures var source := CallNext(tools, NameReverse(p)[name]).value;
            source in Sources(p, tools) && Advertise(p, Taken(p, tools), source).name == name
  {
    AdvertisedName(p, tools, CallNext(tools, NameReverse(p)[name]).value);
  }

  lemma UnadvertisedIsRefused(p: Policy, tools: seq<Tool>, name: string)
    requires WellFormed(p) && UniqueNames(tools)
    requires forall t :: t in Sources(p, tools) ==> Advertise(p, Taken(p, tools), t).name != name
    ensures GetTool(p, tools, name).None?
  {
    var direct := CallNext(tools, name);
    if direct.Some? && !Hides(p, name) {
      assert direct.value in Sources(p, tools);
      NativeAnswer(p, tools, direct.value);
      AdvertisedName(p, tools, direct.value);
    } else if name in NameReverse(p) {
      assert name !in Taken(p, tools);
      FreeNameAnswer(p, tools, name);
      if CallNext(tools, NameReverse(p)[name]).Some? {
        FreeNameIsAdvertised(p, tools, name);
        assert false;
      }
    }
  }

  /** Under that condition the bridge answers to exactly the names it lists, and lists no name
      twice. */
  lemma ListedExactlyWhenResolved(p: Policy, tools: seq<Tool>, name: string)
    requires WellFormed(p) && UniqueNames(tools) && NoRenameIsShadowed(p, tools)
    ensures GetTool(p, tools, name).Some? <==> exists i :: 0 <= i < |ListTools(p, tools)| && ListTools(p, tools)[i].name == name
    ensures UniqueNames(ListTools(p, tools))
  {
    var list, sources := ListTools(p, tools), Sources(p, tools);
    ListedFromSources(p, Taken(p, tools), tools);
    EveryListedToolAnswersIff(p, tools);
    forall i | 0 <= i < |list| && list[i].name == name
      ensures GetTool(p, tools, name).Some?
    {
      assert AnswersTo(p, tools, sources[i]);
    }
    if forall i :: 0 <= i < |list| ==> list[i].name != name {
      NothingElseAnswers(p, tools, name);
    }
    forall i, j | 0 <= i < j < |list|
      ensures list[i].name != list[j].name
    {
      DistinctNames(p, tools, sources[i], sources[j]);
    }
  }

  lemma DistinctNames(p: Policy, tools: seq<Tool>, a: Tool, b: Tool)
    requires WellFormed(p) && UniqueNames(tools) && NoRenameIsShadowed(p, tools)
    requires a in Sources(p, tools) && b in Sources(p, tools) && a.name != b.name
    ensures Advertise(p, Taken(p, tools), a).name != Advertise(p, Taken(p, tools), b).name
  {
    AdvertisedName(p, tools, a);
    AdvertisedName(p, tools, b);
    assert a.name in Taken(p, tools) && b.name in Taken(p, tools);
  }

  // ---------------------------------------------------------------- identity and faithfulness

  /** How the control plane reads a tool's upstream name back. */
  function UpstreamName(tool: Tool): Json {
    if UPSTREAM_META_KEY in tool.meta then tool.meta[UPSTREAM_META_KEY] else Identity(tool.name)
  }

  /** Whatever the upstream put under the reserved key, a listed or resolved tool leads back to
      its real name; and beyond name, description, dialect and that key nothing moved. */
  lemma IdentityCannotBeForged(p: Policy, tools: seq<Tool>, t: Tool)
    requires WellFormed(p) && UniqueNames(tools) && t in Sources(p, tools)
    ensures var listed := Advertise(p, Taken(p, tools), t);
            && UpstreamName(listed) == UpstreamName(Resolved(p, t, listed)) == Identity(t.name)
            && listed.meta - {UPSTREAM_META_KEY} == t.meta - {UPSTREAM_META_KEY}
            && listed.parameters == p.dialect(t.parameters) && listed.outputSchema == p.dialect(t.outputSchema)
            && listed.description ==
               (if t.name in p.transforms && IsSet(p.transforms[t.name].description)
                then p.transforms[t.name].description.value else t.description)
  {
  }

  // ---------------------------------------------------------------- the failing family

  /** Two enabled renames to one free name: the later hides the earlier, which stays advertised
      and, when the later's tool is gone upstream, can't be called at all. */
  lemma ShadowedRenameIsUncallable(p: Policy, tools: seq<Tool>, a: Tool, b: string)
    requires WellFormed(p) && UniqueNames(tools) && a in Sources(p, tools) && RenameApplies(p, tools, a.name)
    requires RenamesTo(p, a.name).value in NameReverse(p) && NameReverse(p)[RenamesTo(p, a.name).value] == b != a.name
    requires CallNext(tools, b).None?
    ensures Advertise(p, Taken(p, tools), a) in ListTools(p, tools)
    ensures GetTool(p, tools, Advertise(p, Taken(p, tools), a).name).None?
  {
    ListedFromSources(p, Taken(p, tools), tools);
    var i :| 0 <= i < |Sources(p, tools)| && Sources(p, tools)[i] == a;
    assert ListTools(p, tools)[i] == Advertise(p, Taken(p, tools), a);
    AdvertisedName(p, tools, a);
    FreeNameAnswer(p, tools, RenamesTo(p, a.name).value);
  }
}
