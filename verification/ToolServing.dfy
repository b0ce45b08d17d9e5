/**
 What clients see of an operator's settings (`_tool_transform`, backend/app/bridge/host.py): from the
 hidden names, the overrides and the dialect toggle straight to the tools listed and the answers
 given, without the policy in between.
 */
module ToolServing {
  import opened Basics
  import opened SchemaEvaluation
  import opened SchemaDialect
  import opened ToolPolicy
  import opened ToolAgreement

  /** What the operator set: tools to hide, overrides by upstream name, and whether to normalise. */
  datatype Settings = Settings(disabled: set<string>, overrides: map<string, Override>, normalize: bool)

  /** `sorted` is every name the operator set something for, in the order they are read. */
  ghost predicate Reads(o: Settings, sorted: seq<string>) {
    && (set i | 0 <= i < |sorted| :: sorted[i]) == o.disabled + o.overrides.Keys
    && forall i, j :: 0 <= i < j < |sorted| ==> sorted[i] != sorted[j]
  }

  // ---------------------------------------------------------------- what the settings say

  /** A live tool answers to the name. */
  predicate Answers(o: Settings, tools: seq<Tool>, name: string) {
    name !in o.disabled && exists t :: t in tools && t.name == name
  }

  /** The name the operator wants tool `name` to have, if another one. */
  function Wanted(o: Settings, name: string): Option<string> {
    if name in o.overrides && o.overrides[name].name !in {None, Some(""), Some(name)} then o.overrides[name].name else None
  }

  predicate DescribedAs(o: Settings, t: Tool, description: string) {
    if t.name in o.overrides && o.overrides[t.name].description.Some? && o.overrides[t.name].description != Some("")
    then o.overrides[t.name].description == Some(description)
    else description == t.description
  }

  /** `served` is `t` under the name it is served by; its own name is in its metadata if `stamped`,
      and nobody's is otherwise. */
  predicate ServedAs(o: Settings, t: Tool, served: Tool, name: string, stamped: bool) {
    && served.name == name && DescribedAs(o, t, served.description)
    && served.parameters == (if o.normalize then Normalized(t.parameters) else t.parameters)
    && served.outputSchema == (if o.normalize then Normalized(t.outputSchema) else t.outputSchema)
    && served.meta ==
       if stamped then t.meta["io.mcpelevator/upstream" := Obj(map["name" := Str(t.name)])]
       else t.meta - {"io.mcpelevator/upstream"}
  }

  /** A listed tool has the name wanted for it, unless a live tool holds that one. */
  predicate ListedAs(o: Settings, tools: seq<Tool>, t: Tool, listed: Tool) {
    var wanted := Wanted(o, t.name);
    if wanted.Some? && !Answers(o, tools, wanted.value) then ServedAs(o, t, listed, wanted.value, true)
    else ServedAs(o, t, listed, t.name, false)
  }

  // ---------------------------------------------------------------- listing

  /** The places of the tools that aren't hidden, in their order. */
  ghost predicate Picks(o: Settings, tools: seq<Tool>, from: seq<nat>) {
    && (forall j :: 0 <= j < |from| ==> from[j] < |tools| && tools[from[j]].name !in o.disabled)
    && (forall j, k :: 0 <= j < k < |from| ==> from[j] < from[k])
    && (forall i :: 0 <= i < |tools| && tools[i].name !in o.disabled ==> i in from)
  }

  /** The members of `shown` below `n`, in order. */
  ghost predicate PicksUpTo(shown: set<nat>, from: seq<nat>, n: nat) {
    && (forall j :: 0 <= j < |from| ==> from[j] < n && from[j] in shown)
    && (forall j, k :: 0 <= j < k < |from| ==> from[j] < from[k])
    && (forall i :: i in shown && i < n ==> i in from)
  }

  lemma PicksNext(shown: set<nat>, from: seq<nat>, n: nat)
    requires PicksUpTo(shown, from, n)
    ensures PicksUpTo(shown, if n in shown then from + [n] else from, n + 1)
  {
    var more := from + [n];
    assert more[|from|] == n && forall j :: 0 <= j < |from| ==> more[j] == from[j];
    forall i | i in shown && i < n + 1
      ensures i in if n in shown then more else from
    {
      if i < n {
        var j :| 0 <= j < |from| && from[j] == i;
        assert more[j] == i;
      }
    }
  }

  ghost predicate Shows(p: Policy, taken: set<string>, tools: seq<Tool>, from: seq<nat>, list: seq<Tool>) {
    |list| == |from| && forall j :: 0 <= j < |from| ==> from[j] < |tools| && list[j] == Advertise(p, taken, tools[from[j]])
  }

  lemma ShowsNext(p: Policy, taken: set<string>, tools: seq<Tool>, from: seq<nat>, list: seq<Tool>, n: nat, next: Tool)
    requires n < |tools| && Shows(p, taken, tools, from, list) && next == Advertise(p, taken, tools[n])
    ensures Shows(p, taken, tools, from + [n], list + [next])
  {
  }

  /** The places of the tools the policy doesn't hide. */
  ghost function Shown(p: Policy, tools: seq<Tool>): set<nat> {
    set i: nat | i < |tools| && !Hides(p, tools[i].name)
  }

  lemma ListedFrom(p: Policy, taken: set<string>, tools: seq<Tool>) returns (from: seq<nat>)
    ensures PicksUpTo(Shown(p, tools), from, |tools|) && Shows(p, taken, tools, from, ListFrom(p, taken, tools))
  {
    from := [];
    var list: seq<Tool> := [];
    assert tools[0..] == tools && [] + ListFrom(p, taken, tools) == ListFrom(p, taken, tools);
    for n := 0 to |tools|
      invariant list + ListFrom(p, taken, tools[n..]) == ListFrom(p, taken, tools)
      invariant PicksUpTo(Shown(p, tools), from, n) && Shows(p, taken, tools, from, list)
    {
      var next := Advertise(p, taken, tools[n]);
      PicksNext(Shown(p, tools), from, n);
      ShowsNext(p, taken, tools, from, list, n, next);
      ListsOne(p, taken, tools, list, n, next);
      if n in Shown(p, tools) {
        from, list := from + [n], list + [next];
      }
    }
    assert list + [] == list;
  }

  lemma ListsOne(p: Policy, taken: set<string>, tools: seq<Tool>, list: seq<Tool>, n: nat, next: Tool)
    requires n < |tools| && next == Advertise(p, taken, tools[n])
    ensures list + ListFrom(p, taken, tools[n..]) ==
            (if n in Shown(p, tools) then list + [next] else list) + ListFrom(p, taken, tools[n + 1..])
  {
    ListsNext(p, taken, tools, n);
    Moved(list, next, ListFrom(p, taken, tools[n + 1..]));
  }

  lemma PolicyOf(o: Settings, sorted: seq<string>) returns (p: Policy)
    requires Reads(o, sorted)
    ensures p == PolicyFor(o.disabled, o.overrides, sorted, o.normalize) && WellFormed(p)
    ensures forall t :: Hides(p, t) <==> t in o.disabled
    ensures forall t :: RenamesTo(p, t) == Wanted(o, t)
  {
    p := PolicyFor(o.disabled, o.overrides, sorted, o.normalize);
    forall t
      ensures RenamesTo(p, t) == Wanted(o, t)
    {
    }
  }

  lemma TakenAnswers(o: Settings, p: Policy, tools: seq<Tool>, name: string)
    requires forall t :: Hides(p, t) <==> t in o.disabled
    ensures name in Taken(p, tools) <==> Answers(o, tools, name)
  {
  }

  /** Relabelled under the name it goes by. */
  lemma AppliedAsServed(o: Settings, sorted: seq<string>, t: Tool, rename: bool)
    requires Reads(o, sorted) && t.name !in o.disabled
    ensures var p := PolicyFor(o.disabled, o.overrides, sorted, o.normalize);
            && (t.name !in p.transforms ==>
                  ServedAs(o, t, Scrub(p, t), t.name, false) && (t.name in o.overrides ==> !IsSet(o.overrides[t.name].name)))
            && (t.name in p.transforms ==>
                  t.name in o.overrides &&
                  var named := rename && IsSet(o.overrides[t.name].name);
                  ServedAs(o, t, Apply(Scrub(p, t), p.transforms[t.name], rename),
                           if named then o.overrides[t.name].name.value else t.name, named))
  {
    var p := PolicyFor(o.disabled, o.overrides, sorted, o.normalize);
    assert p.dialect(t.parameters) == if o.normalize then Normalized(t.parameters) else t.parameters;
    assert p.dialect(t.outputSchema) == if o.normalize then Normalized(t.outputSchema) else t.outputSchema;
    Identities(t.meta, Identity(t.name));
  }

  lemma Identities(meta: map<string, Json>, identity: Json)
    ensures (meta - {UPSTREAM_META_KEY})[UPSTREAM_META_KEY := identity] == meta[UPSTREAM_META_KEY := identity]
  {
  }

  lemma AdvertisedAsListed(o: Settings, sorted: seq<string>, tools: seq<Tool>, t: Tool)
    requires Reads(o, sorted) && t.name !in o.disabled
    ensures var p := PolicyFor(o.disabled, o.overrides, sorted, o.normalize);
            ListedAs(o, tools, t, Advertise(p, Taken(p, tools), t))
  {
    var p := PolicyOf(o, sorted);
    var wanted := Wanted(o, t.name);
    var rename := wanted.Some? && wanted.value !in Taken(p, tools);
    if wanted.Some? {
      TakenAnswers(o, p, tools, wanted.value);
    }
    AppliedAsServed(o, sorted, t, rename);
  }

  /** The list is the tools that aren't hidden, in the upstream's order, each under the name and with
      the description, schemas and metadata its settings give it. */
  lemma ListsWhatTheOperatorSet(o: Settings, sorted: seq<string>, tools: seq<Tool>) returns (from: seq<nat>)
    requires Reads(o, sorted)
    ensures var list := ListTools(PolicyFor(o.disabled, o.overrides, sorted, o.normalize), tools);
            && Picks(o, tools, from) && |list| == |from|
            && forall j :: 0 <= j < |from| ==> ListedAs(o, tools, tools[from[j]], list[j])
  {
    var p := PolicyOf(o, sorted);
    from := ListedFrom(p, Taken(p, tools), tools);
    assert forall i: nat :: i in Shown(p, tools) <==> i < |tools| && tools[i].name !in o.disabled;
    forall j | 0 <= j < |from|
      ensures ListedAs(o, tools, tools[from[j]], ListTools(p, tools)[j])
    {
      AdvertisedAsListed(o, sorted, tools, tools[from[j]]);
    }
  }

  // ---------------------------------------------------------------- answering a name

  /** `back` is the last of `names` that is one of `wanting`. */
  ghost predicate LastOf(names: seq<string>, wanting: set<string>, back: string)
    decreases |names|
  {
    names != [] &&
    (LastOf(names[1..], wanting, back) ||
     (names[0] == back && back in wanting && forall k :: k in names[1..] ==> k !in wanting))
  }

  /** The tools that aren't hidden and are wanted under `name`. */
  ghost function Wanting(o: Settings, name: string): set<string> {
    set k | k in o.overrides && k !in o.disabled && Wanted(o, k) == Some(name)
  }

  lemma {:induction false} LastOfKept(names: seq<string>, keep: set<string>, wanting: set<string>, back: string)
    requires wanting <= keep && LastOf(Kept(names, keep), wanting, back)
    ensures LastOf(names, wanting, back)
    decreases |names|
  {
    var rest := Kept(names[1..], keep);
    if names[0] in keep {
      assert ([names[0]] + rest)[1..] == rest;
    } else {
      assert [] + rest == rest;
    }
    if LastOf(rest, wanting, back) {
      LastOfKept(names[1..], keep, wanting, back);
    } else {
      assert forall k :: k in names[1..] && k in wanting ==> k in rest;
    }
  }

  lemma {:induction false} ReverseIsTheLast(p: Policy, order: seq<string>, wanting: set<string>, name: string)
    requires forall k :: k in order ==> k in p.transforms
    requires forall k :: k in order ==> (k in wanting <==> !Hides(p, k) && RenamesTo(p, k) == Some(name))
    ensures name in ReverseOver(p, order) ==> LastOf(order, wanting, ReverseOver(p, order)[name])
    ensures name !in ReverseOver(p, order) ==> forall k :: k in order ==> k !in wanting
    decreases |order|
  {
    if order != [] {
      var (before, last) := (order[..|order| - 1], order[|order| - 1]);
      ReverseIsTheLast(p, before, wanting, name);
      assert order == before + [last];
      if last in wanting {
        LastIsLast(before, wanting, last);
      } else if name in ReverseOver(p, before) {
        LastBefore(before, wanting, last, ReverseOver(p, before)[name]);
      }
    }
  }

  lemma {:induction false} LastIsLast(names: seq<string>, wanting: set<string>, last: string)
    requires last in wanting
    ensures LastOf(names + [last], wanting, last)
    decreases |names|
  {
    if names == [] {
      assert [] + [last] == [last] && [last][1..] == [];
    } else {
      assert (names + [last])[1..] == names[1..] + [last];
      LastIsLast(names[1..], wanting, last);
    }
  }

  lemma {:induction false} LastBefore(names: seq<string>, wanting: set<string>, last: string, back: string)
    requires LastOf(names, wanting, back) && last !in wanting
    ensures LastOf(names + [last], wanting, back)
    decreases |names|
  {
    assert (names + [last])[1..] == names[1..] + [last];
    if LastOf(names[1..], wanting, back) {
      LastBefore(names[1..], wanting, last, back);
    }
  }

  lemma {:induction false} OneIsLast(names: seq<string>, wanting: set<string>, a: string, b: string)
    requires LastOf(names, wanting, a) && LastOf(names, wanting, b)
    ensures a == b
    decreases |names|
  {
    if LastOf(names[1..], wanting, a) && LastOf(names[1..], wanting, b) {
      OneIsLast(names[1..], wanting, a, b);
    } else {
      LastIsAmong(names[1..], wanting, if LastOf(names[1..], wanting, a) then a else b);
    }
  }

  lemma {:induction false} LastIsAmong(names: seq<string>, wanting: set<string>, a: string)
    ensures LastOf(names, wanting, a) ==> a in names && a in wanting
    decreases |names|
  {
    if names != [] {
      LastIsAmong(names[1..], wanting, a);
    }
  }

  /** A live tool answers to its own name, unless it goes by another; a free name is answered by the
      last tool in reading order that is wanted under it, if the upstream has that one; and nobody
      else answers. */
  ghost predicate Resolves(o: Settings, sorted: seq<string>, tools: seq<Tool>, name: string, answer: Option<Tool>) {
    if Answers(o, tools, name) then
      forall t :: t in tools && t.name == name ==>
        var wanted := Wanted(o, name);
        if wanted.Some? && !Answers(o, tools, wanted.value) then answer.None?
        else
          answer.Some? &&
          ServedAs(o, t, answer.value, name, name != "" && name in o.overrides && o.overrides[name].name == Some(name))
    else
      && (answer.Some? ==> exists t :: t in tools && LastOf(sorted, Wanting(o, name), t.name))
      && forall t :: t in tools && LastOf(sorted, Wanting(o, name), t.name) ==>
           answer.Some? && ServedAs(o, t, answer.value, name, true)
  }

  lemma AnswersWhatTheOperatorSet(o: Settings, sorted: seq<string>, tools: seq<Tool>, name: string)
    requires Reads(o, sorted) && UniqueNames(tools)
    ensures Resolves(o, sorted, tools, name, GetTool(PolicyFor(o.disabled, o.overrides, sorted, o.normalize), tools, name))
  {
    var p := PolicyOf(o, sorted);
    TakenAnswers(o, p, tools, name);
    if Answers(o, tools, name) {
      forall t | t in tools && t.name == name
        ensures OwnAnswer(o, tools, t, GetTool(p, tools, name))
      {
        LiveNameAnswers(o, sorted, tools, t);
      }
    } else {
      FreeNameAnswers(o, sorted, tools, name);
    }
  }

  ghost predicate OwnAnswer(o: Settings, tools: seq<Tool>, t: Tool, answer: Option<Tool>) {
    var wanted := Wanted(o, t.name);
    if wanted.Some? && !Answers(o, tools, wanted.value) then answer.None?
    else
      answer.Some? &&
      ServedAs(o, t, answer.value, t.name, t.name != "" && t.name in o.overrides && o.overrides[t.name].name == Some(t.name))
  }

  lemma LiveNameAnswers(o: Settings, sorted: seq<string>, tools: seq<Tool>, t: Tool)
    requires Reads(o, sorted) && UniqueNames(tools) && t in tools && t.name !in o.disabled
    ensures OwnAnswer(o, tools, t, GetTool(PolicyFor(o.disabled, o.overrides, sorted, o.normalize), tools, t.name))
  {
    var p := PolicyOf(o, sorted);
    NativeAnswer(p, tools, t);
    AdvertisedAsListed(o, sorted, tools, t);
    if Wanted(o, t.name).Some? {
      TakenAnswers(o, p, tools, Wanted(o, t.name).value);
    }
    if !RenameApplies(p, tools, t.name) {
      var listed := Advertise(p, Taken(p, tools), t);
      assert ServedAs(o, t, listed, t.name, false);
      StampedAnswer(o, sorted, t, listed);
    }
  }

  /** An override with the tool's own name for a name stamps it all the same. */
  lemma StampedAnswer(o: Settings, sorted: seq<string>, t: Tool, listed: Tool)
    requires Reads(o, sorted) && t.name !in o.disabled && ServedAs(o, t, listed, t.name, false)
    ensures ServedAs(o, t, Resolved(PolicyFor(o.disabled, o.overrides, sorted, o.normalize), t, listed), t.name,
                     t.name != "" && t.name in o.overrides && o.overrides[t.name].name == Some(t.name))
  {
    Identities(t.meta, Identity(t.name));
  }

  lemma WhoIsWanted(o: Settings, sorted: seq<string>, name: string)
    requires Reads(o, sorted)
    ensures var p := PolicyFor(o.disabled, o.overrides, sorted, o.normalize);
            && Wanting(o, name) <= p.transforms.Keys
            && (name in NameReverse(p) ==> LastOf(sorted, Wanting(o, name), NameReverse(p)[name]))
            && (name !in NameReverse(p) ==> forall k :: !LastOf(sorted, Wanting(o, name), k))
  {
    var p := PolicyOf(o, sorted);
    var wanting := Wanting(o, name);
    forall k
      ensures k in wanting <==> !Hides(p, k) && RenamesTo(p, k) == Some(name)
    {
    }
    assert forall k :: k in p.order <==> k in (set i | 0 <= i < |p.order| :: p.order[i]);
    ReverseIsTheLast(p, p.order, wanting, name);
    if name in NameReverse(p) {
      LastOfKept(sorted, p.transforms.Keys, wanting, NameReverse(p)[name]);
    } else {
      forall k
        ensures !LastOf(sorted, wanting, k)
      {
        LastIsAmong(sorted, wanting, k);
      }
    }
  }

  lemma FreeNameAnswers(o: Settings, sorted: seq<string>, tools: seq<Tool>, name: string)
    requires Reads(o, sorted) && UniqueNames(tools) && !Answers(o, tools, name)
    ensures Resolves(o, sorted, tools, name, GetTool(PolicyFor(o.disabled, o.overrides, sorted, o.normalize), tools, name))
  {
    var p := PolicyOf(o, sorted);
    TakenAnswers(o, p, tools, name);
    WhoIsWanted(o, sorted, name);
    if name in NameReverse(p) {
      var back := NameReverse(p)[name];
      FreeNameAnswer(p, tools, name);
      forall t | t in tools && LastOf(sorted, Wanting(o, name), t.name)
        ensures CallNext(tools, back) == Some(t)
      {
        OneIsLast(sorted, Wanting(o, name), t.name, back);
        LookupByName(tools, t);
      }
      if CallNext(tools, back).Some? {
        LastIsAmong(sorted, Wanting(o, name), back);
        AppliedAsServed(o, sorted, CallNext(tools, back).value, true);
      }
    } else {
      assert CallNext(tools, name).Some? ==> Hides(p, name);
    }
  }
}
