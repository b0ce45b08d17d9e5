/**
 Per-tool policy on what a bridge serves (`_ToolTransform`, backend/app/bridge/host.py): hiding,
 renaming and relabelling tools. Listing tools and resolving one by name are two separate
 algorithms over the same policy; this module says when they agree.
 */
module ToolPolicy {
  import opened Basics
  import opened SchemaEvaluation
  import opened SchemaDialect

  /** Under this `_meta` key, and only there, the bridge records a renamed tool's own name. */
  const UPSTREAM_META_KEY := "io.mcpelevator/upstream"

  datatype Tool = Tool(
    name: string,
    description: string,
    parameters: Json,
    outputSchema: Json,
    meta: map<string, Json>)

  /** One tool's policy; an absent or empty text keeps the upstream's. */
  datatype Config = Config(enabled: bool, name: Option<string>, description: Option<string>)

  /** The policies by upstream name, in the order the constructor reads them, and what becomes of
      a tool's schemas: nothing, or `Normalized`. */
  datatype Policy = Policy(order: seq<string>, transforms: map<string, Config>, dialect: Json -> Json)

  predicate WellFormed(p: Policy) {
    && (set i | 0 <= i < |p.order| :: p.order[i]) == p.transforms.Keys
    && forall i, j :: 0 <= i < j < |p.order| ==> p.order[i] != p.order[j]
  }

  predicate IsSet(text: Option<string>) {
    text.Some? && text.value != ""
  }

  // ---------------------------------------------------------------- the policy of one tool

  predicate Hides(p: Policy, name: string) {
    name in p.transforms && !p.transforms[name].enabled
  }

  /** The name this tool would be renamed to, if it is renamed. */
  function RenamesTo(p: Policy, name: string): Option<string> {
    if name in p.transforms && IsSet(p.transforms[name].name) && p.transforms[name].name.value != name
    then p.transforms[name].name
    else None
  }

  /** The tool without the reserved key, and with its dialect normalised when asked. */
  function Scrub(p: Policy, tool: Tool): Tool {
    tool.(meta := tool.meta - {UPSTREAM_META_KEY},
          parameters := p.dialect(tool.parameters),
          outputSchema := p.dialect(tool.outputSchema))
  }

  function Identity(name: string): Json {
    Obj(map["name" := Str(name)])
  }

  function Apply(source: Tool, config: Config, rename: bool): Tool {
    var renamed :=
      if rename && IsSet(config.name)
      then source.(name := config.name.value, meta := source.meta[UPSTREAM_META_KEY := Identity(source.name)])
      else source;
    if IsSet(config.description) then renamed.(description := config.description.value) else renamed
  }

  // ---------------------------------------------------------------- listing tools

  /** The names live, unhidden tools hold. */
  function Taken(p: Policy, tools: seq<Tool>): set<string> {
    set i | 0 <= i < |tools| && !Hides(p, tools[i].name) :: tools[i].name
  }

  function Advertise(p: Policy, taken: set<string>, tool: Tool): Tool {
    var source := Scrub(p, tool);
    if tool.name !in p.transforms then source
    else
      var target := RenamesTo(p, tool.name);
      Apply(source, p.transforms[tool.name], target.Some? && target.value !in taken)
  }

  function ListFrom(p: Policy, taken: set<string>, tools: seq<Tool>): seq<Tool> {
    if tools == [] then []
    else
      (if Hides(p, tools[0].name) then [] else [Advertise(p, taken, tools[0])]) +
      ListFrom(p, taken, tools[1..])
  }

  function ListTools(p: Policy, tools: seq<Tool>): seq<Tool> {
    ListFrom(p, Taken(p, tools), tools)
  }

  lemma ListsNext(p: Policy, taken: set<string>, tools: seq<Tool>, i: nat)
    requires i < |tools|
    ensures ListFrom(p, taken, tools[i..]) ==
            (if Hides(p, tools[i].name) then [] else [Advertise(p, taken, tools[i])]) + ListFrom(p, taken, tools[i + 1..])
  {
    assert tools[i..][0] == tools[i] && tools[i..][1..] == tools[i + 1..];
  }

  lemma Moved(result: seq<Tool>, t: Tool, rest: seq<Tool>)
    ensures result + ([t] + rest) == (result + [t]) + rest
    ensures result + ([] + rest) == result + rest
  {
  }

  /** `list_tools` as the bridge runs it. */
  method List(p: Policy, tools: seq<Tool>) returns (result: seq<Tool>)
    ensures result == ListTools(p, tools)
  {
    var taken := Taken(p, tools);
    result := [];
    assert tools[0..] == tools && [] + ListFrom(p, taken, tools) == ListFrom(p, taken, tools);
    for i := 0 to |tools|
      invariant result + ListFrom(p, taken, tools[i..]) == ListFrom(p, taken, tools)
    {
      var advertised := Advertise(p, taken, tools[i]);
      ListsNext(p, taken, tools, i);
      Moved(result, advertised, ListFrom(p, taken, tools[i + 1..]));
      if !Hides(p, tools[i].name) {
        result := result + [advertised];
      }
    }
    assert result + [] == result;
  }

  // ---------------------------------------------------------------- resolving one name

  /** The upstream's answer for a name. */
  function CallNext(tools: seq<Tool>, name: string): (r: Option<Tool>)
    ensures r.Some? ==> r.value in tools && r.value.name == name
    ensures r.None? ==> forall t :: t in tools ==> t.name != name
  {
    if tools == [] then None
    else if tools[0].name == name then Some(tools[0])
    else CallNext(tools[1..], name)
  }

  /** Which tool renames to a name: the last enabled one in reading order. */
  function ReverseOver(p: Policy, order: seq<string>): (r: map<string, string>)
    requires forall k :: k in order ==> k in p.transforms
    ensures forall n :: n in r ==> r[n] in order && !Hides(p, r[n]) && RenamesTo(p, r[n]) == Some(n)
    ensures forall k :: k in order && !Hides(p, k) && RenamesTo(p, k).Some? ==> RenamesTo(p, k).value in r
  {
    if order == [] then map[]
    else
      var before := ReverseOver(p, order[..|order| - 1]);
      var source := order[|order| - 1];
      if Hides(p, source) || RenamesTo(p, source).None? then before
      else before[RenamesTo(p, source).value := source]
  }

  function NameReverse(p: Policy): map<string, string>
    requires WellFormed(p)
  {
    ReverseOver(p, p.order)
  }

  function ResolveNative(p: Policy, tools: seq<Tool>, direct: Tool, name: string): Option<Tool> {
    if Hides(p, name) then None
    else if name !in p.transforms then Some(Scrub(p, direct))
    else
      var target := RenamesTo(p, name);
      if target.Some? then
        if CallNext(tools, target.value).None? || Hides(p, target.value) then None
        else Some(Apply(Scrub(p, direct), p.transforms[name], false))
      else Some(Apply(Scrub(p, direct), p.transforms[name], true))
  }

  function GetTool(p: Policy, tools: seq<Tool>, name: string): Option<Tool>
    requires WellFormed(p)
  {
    var direct := CallNext(tools, name);
    var reverse := NameReverse(p);
    var original := if name in reverse then reverse[name] else name;
    var source := CallNext(tools, original);
    if original != name && (direct.None? || Hides(p, name)) && source.Some? then
      Some(Apply(Scrub(p, source.value), p.transforms[original], true))
    else if direct.None? then None
    else ResolveNative(p, tools, direct.value, name)
  }

  // ---------------------------------------------------------------- building the policy

  /** What the operator set for one tool; an absent or empty text keeps the upstream's. */
  datatype Override = Override(name: Option<string>, description: Option<string>)

  function KeepSet(text: Option<string>): Option<string> {
    if IsSet(text) then text else None
  }

  function ConfigOf(disabled: set<string>, overrides: map<string, Override>, tool: string): Config {
    var o := if tool in overrides then overrides[tool] else Override(None, None);
    Config(tool !in disabled, KeepSet(o.name), KeepSet(o.description))
  }

  /** The tools the operator set anything for. */
  function TransformsFor(disabled: set<string>, overrides: map<string, Override>): (transforms: map<string, Config>)
    ensures transforms.Keys <= disabled + overrides.Keys
    ensures forall t :: t in transforms && !transforms[t].enabled <==> t in disabled
  {
    map t | t in disabled + overrides.Keys && ConfigOf(disabled, overrides, t) != Config(true, None, None)
      :: ConfigOf(disabled, overrides, t)
  }

  lemma KeptAreAll(sorted: seq<string>, names: set<string>, keep: set<string>)
    requires (set i | 0 <= i < |sorted| :: sorted[i]) == names && keep <= names
    ensures (set i | 0 <= i < |Kept(sorted, keep)| :: Kept(sorted, keep)[i]) == keep
  {
    forall k | k in keep
      ensures k in Kept(sorted, keep)
    {
      assert k in (set i | 0 <= i < |sorted| :: sorted[i]);
    }
  }

  /** `_tool_transform`: a tool whose override sets nothing gets no policy at all. */
  function PolicyFor(
      disabled: set<string>, overrides: map<string, Override>, sorted: seq<string>, normalize: bool): (p: Policy)
    requires (set i | 0 <= i < |sorted| :: sorted[i]) == disabled + overrides.Keys
    requires forall i, j :: 0 <= i < j < |sorted| ==> sorted[i] != sorted[j]
    ensures WellFormed(p)
    ensures forall t :: Hides(p, t) <==> t in disabled
  {
    var transforms := TransformsFor(disabled, overrides);
    KeptAreAll(sorted, disabled + overrides.Keys, transforms.Keys);
    Policy(Kept(sorted, transforms.Keys), transforms, if normalize then (s: Json) => Normalized(s) else (s: Json) => s)
  }

  function Kept(names: seq<string>, keep: set<string>): (r: seq<string>)
    ensures forall k :: k in r <==> k in names && k in keep
    ensures (forall i, j :: 0 <= i < j < |names| ==> names[i] != names[j]) ==>
              forall i, j :: 0 <= i < j < |r| ==> r[i] != r[j]
  {
    if names == [] then []
    else (if names[0] in keep then [names[0]] else []) + Kept(names[1..], keep)
  }
}
