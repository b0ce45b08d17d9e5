/**
 What a YAML document takes once every alias is written out (`_expanded_size`,
 backend/app/bridge/openapi.py), measured on the node graph, where an alias is the same node.
 */
module ExpandedSize {
  import opened Basics

  type Id = nat

  /** A mapping's keys and values are its children, one after the other. */
  datatype Node = Scalar(bytes: nat) | Composite(children: seq<Id>)

  type Graph = map<Id, Node>

  ghost predicate Closed(g: Graph) {
    forall id, k :: id in g && g[id].Composite? && 0 <= k < |g[id].children| ==> g[id].children[k] in g
  }

  // ---------------------------------------------------------------- the document, written out

  /** A node with every alias written out. */
  datatype Tree = Leaf(bytes: nat) | Branch(parts: seq<Tree>)

  predicate Unfolds(g: Graph, id: Id, t: Tree)
    decreases t
  {
    id in g &&
    match g[id]
    case Scalar(n) => t == Leaf(n)
    case Composite(children) =>
      t.Branch? && |t.parts| == |children| && forall k :: 0 <= k < |children| ==> Unfolds(g, children[k], t.parts[k])
  }

  function SizeOf(t: Tree): nat {
    match t
    case Leaf(n) => n + 2
    case Branch(parts) => 2 + SizeOfParts(parts)
  }

  function SizeOfParts(parts: seq<Tree>): nat {
    if parts == [] then 0 else SizeOfParts(parts[..|parts| - 1]) + 2 + SizeOf(parts[|parts| - 1])
  }

  lemma OneMorePart(parts: seq<Tree>, part: Tree)
    ensures SizeOfParts(parts + [part]) == SizeOfParts(parts) + 2 + SizeOf(part)
  {
    assert (parts + [part])[..|parts|] == parts;
  }

  /** The length of the tree as JSON text: a scalar in its quotes, the parts of a composite between
      brackets with two characters between one and the next. */
  function TextLength(t: Tree): nat {
    match t
    case Leaf(n) => 1 + n + 1
    case Branch(parts) => 1 + PartsLength(parts) + 1
  }

  function PartsLength(parts: seq<Tree>): nat {
    if parts == [] then 0
    else PartsLength(parts[..|parts| - 1]) + (if |parts| == 1 then 0 else 2) + TextLength(parts[|parts| - 1])
  }

  /** The composites with parts. */
  function Filled(t: Tree): nat {
    match t
    case Leaf(_) => 0
    case Branch(parts) => (if parts == [] then 0 else 1) + FilledOf(parts)
  }

  function FilledOf(parts: seq<Tree>): nat {
    if parts == [] then 0 else FilledOf(parts[..|parts| - 1]) + Filled(parts[|parts| - 1])
  }

  /** The measured size is that length, and two characters more for each composite that has parts. */
  lemma {:induction false} SizeIsTheTextsLength(t: Tree)
    ensures SizeOf(t) == TextLength(t) + 2 * Filled(t)
    decreases t
  {
    if t.Branch? {
      SizeIsThePartsLength(t.parts);
    }
  }

  lemma {:induction false} SizeIsThePartsLength(parts: seq<Tree>)
    ensures SizeOfParts(parts) == PartsLength(parts) + 2 * FilledOf(parts) + if parts == [] then 0 else 2
    decreases parts
  {
    if parts != [] {
      SizeIsThePartsLength(parts[..|parts| - 1]);
      SizeIsTheTextsLength(parts[|parts| - 1]);
    }
  }

  // ---------------------------------------------------------------- alias cycles

  ghost predicate Walk(g: Graph, w: seq<Id>) {
    && w != []
    && forall k :: 0 <= k < |w| - 1 ==> w[k] in g && g[w[k]].Composite? && w[k + 1] in g[w[k]].children
  }

  /** Following children from `id` can come back to a node it passed. */
  ghost predicate Cyclic(g: Graph, id: Id) {
    exists w, i, j :: Walk(g, w) && w[0] == id && 0 <= i < j < |w| && w[i] == w[j]
  }

  lemma CyclicChild(g: Graph, id: Id, child: Id)
    requires id in g && g[id].Composite? && child in g[id].children && Cyclic(g, child)
    ensures Cyclic(g, id)
  {
    var w, i, j :| Walk(g, w) && w[0] == child && 0 <= i < j < |w| && w[i] == w[j];
    var longer := [id] + w;
    forall k | 0 <= k < |longer| - 1
      ensures longer[k] in g && g[longer[k]].Composite? && longer[k + 1] in g[longer[k]].children
    {
      assert k > 0 ==> longer[k] == w[k - 1] && longer[k + 1] == w[k];
    }
    assert Walk(g, longer) && longer[i + 1] == longer[j + 1];
  }

  function Height(t: Tree): nat {
    match t
    case Leaf(_) => 0
    case Branch(parts) => 1 + HeightOfParts(parts)
  }

  function HeightOfParts(parts: seq<Tree>): (h: nat)
    ensures forall k :: 0 <= k < |parts| ==> Height(parts[k]) <= h
  {
    if parts == [] then 0
    else
      var rest := HeightOfParts(parts[..|parts| - 1]);
      Max(rest, Height(parts[|parts| - 1]))
  }

  lemma {:induction false} OneTreeOnly(g: Graph, id: Id, a: Tree, b: Tree)
    requires Unfolds(g, id, a) && Unfolds(g, id, b)
    ensures a == b
    decreases a
  {
    if g[id].Composite? {
      forall k | 0 <= k < |a.parts|
        ensures a.parts[k] == b.parts[k]
      {
        OneTreeOnly(g, g[id].children[k], a.parts[k], b.parts[k]);
      }
    }
  }

  /** Each step of a walk goes down into the tree. */
  lemma {:induction false} WalkDescends(g: Graph, w: seq<Id>, t: Tree, n: nat) returns (s: Tree)
    requires Walk(g, w) && n < |w| && Unfolds(g, w[0], t)
    ensures Unfolds(g, w[n], s) && Height(s) + n <= Height(t)
    decreases n
  {
    if n == 0 {
      s := t;
    } else {
      var above := WalkDescends(g, w, t, n - 1);
      var m := n - 1;
      assert w[m + 1] in g[w[m]].children;
      var k :| 0 <= k < |g[w[n - 1]].children| && g[w[n - 1]].children[k] == w[n];
      s := above.parts[k];
    }
  }

  /** A cycle can't be written out. */
  lemma CyclesHaveNoTree(g: Graph, id: Id, t: Tree)
    requires Unfolds(g, id, t)
    ensures !Cyclic(g, id)
  {
    if Cyclic(g, id) {
      var w, i, j :| Walk(g, w) && w[0] == id && 0 <= i < j < |w| && w[i] == w[j];
      var si := WalkDescends(g, w, t, i);
      var rest := w[i..];
      forall k | 0 <= k < |rest| - 1
        ensures rest[k] in g && g[rest[k]].Composite? && rest[k + 1] in g[rest[k]].children
      {
        assert rest[k] == w[i + k] && rest[k + 1] == w[i + k + 1];
      }
      var sj := WalkDescends(g, rest, si, j - i);
      OneTreeOnly(g, w[i], si, sj);
    }
  }

  // ---------------------------------------------------------------- the measurement

  /** The nodes being measured, outermost first. */
  ghost predicate Path(g: Graph, path: seq<Id>, active: set<Id>) {
    && (path != [] ==> Walk(g, path))
    && (forall id :: id in path <==> id in active)
  }

  lemma ClosesACycle(g: Graph, path: seq<Id>, active: set<Id>, id: Id)
    requires Path(g, path, active) && id in active
    requires path[|path| - 1] in g && g[path[|path| - 1]].Composite? && id in g[path[|path| - 1]].children
    ensures Cyclic(g, id)
  {
    var j :| 0 <= j < |path| && path[j] == id;
    var w := path[j..] + [id];
    forall k | 0 <= k < |w| - 1
      ensures w[k] in g && g[w[k]].Composite? && w[k + 1] in g[w[k]].children
    {
      assert w[k] == path[j + k];
      if k < |w| - 2 {
        assert w[k + 1] == path[j + k + 1];
      }
    }
    assert Walk(g, w) && w[0] == w[|w| - 1];
  }

  ghost predicate Distinct(ids: seq<Id>) {
    forall j, k :: 0 <= j < k < |ids| ==> ids[j] != ids[k]
  }

  class Measurement {
    const graph: Graph
    var sizes: map<Id, nat>
    var active: set<Id>
    ghost var trees: map<Id, Tree>
    ghost var path: seq<Id>
    /** The nodes whose children were looked at, in that order. */
    ghost var expanded: seq<Id>

    ghost predicate Valid()
      reads this
    {
      && Closed(graph) && Path(graph, path, active)
      && active <= graph.Keys && active !! sizes.Keys
      && sizes.Keys == trees.Keys
      && (forall id :: id in sizes ==> Unfolds(graph, id, trees[id]) && SizeOf(trees[id]) == sizes[id])
      && Distinct(expanded) && forall id :: id in expanded <==> id in active + sizes.Keys
    }

    constructor (graph: Graph)
      requires Closed(graph)
      ensures Valid() && this.graph == graph && active == {} && expanded == []
    {
      this.graph, sizes, active, trees, path, expanded := graph, map[], {}, map[], [], [];
    }

    /** What a call leaves as it found it, when the node can be written out. */
    twostate predicate Settled()
      reads this
    {
      active == old(active) && path == old(path) && old(sizes.Keys) <= sizes.Keys && old(expanded) <= expanded
    }

    /** `_expanded_size`: the size of the node written out, or nothing for an alias cycle. */
    method Measure(id: Id) returns (size: Option<nat>, ghost tree: Tree)
      requires Valid() && id in graph
      requires path != [] ==> graph[path[|path| - 1]].Composite? && id in graph[path[|path| - 1]].children
      modifies this
      ensures Distinct(expanded)
      ensures size.Some? ==> Valid() && Settled() && Unfolds(graph, id, tree) && size.value == SizeOf(tree)
      ensures size.None? ==> Cyclic(graph, id)
      decreases graph.Keys - active, 1
    {
      tree := Leaf(0);
      if graph[id].Scalar? {
        tree := Leaf(graph[id].bytes);
        return Some(graph[id].bytes + 2), tree;
      }
      if id in sizes {
        return Some(sizes[id]), trees[id];
      }
      if id in active {
        ClosesACycle(graph, path, active, id);
        return None, tree;
      }
      size, tree := MeasureParts(id);
    }

    /** The children of a node met for the first time. */
    method MeasureParts(id: Id) returns (size: Option<nat>, ghost tree: Tree)
      requires Valid() && id in graph && graph[id].Composite? && id !in active && id !in sizes
      requires path != [] ==> graph[path[|path| - 1]].Composite? && id in graph[path[|path| - 1]].children
      modifies this
      ensures Distinct(expanded)
      ensures size.Some? ==> Valid() && Settled() && Unfolds(graph, id, tree) && size.value == SizeOf(tree)
      ensures size.None? ==> Cyclic(graph, id)
      decreases graph.Keys - active, 0
    {
      Enter(id);
      ghost var parts;
      size, parts := MeasureChildren(id);
      tree := Branch(parts);
      if size.Some? {
        Leave(id, size.value, tree);
      }
    }

    /** The loop over the children, which may themselves be met for the first time. */
    method MeasureChildren(id: Id) returns (size: Option<nat>, ghost parts: seq<Tree>)
      requires Valid() && path != [] && path[|path| - 1] == id && id in graph && graph[id].Composite?
      modifies this
      ensures Distinct(expanded)
      ensures size.Some? ==>
                && Valid() && Settled() && Unfolds(graph, id, Branch(parts)) && size.value == 2 + SizeOfParts(parts)
      ensures size.None? ==> Cyclic(graph, id)
      decreases graph.Keys - active, 2
    {
      var children, total := graph[id].children, 2;
      parts := [];
      for i := 0 to |children|
        invariant Valid() && Settled()
        invariant |parts| == i && forall k :: 0 <= k < i ==> Unfolds(graph, children[k], parts[k])
        invariant total == 2 + SizeOfParts(parts)
      {
        var part, t := Measure(children[i]);
        if part.None? {
          CyclicChild(graph, id, children[i]);
          return None, parts;
        }
        OneMorePart(parts, t);
        parts := parts + [t];
        total := total + 2 + part.value;
      }
      return Some(total), parts;
    }

    method Enter(id: Id)
      requires Valid() && id in graph && graph[id].Composite? && id !in active && id !in sizes
      requires path != [] ==> graph[path[|path| - 1]].Composite? && id in graph[path[|path| - 1]].children
      modifies this`active, this`path, this`expanded
      ensures Valid() && active == old(active) + {id} && path == old(path) + [id] && expanded == old(expanded) + [id]
    {
      assert id !in expanded;
      active := active + {id};
      path, expanded := path + [id], expanded + [id];
    }

    method Leave(id: Id, total: nat, ghost tree: Tree)
      requires Valid() && id in active && id !in sizes && path != [] && path[|path| - 1] == id
      requires id !in path[..|path| - 1] && Unfolds(graph, id, tree) && SizeOf(tree) == total
      modifies this`active, this`path, this`sizes, this`trees
      ensures Valid() && active == old(active) - {id} && path == old(path)[..|old(path)| - 1]
      ensures sizes == old(sizes)[id := total] && trees == old(trees)[id := tree]
    {
      active := active - {id};
      path := path[..|path| - 1];
      sizes, trees := sizes[id := total], trees[id := tree];
    }
  }

  /** So a size comes back exactly when the document can be written out, that is without a
      cycle. */
  method ExpandedSizeOf(g: Graph, root: Id) returns (size: Option<nat>)
    requires Closed(g) && root in g
    ensures size.Some? <==> !Cyclic(g, root)
    ensures size.Some? ==> exists t :: Unfolds(g, root, t) && SizeOf(t) == size.value
    ensures forall t :: Unfolds(g, root, t) ==> size == Some(SizeOf(t))
  {
    var measurement := new Measurement(g);
    ghost var tree;
    size, tree := measurement.Measure(root);
    if size.Some? {
      CyclesHaveNoTree(g, root, tree);
    }
    forall t | Unfolds(g, root, t)
      ensures size == Some(SizeOf(t))
    {
      CyclesHaveNoTree(g, root, t);
      OneTreeOnly(g, root, t, tree);
    }
  }
}
