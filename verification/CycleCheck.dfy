/**
 The evidence-graph check of memory2/eval_memory_governance_dataset.py: building the adjacency from
 the edges, and the recursive depth-first search that reports a cycle.
 */
module CycleCheck {
  import opened Text

  datatype Node = Node(id: string)
  type Adjacency = map<Node, seq<Node>>

  predicate Edge(g: Adjacency, a: Node, b: Node) {
    a in g && b in g[a]
  }

  /** A walk along edges, of at least one node. */
  ghost predicate Walk(g: Adjacency, p: seq<Node>) {
    p != [] && forall i :: 0 <= i < |p| - 1 ==> Edge(g, p[i], p[i + 1])
  }

  lemma RestWalks(g: Adjacency, p: seq<Node>, n: nat)
    requires Walk(g, p) && n < |p|
    ensures Walk(g, p[n..])
  {
    var q := p[n..];
    forall i | 0 <= i < |q| - 1 ensures Edge(g, q[i], q[i + 1]) {
      var k := n + i;
      assert q[i] == p[k] && q[i + 1] == p[k + 1];
    }
  }

  /** A walk with at least one edge that ends where it starts. */
  ghost predicate IsCycle(g: Adjacency, p: seq<Node>) {
    Walk(g, p) && |p| >= 2 && p[0] == p[|p| - 1]
  }

  ghost predicate Cyclic(g: Adjacency) {
    exists p :: IsCycle(g, p)
  }

  /** Keys and targets: a target need not be a key. */
  ghost function Nodes(g: Adjacency): set<Node> {
    g.Keys + set a, i | a in g && 0 <= i < |g[a]| :: g[a][i]
  }

  // ── why finishing order refutes cycles ─────────────────────────

  /** Nodes in an order in which every edge leads to an earlier node. */
  ghost predicate Ordered(g: Adjacency, order: seq<Node>) {
    forall i, b :: 0 <= i < |order| && Edge(g, order[i], b) ==> b in order[..i]
  }

  /** Along a walk that starts in the order, positions strictly decrease. */
  lemma {:induction false} WalkDescends(g: Adjacency, order: seq<Node>, p: seq<Node>, i: nat) returns (j: nat)
    requires Ordered(g, order) && Walk(g, p) && i < |order| && order[i] == p[0]
    ensures j < |order| && order[j] == p[|p| - 1] && j <= i && (|p| > 1 ==> j < i)
    decreases |p|
  {
    j := i;
    if |p| > 1 {
      assert Edge(g, p[0], p[1]);
      var k :| 0 <= k < i && order[k] == p[1];
      RestWalks(g, p, 1);
      j := WalkDescends(g, order, p[1..], k);
    }
  }

  /** No cycle starts at an ordered node: it could be walked round and round, ever earlier. */
  lemma {:induction false} NoCycleFrom(g: Adjacency, order: seq<Node>, p: seq<Node>, i: nat)
    requires Ordered(g, order) && IsCycle(g, p) && i < |order| && order[i] == p[0]
    ensures false
    decreases i
  {
    var j := WalkDescends(g, order, p, i);
    NoCycleFrom(g, order, p, j);
  }

  ghost function Elems(s: seq<Node>): set<Node> {
    set n | n in s
  }

  lemma ElemsSnoc(s: seq<Node>, n: Node)
    ensures Elems(s + [n]) == Elems(s) + {n}
    ensures forall k :: k in Elems(s) <==> k in s
  {
  }

  // ── the search ─────────────────────────────────────────────────

  class Search {
    const g: Adjacency
    var visiting: set<Node>
    var visited: set<Node>
    /** The call stack, and the order in which calls finished. */
    ghost var stack: seq<Node>
    ghost var order: seq<Node>

    ghost predicate Valid()
      reads this
    {
      && visiting == Elems(stack) && visited == Elems(order)
      && visiting <= Nodes(g)
      && (stack != [] ==> Walk(g, stack))
      && Ordered(g, order)
    }

    constructor (g: Adjacency)
      ensures this.g == g && Valid() && stack == []
    {
      this.g, visiting, visited, stack, order := g, {}, {}, [], [];
    }

    method Visit(node: Node) returns (found: bool)
      requires Valid() && node in Nodes(g) && (stack != [] ==> Edge(g, stack[|stack| - 1], node))
      modifies this
      ensures found ==> Cyclic(g)
      ensures !found ==> Valid() && stack == old(stack) && node in visited && old(visited) <= visited
      decreases Left(Nodes(g), visiting)
    {
      hide Ordered, Walk, Cyclic, Nodes, Edge, Elems, Left;
      ElemsSnoc(stack, node);
      if node in visiting {
        StackCloses(g, stack, node);
        return true;
      }
      if node in visited {
        return false;
      }
      StackGrows(g, stack, node);
      FewerLeft(Nodes(g), visiting, node);
      visiting := visiting + {node};
      stack := stack + [node];
      var targets := if node in g then g[node] else [];
      for i := 0 to |targets|
        invariant Valid() && stack == old(stack) + [node] && old(visited) <= visited
        invariant forall k :: 0 <= k < i ==> targets[k] in visited
      {
        TargetIsNode(g, node, i);
        assert stack[|stack| - 1] == node;
        assert visiting == old(visiting) + {node};
        found := Visit(targets[i]);
        if found {
          return true;
        }
      }
      visiting := visiting - {node};
      visited := visited + {node};
      stack := old(stack);
      TargetsAre(g, node);
      ElemsSnoc(order, node);
      OrderGrows(g, order, node);
      order := order + [node];
      return false;
    }
  }

  lemma OrderGrows(g: Adjacency, order: seq<Node>, node: Node)
    requires Ordered(g, order) && forall b :: Edge(g, node, b) ==> b in order
    ensures Ordered(g, order + [node])
  {
    var more := order + [node];
    assert forall i :: 0 <= i <= |order| ==> more[..i] == order[..i];
  }

  lemma TargetIsNode(g: Adjacency, node: Node, i: nat)
    requires node in g && i < |g[node]|
    ensures Edge(g, node, g[node][i]) && g[node][i] in Nodes(g)
  {
  }

  lemma TargetsAre(g: Adjacency, node: Node)
    ensures forall b :: Edge(g, node, b) ==> node in g && b in g[node]
  {
  }

  ghost function Left(all: set<Node>, gone: set<Node>): nat {
    |all - gone|
  }

  lemma FewerLeft(all: set<Node>, gone: set<Node>, n: Node)
    requires n in all && n !in gone
    ensures Left(all, gone + {n}) < Left(all, gone)
  {
    assert all - gone == all - (gone + {n}) + {n};
  }

  lemma StackGrows(g: Adjacency, stack: seq<Node>, node: Node)
    requires stack != [] ==> Walk(g, stack) && Edge(g, stack[|stack| - 1], node)
    ensures Walk(g, stack + [node])
  {
  }

  /** Reaching a node of the stack closes a cycle. */
  lemma StackCloses(g: Adjacency, stack: seq<Node>, node: Node)
    requires node in stack && Walk(g, stack) && Edge(g, stack[|stack| - 1], node)
    ensures Cyclic(g)
  {
    var i :| 0 <= i < |stack| && stack[i] == node;
    RestWalks(g, stack, i);
    StackGrows(g, stack[i..], node);
    assert IsCycle(g, stack[i..] + [node]);
  }

  /**
   _has_cycle; keys is the dict's own order, which does not matter to the result.
   */
  method HasCycle(g: Adjacency, keys: seq<Node>) returns (found: bool)
    requires Elems(keys) == g.Keys
    ensures found <==> Cyclic(g)
  {
    var search := new Search(g);
    for i := 0 to |keys|
      invariant search.g == g && search.Valid() && search.stack == []
      invariant forall k :: 0 <= k < i ==> keys[k] in search.visited
      invariant fresh(search)
    {
      found := search.Visit(keys[i]);
      if found {
        return true;
      }
    }
    if Cyclic(g) {
      ghost var p :| IsCycle(g, p);
      assert Edge(g, p[0], p[1]);
      ghost var i :| 0 <= i < |search.order| && search.order[i] == p[0];
      NoCycleFrom(g, search.order, p, i);
    }
    return false;
  }

  // ── the edges of a case ────────────────────────────────────────

  datatype RawEdge = NotObject | Object(source: Node, target: Node)

  datatype GraphError = NotList | EdgeNotObject(index: nat) | DanglingFrom(node: Node) | DanglingTo(node: Node) | CycleDetected

  /** adjacency.setdefault(source, []).append(target) */
  function AddEdge(g: Adjacency, a: Node, b: Node): Adjacency {
    g[a := (if a in g then g[a] else []) + [b]]
  }

  lemma AddEdgeSpec(g: Adjacency, a: Node, b: Node)
    ensures forall x, y :: Edge(AddEdge(g, a, b), x, y) <==> Edge(g, x, y) || (x == a && y == b)
    ensures AddEdge(g, a, b).Keys == g.Keys + {a}
  {
  }

  ghost predicate Listed(edges: seq<RawEdge>, a: Node, b: Node) {
    Object(a, b) in edges
  }

  /** A cycle along the listed edges. */
  ghost predicate CyclicList(edges: seq<RawEdge>) {
    exists p: seq<Node> :: |p| >= 2 && p[0] == p[|p| - 1] && forall i :: 0 <= i < |p| - 1 ==> Listed(edges, p[i], p[i + 1])
  }

  ghost predicate Mirrors(g: Adjacency, edges: seq<RawEdge>) {
    forall a, b :: Edge(g, a, b) <==> Listed(edges, a, b)
  }

  lemma MirrorsNext(g: Adjacency, edges: seq<RawEdge>, e: RawEdge)
    requires Mirrors(g, edges)
    ensures e.NotObject? ==> Mirrors(g, edges + [e])
    ensures e.Object? ==> Mirrors(AddEdge(g, e.source, e.target), edges + [e]) && AddEdge(g, e.source, e.target).Keys == g.Keys + {e.source}
  {
    assert forall a, b :: Listed(edges + [e], a, b) <==> Listed(edges, a, b) || e == Object(a, b);
    if e.Object? {
      AddEdgeSpec(g, e.source, e.target);
    }
    hide Edge, Listed, AddEdge;
  }

  lemma SameCycles(edges: seq<RawEdge>, g: Adjacency)
    requires Mirrors(g, edges)
    ensures CyclicList(edges) <==> Cyclic(g)
  {
    if CyclicList(edges) {
      var p: seq<Node> :| |p| >= 2 && p[0] == p[|p| - 1] && forall i :: 0 <= i < |p| - 1 ==> Listed(edges, p[i], p[i + 1]);
      assert IsCycle(g, p);
    }
    if Cyclic(g) {
      var p :| IsCycle(g, p);
      assert forall i :: 0 <= i < |p| - 1 ==> Edge(g, p[i], p[i + 1]);
    }
  }

  lemma NoEdges(known: set<Node>)
    ensures Mirrors(map[], []) && Explains([], [], known) && Elems([]) == {}
  {
  }

  /** The errors one entry gives rise to. */
  function EntryErrors(i: nat, e: RawEdge, known: set<Node>): seq<GraphError> {
    if e.NotObject? then [EdgeNotObject(i)]
    else
      (if e.source in known then [] else [DanglingFrom(e.source)])
      + (if e.target in known then [] else [DanglingTo(e.target)])
  }

  /** The errors name exactly the entries that are no objects and the dangling ends. */
  ghost predicate Explains(errors: seq<GraphError>, edges: seq<RawEdge>, known: set<Node>) {
    && (forall i: nat :: EdgeNotObject(i) in errors <==> i < |edges| && edges[i].NotObject?)
    && (forall a :: DanglingFrom(a) in errors <==> a !in known && exists b :: Listed(edges, a, b))
    && (forall b :: DanglingTo(b) in errors <==> b !in known && exists a :: Listed(edges, a, b))
  }

  lemma ExplainsNext(errors: seq<GraphError>, edges: seq<RawEdge>, e: RawEdge, known: set<Node>)
    requires Explains(errors, edges, known)
    ensures Explains(errors + EntryErrors(|edges|, e, known), edges + [e], known)
  {
    var more, all := EntryErrors(|edges|, e, known), edges + [e];
    assert forall x :: x in errors + more <==> x in errors || x in more;
    assert forall a, b :: Listed(all, a, b) <==> Listed(edges, a, b) || e == Object(a, b);
    hide Listed;
    if e.Object? {
      assert Listed(all, e.source, e.target);
    }
  }

  method CheckEntry(errors: seq<GraphError>, i: nat, e: RawEdge, known: set<Node>) returns (all: seq<GraphError>)
    ensures all == errors + EntryErrors(i, e, known)
  {
    all := errors;
    match e
    case NotObject => all := all + [EdgeNotObject(i)];
    case Object(source, target) =>
      if source !in known {
        all := all + [DanglingFrom(source)];
      }
      if target !in known {
        all := all + [DanglingTo(target)];
      }
  }

  lemma NoCycleYet(i: nat, e: RawEdge, known: set<Node>)
    ensures CycleDetected !in EntryErrors(i, e, known) && NotList !in EntryErrors(i, e, known)
  {
  }

  /** The loop over the edges. */
  method CheckEntries(edges: seq<RawEdge>, known: set<Node>) returns (errors: seq<GraphError>, g: Adjacency, keys: seq<Node>)
    ensures Explains(errors, edges, known) && CycleDetected !in errors && NotList !in errors
    ensures Mirrors(g, edges) && Elems(keys) == g.Keys
  {
    errors, g, keys := [], map[], [];
    NoEdges(known);
    hide *;
    for i := 0 to |edges|
      invariant Explains(errors, edges[..i], known)
      invariant CycleDetected !in errors && NotList !in errors
      invariant Mirrors(g, edges[..i])
      invariant Elems(keys) == g.Keys
    {
      assert edges[..i + 1] == edges[..i] + [edges[i]];
      MirrorsNext(g, edges[..i], edges[i]);
      ExplainsNext(errors, edges[..i], edges[i], known);
      NoCycleYet(i, edges[i], known);
      errors := CheckEntry(errors, i, edges[i], known);
      if edges[i].Object? {
        var source, target := edges[i].source, edges[i].target;
        ElemsSnoc(keys, source);
        if source !in g {
          keys := keys + [source];
        }
        g := AddEdge(g, source, target);
      }
    }
    assert edges[..|edges|] == edges;
  }

  /** graph_edges, an empty list when the value is not a list */
  function ListOf(raw: Option<seq<RawEdge>>): seq<RawEdge> {
    if raw.Some? then raw.value else []
  }

  /**
   The evidence-graph part of validate_memory_governance_cases: besides the entries that are no
   objects and the dangling ends, it reports a cycle if and only if the listed edges form one;
   edges with dangling ends count towards cycles too.
   */
  method CheckEdges(raw: Option<seq<RawEdge>>, known: set<Node>) returns (errors: seq<GraphError>)
    ensures NotList in errors <==> raw.None?
    ensures CycleDetected in errors <==> CyclicList(ListOf(raw))
    ensures Explains(errors, ListOf(raw), known)
    ensures raw.Some? ==> (CycleDetected in errors <==> CyclicList(raw.value)) && Explains(errors, raw.value, known)
  {
    hide CyclicList, Cyclic, Explains, Mirrors, Elems;
    var errs, g, keys := CheckEntries(ListOf(raw), known);
    errors := errs;
    var cyclic := HasCycle(g, keys);
    SameCycles(ListOf(raw), g);
    if raw.None? {
      ExplainsMore(errors, ListOf(raw), NotList, known);
      errors := [NotList] + errors;
    }
    if cyclic {
      ExplainsMore(errors, ListOf(raw), CycleDetected, known);
      errors := errors + [CycleDetected];
    }
  }

  lemma ExplainsMore(errors: seq<GraphError>, edges: seq<RawEdge>, e: GraphError, known: set<Node>)
    requires Explains(errors, edges, known) && (e.NotList? || e.CycleDetected?)
    ensures Explains(errors + [e], edges, known) && Explains([e] + errors, edges, known)
  {
    assert forall x :: x in errors + [e] <==> x in errors || x == e;
    assert forall x :: x in [e] + errors <==> x in errors || x == e;
  }
}
