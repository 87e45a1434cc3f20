/** Cycle detection over the variant substitutions: depth-first search with a visiting and a visited set. */
module SubstitutionGraph {

  /** A reference key; the search only compares keys for equality. */
  type Node = string
  type Edges = map<Node, seq<Node>>

  function Destinations(edges: Edges, node: Node): seq<Node> {
    if node in edges then edges[node] else []
  }

  /** A closed walk along the edges. */
  predicate IsCycle(edges: Edges, p: seq<Node>) {
    |p| >= 2 && p[0] == p[|p| - 1] && forall i :: 0 <= i < |p| - 1 ==> p[i + 1] in Destinations(edges, p[i])
  }

  ghost predicate HasCycle(edges: Edges) {
    exists p :: IsCycle(edges, p)
  }

  function Nodes(edges: Edges): set<Node> {
    edges.Keys + set n, d | n in edges && d in edges[n] :: d
  }

  /** Every edge out of a listed node leads to a node listed earlier. */
  predicate Backward(edges: Edges, order: seq<Node>) {
    forall i, d :: 0 <= i < |order| && d in Destinations(edges, order[i]) ==> d in order[..i]
  }

  predicate Chain(edges: Edges, stack: seq<Node>) {
    forall i :: 0 <= i < |stack| - 1 ==> stack[i + 1] in Destinations(edges, stack[i])
  }

  lemma {:induction false} CycleAvoids(edges: Edges, order: seq<Node>, p: seq<Node>, k: nat)
    requires Backward(edges, order) && IsCycle(edges, p) && k <= |order|
    ensures forall i :: 0 <= i < |p| - 1 ==> p[i] !in order[..k]
  {
    if k > 0 {
      var node, earlier := order[k - 1], order[..k - 1];
      assert order[..k] == earlier + [node];
      assert forall d :: d in Destinations(edges, node) ==> d in earlier;
      CycleAvoids(edges, order, p, k - 1);
      forall i | 0 <= i < |p| - 1 ensures p[i] != node {
        var next := p[i + 1];
        assert next in Destinations(edges, p[i]) && next == p[if i + 1 < |p| - 1 then i + 1 else 0];
      }
    }
  }

  /** A listing of all sources in which every edge leads backward leaves no room for a cycle. */
  lemma OrderedIsAcyclic(edges: Edges, order: seq<Node>)
    requires Backward(edges, order) && forall n :: n in edges ==> n in order
    ensures !HasCycle(edges)
  {
    forall p | IsCycle(edges, p) ensures false {
      assert p[1] in Destinations(edges, p[0]) && order[..|order|] == order;
      CycleAvoids(edges, order, p, |order|);
    }
  }

  /** An edge from the end of a chain back into it closes a cycle. */
  lemma ChainCloses(edges: Edges, stack: seq<Node>, node: Node)
    requires Chain(edges, stack) && stack != [] && node in stack
    requires node in Destinations(edges, stack[|stack| - 1])
    ensures HasCycle(edges)
  {
    var i :| 0 <= i < |stack| && stack[i] == node;
    var p := stack[i..] + [node];
    forall j | 0 <= j < |p| - 1 ensures p[j + 1] in Destinations(edges, p[j]) {
      assert p[j] == stack[i + j];
      if j < |p| - 2 { assert p[j + 1] == stack[i + j + 1]; }
    }
    assert IsCycle(edges, p);
  }

  /** `visiting` is the path being explored; finished nodes are listed after everything they lead to. */
  ghost predicate Sound(edges: Edges, stack: seq<Node>, order: seq<Node>, visiting: set<Node>, visited: set<Node>, issues: nat) {
    && Chain(edges, stack) && (forall n :: n in stack <==> n in visiting)
    && (forall n :: n in order <==> n in visited)
    && visiting !! visited && visiting + visited <= Nodes(edges)
    && (issues == 0 ==> Backward(edges, order))
    && (issues > 0 ==> HasCycle(edges))
  }

  lemma Entering(edges: Edges, stack: seq<Node>, order: seq<Node>, visiting: set<Node>, visited: set<Node>, issues: nat, node: Node)
    requires Sound(edges, stack, order, visiting, visited, issues) && node in Nodes(edges) && node !in visiting && node !in visited
    requires stack != [] ==> node in Destinations(edges, stack[|stack| - 1])
    ensures Sound(edges, stack + [node], order, visiting + {node}, visited, issues)
  {
    hide Backward, HasCycle, Nodes;
  }

  lemma Leaving(edges: Edges, stack: seq<Node>, order: seq<Node>, visiting: set<Node>, visited: set<Node>, issues: nat, node: Node)
    requires Sound(edges, stack + [node], order, visiting + {node}, visited, issues) && node !in visiting
    requires (forall n :: n in stack <==> n in visiting) && Chain(edges, stack)
    requires issues == 0 ==> forall d :: d in Destinations(edges, node) ==> d in visited
    ensures Sound(edges, stack, order + [node], visiting, visited + {node}, issues)
  {
    if issues == 0 { Appended(edges, order, node); }
    hide Backward, HasCycle, Nodes, Chain;
  }

  lemma DestinationsAreNodes(edges: Edges, node: Node)
    ensures forall d :: d in Destinations(edges, node) ==> d in Nodes(edges)
  {
  }

  class Search {
    const edges: Edges
    var visiting: set<Node>
    var visited: set<Node>
    var issues: nat
    ghost var stack: seq<Node>
    ghost var order: seq<Node>

    ghost predicate Valid()
      reads this
    {
      Sound(edges, stack, order, visiting, visited, issues)
    }

    constructor (edges: Edges)
      ensures Valid() && this.edges == edges && visiting == {} && visited == {} && issues == 0 && stack == []
    {
      this.edges, visiting, visited, issues, stack, order := edges, {}, {}, 0, [], [];
    }

    /** The substitutions are searched below `node`, which the path explored so far leads to. */
    method Visit(node: Node)
      requires Valid() && node in Nodes(edges)
      requires stack != [] ==> node in Destinations(edges, stack[|stack| - 1])
      modifies this
      ensures Valid() && stack == old(stack) && visiting == old(visiting)
      ensures old(visited) <= visited && old(issues) <= issues
      ensures issues == 0 ==> node in visited
      decreases Nodes(edges) - visiting - visited
    {
      if node in visiting {
        ChainCloses(edges, stack, node);
        issues := issues + 1;
        return;
      }
      if node in visited { return; }
      ghost var all := Nodes(edges);
      Entering(edges, stack, order, visiting, visited, issues, node);
      assert Chain(edges, stack) && forall n :: n in stack <==> n in visiting;
      DestinationsAreNodes(edges, node);
      hide Sound, Nodes, Chain;
      visiting, stack := visiting + {node}, stack + [node];
      var destinations := Destinations(edges, node);
      var i := 0;
      while i < |destinations|
        invariant i <= |destinations| && Valid()
        invariant stack == old(stack) + [node] && visiting == old(visiting) + {node}
        invariant old(visited) <= visited && old(issues) <= issues
        invariant issues == 0 ==> forall j :: 0 <= j < i ==> destinations[j] in visited
      {
        assert node in all - old(visiting) - old(visited) && node !in all - visiting - visited;
        assert destinations[i] in Destinations(edges, node);
        Visit(destinations[i]);
        i := i + 1;
      }
      Leaving(edges, old(stack), order, old(visiting), visited, issues, node);
      visiting, visited := visiting - {node}, visited + {node};
      stack, order := old(stack), order + [node];
      assert visiting == old(visiting);
    }
  }

  lemma Appended(edges: Edges, order: seq<Node>, node: Node)
    requires Backward(edges, order) && forall d :: d in Destinations(edges, node) ==> d in order
    ensures Backward(edges, order + [node])
  {
    var grown := order + [node];
    forall i, d | 0 <= i < |grown| && d in Destinations(edges, grown[i]) ensures d in grown[..i] {
      assert grown[..i] == order[..i];
    }
  }

  /** Visiting every source in turn reports an issue exactly when the substitutions contain a cycle. */
  method ReportsCycle(edges: Edges) returns (reported: bool)
    ensures reported <==> HasCycle(edges)
  {
    var search := new Search(edges);
    var pending := edges.Keys;
    while pending != {}
      invariant search.Valid() && search.edges == edges && search.visiting == {} && search.stack == []
      invariant fresh(search) && pending <= edges.Keys
      invariant search.issues == 0 ==> forall n :: n in edges && n !in pending ==> n in search.visited
    {
      var node :| node in pending;
      search.Visit(node);
      pending := pending - {node};
    }
    reported := search.issues > 0;
    if !reported { OrderedIsAcyclic(edges, search.order); }
  }
}
