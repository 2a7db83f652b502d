/** Dependency graphs and the depth-first walk that both the catalog check
    (internal/catalog/catalog.go) and the planner (internal/planner/planner.go) perform. */
module DependencyGraph {
  import opened Wrappers

  type Id = string
  type Graph = map<Id, seq<Id>>

  predicate Edge(g: Graph, a: Id, b: Id) {
    a in g && b in g[a]
  }

  predicate Path(g: Graph, p: seq<Id>) {
    forall i | 0 <= i < |p| - 1 :: Edge(g, p[i], p[i + 1])
  }

  /** A walk of at least one edge that ends where it started. */
  ghost predicate Cyclic(g: Graph) {
    exists p :: IsCycle(g, p)
  }

  predicate IsCycle(g: Graph, p: seq<Id>) {
    |p| >= 2 && Path(g, p) && p[0] == p[|p| - 1]
  }

  predicate Distinct<T(==)>(s: seq<T>) {
    forall i, j | 0 <= i < j < |s| :: s[i] != s[j]
  }

  /** Every dependency stands strictly before the component that declares it. */
  predicate DependenciesFirst(g: Graph, order: seq<Id>) {
    forall i | 0 <= i < |order| && order[i] in g :: forall d <- g[order[i]] :: d in order[..i]
  }

  predicate Topological(g: Graph, order: seq<Id>) {
    Distinct(order) && DependenciesFirst(g, order)
  }

  lemma TopologicalExtend(g: Graph, order: seq<Id>, id: Id)
    requires Topological(g, order) && id !in order
    requires id in g ==> forall d <- g[id] :: d in order
    ensures Topological(g, order + [id])
  {
    var longer := order + [id];
    forall i | 0 <= i < |longer| && longer[i] in g
      ensures forall d <- g[longer[i]] :: d in longer[..i]
    {
      assert longer[..i] == order[..i];
    }
  }

  /** Along a path the positions in a topological order only go down. */
  lemma {:induction false} PathDescends(g: Graph, order: seq<Id>, p: seq<Id>, at: nat) returns (end: nat)
    requires Topological(g, order) && Path(g, p) && |p| > 0
    requires at < |order| && order[at] == p[0]
    ensures end <= at && order[end] == p[|p| - 1]
    ensures |p| >= 2 ==> end < at
  {
    if |p| == 1 {
      end := at;
    } else {
      assert Edge(g, p[0], p[1]);
      assert p[1] in order[..at];
      var next :| 0 <= next < at && order[next] == p[1];
      assert Path(g, p[1..]) by {
        forall i | 0 <= i < |p[1..]| - 1
          ensures Edge(g, p[1..][i], p[1..][i + 1])
        {
          assert Edge(g, p[i + 1], p[i + 2]);
        }
      }
      end := PathDescends(g, order, p[1..], next);
    }
  }

  lemma TopologicalMeansAcyclic(g: Graph, order: seq<Id>)
    requires Topological(g, order) && forall a <- g :: a in order
    ensures !Cyclic(g)
  {
    forall p
      ensures !IsCycle(g, p)
    {
      if IsCycle(g, p) {
        assert Edge(g, p[0], p[1]);
        var at :| 0 <= at < |order| && order[at] == p[0];
        var end := PathDescends(g, order, p, at);
      }
    }
  }

  /** A path that comes back to a node it has passed contains a cycle. */
  lemma RevisitIsACycle(g: Graph, trail: seq<Id>)
    requires Path(g, trail) && |trail| > 0 && trail[|trail| - 1] in trail[..|trail| - 1]
    ensures Cyclic(g)
  {
    var i :| 0 <= i < |trail| - 1 && trail[i] == trail[|trail| - 1];
    var p := trail[i..];
    forall k | 0 <= k < |p| - 1 ensures Edge(g, p[k], p[k + 1]) { assert Edge(g, trail[i + k], trail[i + k + 1]); }
    assert IsCycle(g, p);
  }

  // ---------------------------------------------------------------- the walk

  datatype Mark = Visiting | Visited

  datatype WalkError = CycleFound(trail: seq<Id>) | UnknownComponent(id: Id)

  class Walk {
    const graph: Graph
    const rejectUnknown: bool
    ghost const universe: set<Id>
    var state: map<Id, Mark>
    var stack: seq<Id>
    var ordered: seq<Id>

    constructor (graph: Graph, rejectUnknown: bool, ghost universe: set<Id>)
      requires graph.Keys <= universe && forall a <- graph :: forall d <- graph[a] :: d in universe
      ensures Valid() && stack == [] && ordered == []
      ensures this.graph == graph && this.rejectUnknown == rejectUnknown && this.universe == universe
    {
      this.graph, this.rejectUnknown, this.universe := graph, rejectUnknown, universe;
      state, stack, ordered := map[], [], [];
    }

    ghost predicate Valid()
      reads this
    {
      && graph.Keys <= universe && (forall a <- graph :: forall d <- graph[a] :: d in universe)
      && state.Keys <= universe
      && (forall id <- state :: state[id].Visited? <==> id in ordered)
      && (forall id <- state :: state[id].Visiting? <==> id in stack)
      && (forall id <- ordered :: id in state)
      && (forall id <- stack :: id in state)
      && Distinct(stack) && Path(graph, stack)
      && Topological(graph, ordered)
    }

    method Enter(id: Id)
      requires Valid() && id in universe && id !in state
      requires stack != [] ==> Edge(graph, stack[|stack| - 1], id)
      modifies this`state, this`stack
      ensures Valid() && state == old(state)[id := Visiting] && stack == old(stack) + [id]
    {
      state := state[id := Visiting];
      stack := stack + [id];
    }

    method Leave(id: Id)
      requires Valid() && stack != [] && stack[|stack| - 1] == id && id !in ordered
      requires id in graph ==> forall d <- graph[id] :: d in ordered
      modifies this
      ensures Valid() && state.Keys == old(state).Keys
      ensures stack == old(stack)[..|old(stack)| - 1] && ordered == old(ordered) + [id]
    {
      TopologicalExtend(graph, ordered, id);
      stack := stack[..|stack| - 1];
      assert old(stack) == stack + [id];
      state := state[id := Visited];
      ordered := ordered + [id];
    }

    /** Marks everything `id` depends on, then `id` itself. */
    method Visit(id: Id) returns (error: Option<WalkError>)
      requires Valid() && id in universe
      requires stack != [] ==> Edge(graph, stack[|stack| - 1], id)
      modifies this
      ensures Valid() && old(state).Keys <= state.Keys && old(ordered) <= ordered
      ensures error.None? ==> id in ordered && stack == old(stack)
      ensures error.Some? ==> Explained(error.value)
      decreases universe - state.Keys, 0
    {
      if id in state && state[id].Visiting? {
        var trail := stack + [id];
        assert trail[..|trail| - 1] == stack;
        RevisitIsACycle(graph, trail);
        return Some(CycleFound(trail));
      }
      if id in state {
        return None;
      }
      Enter(id);
      if rejectUnknown && id !in graph {
        return Some(UnknownComponent(id));
      }
      error := VisitDependencies(id, if id in graph then graph[id] else []);
      if error.Some? { return; }
      assert id in stack;
      Leave(id);
      return None;
    }

    method VisitDependencies(id: Id, dependencies: seq<Id>) returns (error: Option<WalkError>)
      requires Valid() && stack != [] && stack[|stack| - 1] == id
      requires dependencies == if id in graph then graph[id] else []
      modifies this
      ensures Valid() && old(state).Keys <= state.Keys && old(ordered) <= ordered
      ensures error.None? ==> stack == old(stack) && forall d <- dependencies :: d in ordered
      ensures error.Some? ==> Explained(error.value)
      decreases universe - state.Keys, 1
    {
      for k := 0 to |dependencies|
        invariant Valid() && stack == old(stack)
        invariant old(state).Keys <= state.Keys && old(ordered) <= ordered
        invariant forall j | 0 <= j < k :: dependencies[j] in ordered
      {
        assert Edge(graph, id, dependencies[k]);
        error := Visit(dependencies[k]);
        if error.Some? { return; }
      }
      return None;
    }

    /** Visits the roots in the order given; a root already marked returns at once. */
    method VisitRoots(roots: seq<Id>) returns (error: Option<WalkError>)
      requires Valid() && stack == [] && ordered == [] && forall id <- roots :: id in universe
      modifies this
      ensures error.Some? ==> Explained(error.value)
      ensures error.None? ==> Topological(graph, ordered)
      ensures error.None? ==> (forall id <- roots :: id in ordered) && (forall id <- ordered :: id in universe)
    {
      for i := 0 to |roots|
        invariant Valid() && stack == []
        invariant forall j | 0 <= j < i :: roots[j] in ordered
      {
        error := Visit(roots[i]);
        if error.Some? { return; }
      }
      return None;
    }

    ghost predicate Explained(error: WalkError) {
      match error
      case CycleFound(_) => Cyclic(graph)
      case UnknownComponent(id) => rejectUnknown && id in universe - graph.Keys
    }
  }
}
