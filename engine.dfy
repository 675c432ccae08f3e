/**
 * The shortest-path engine: an object that holds a copy of the graph's lists
 * and the run state, rebuilt by every call of Run and read by GetPath.
 */
module ShortestPath {
  import opened GraphModel
  import opened Relaxation

  datatype Option<T> = None | Some(value: T)

  /** Each id of `path` after the first has the id before it as its predecessor. */
  ghost predicate PredecessorChain(predecessors: map<string, Vertex>, path: seq<string>)
  {
    forall i | 0 <= i < |path| - 1 :: IsPredecessor(predecessors, path[i], path[i + 1])
  }

  /** `before` is the id of the recorded predecessor of `after`. */
  ghost predicate IsPredecessor(predecessors: map<string, Vertex>, before: string, after: string)
  {
    after in predecessors && predecessors[after].id == before
  }

  class Djikstra {
    const nodes: seq<Vertex>
    const edges: seq<Edge>
    var settledNodes: set<Vertex>
    var unsettledNodes: set<Vertex>
    var predecessors: map<string, Vertex>
    var distance: map<string, int>
    /** The rank at which each id was first settled, all below `count`. */
    ghost var order: map<string, nat>
    ghost var count: nat

    /** The run state as a value. */
    ghost function State(): RunState
      reads this
    {
      RunState(settledNodes, unsettledNodes, distance, predecessors)
    }

    /** The object invariant: predecessor links are real steps and never form a cycle. */
    ghost predicate Valid()
      reads this
    {
      ChainSound(predecessors, distance, edges, order, count)
    }

    /** The rank that decreases along predecessor links. */
    ghost function Rank(id: string): nat
      reads this
    {
      if id in order then order[id] else count
    }

    constructor (graph: Graph)
      ensures nodes == graph.vertices && edges == graph.edges
      ensures State() == RunState({}, {}, map[], map[])
      ensures Valid()
    {
      nodes := graph.vertices;
      edges := graph.edges;
      settledNodes := {};
      unsettledNodes := {};
      predecessors := map[];
      distance := map[];
      order := map[];
      count := 0;
    }

    /** Compares whole vertices, so a vertex sharing only its id with a settled one is not settled. */
    predicate IsSettled(vertex: Vertex)
      reads this
    {
      vertex in settledNodes
    }

    /** The tentative distance of `destination`, `Unreached` standing for the `i32::MAX` sentinel. */
    function GetShortestDistance(destination: Vertex): Distance
      reads this
    {
      Lookup(distance, destination.id)
    }

    /**
     * Runs the algorithm from `source`: resets the run state, seeds the
     * source and settles frontier vertices in order of distance until the
     * frontier is empty.
     */
    method Run(source: Vertex)
      requires NonNegative(edges)
      modifies this
      ensures Valid()
      ensures unsettledNodes == {} && source in settledNodes
      ensures settledNodes <= Universe(source, edges)
      ensures distance.Keys == Ids(settledNodes)
      ensures source.id in distance && distance[source.id] == 0
      ensures predecessors.Keys == distance.Keys - {source.id}
      ensures Relaxed(edges, distance)
    {
      settledNodes := {};
      unsettledNodes := {};
      distance := map[];
      predecessors := map[];
      distance := distance[source.id := 0];
      unsettledNodes := unsettledNodes + {source};
      order, count := map[], 0;
      SeedEstablishesInv(source, edges);
      assert State() == Seed(source);

      while |unsettledNodes| > 0
        invariant Inv(State(), source, edges, order, count)
        decreases |Universe(source, edges) - settledNodes|
      {
        var minimum := GetMinimum(unsettledNodes);
        match minimum
        case None =>
          // The panic of the source: the loop guard makes it unreachable.
          assert false;
        case Some(node) =>
          ghost var before := State();
          ghost var order0, count0 := order, count;
          settledNodes := settledNodes + {node};
          // src/lib.rs:79 inserts `node` into the frontier again; a remove is meant.
          unsettledNodes := unsettledNodes - {node};
          order, count := Stamp(order, count, node.id), Bump(order, count, node.id);
          FindMinimalDistance(node);
          assert State() == Step(before, edges, node);
          StepPreservesInv(before, source, edges, order0, count0, node);
          assert node in Universe(source, edges) && node !in before.settled;
          SettlingShrinks(Universe(source, edges), before.settled, node);
      }
      RunComplete(State(), source, edges, order, count);
    }

    /** Relaxes every edge from `node` to a vertex that is not settled. */
    method FindMinimalDistance(node: Vertex)
      modifies this
      ensures settledNodes == old(settledNodes)
      ensures order == old(order) && count == old(count)
      ensures State() == RelaxAll(old(State()), edges, node, Neighbors(edges, node.id, old(settledNodes)))
    {
      var adjacentNodes := GetNeighbors(node);
      ghost var start := State();
      for i := 0 to |adjacentNodes|
        invariant settledNodes == start.settled
        invariant order == old(order) && count == old(count)
        invariant State() == RelaxAll(start, edges, node, adjacentNodes[..i])
      {
        var target := adjacentNodes[i];
        var weight := GetDistance(node, target);
        // src/lib.rs:90-91 compares the target's distance with itself plus the
        // weight; the distance through `node` (line 95) is meant.
        var candidate := Plus(GetShortestDistance(node), weight);
        if Less(candidate, GetShortestDistance(target)) {
          distance := distance[target.id := candidate.value];
          predecessors := predecessors[target.id := node];
          unsettledNodes := unsettledNodes + {target};
        }
        assert adjacentNodes[..i + 1][..i] == adjacentNodes[..i];
      }
      assert adjacentNodes[..|adjacentNodes|] == adjacentNodes;
    }

    /** The weight of the last edge from `node` to `target`, or 0 when there is none. */
    method GetDistance(node: Vertex, target: Vertex) returns (weight: int)
      ensures weight == LastWeight(edges, node.id, target.id)
    {
      weight := 0;
      for i := 0 to |edges|
        invariant weight == LastWeight(edges[..i], node.id, target.id)
      {
        if edges[i].source.id == node.id && edges[i].destination.id == target.id {
          weight := edges[i].weight;
        }
        assert edges[..i + 1][..i] == edges[..i];
      }
      assert edges[..|edges|] == edges;
    }

    /** The unsettled destinations of the edges leaving `node`, one per edge, in list order. */
    method GetNeighbors(node: Vertex) returns (neighbors: seq<Vertex>)
      ensures neighbors == Neighbors(edges, node.id, settledNodes)
    {
      neighbors := [];
      for i := 0 to |edges|
        invariant neighbors == Neighbors(edges[..i], node.id, settledNodes)
      {
        if edges[i].source.id == node.id && !IsSettled(edges[i].destination) {
          neighbors := neighbors + [edges[i].destination];
        }
        assert edges[..i + 1][..i] == edges[..i];
      }
      assert edges[..|edges|] == edges;
    }

    /** A member of `vertices` with the smallest tentative distance, or None when it is empty. */
    method GetMinimum(vertices: set<Vertex>) returns (minimum: Option<Vertex>)
      ensures minimum.None? <==> vertices == {}
      ensures minimum.Some? ==> minimum.value in vertices
      ensures minimum.Some? ==>
                forall v | v in vertices :: !Less(GetShortestDistance(v), GetShortestDistance(minimum.value))
    {
      minimum := None;
      var rest := vertices;
      while rest != {}
        invariant rest <= vertices
        invariant minimum.None? <==> rest == vertices
        invariant minimum.Some? ==> minimum.value in vertices
        invariant minimum.Some? ==>
                    forall v | v in vertices - rest :: !Less(GetShortestDistance(v), GetShortestDistance(minimum.value))
        decreases rest
      {
        var vertex :| vertex in rest;
        if minimum == None {
          minimum := Some(vertex);
        } else if Less(GetShortestDistance(vertex), GetShortestDistance(minimum.value)) {
          minimum := Some(vertex);
        }
        rest := rest - {vertex};
      }
    }

    /**
     * The ids from the start of `target`'s predecessor chain to `target`;
     * empty when `target` has no predecessor (the source, or an unreached vertex).
     */
    method GetPath(target: Vertex) returns (path: seq<string>)
      requires Valid()
      ensures path == [] <==> target.id !in predecessors
      ensures path != [] ==>
                && |path| >= 2 && path[|path| - 1] == target.id
                && path[0] !in predecessors && path[0] in distance
                && PredecessorChain(predecessors, path)
                && IsWalk(edges, path)
                && distance[target.id] == distance[path[0]] + PathWeight(edges, path)
    {
      if target.id !in predecessors {
        return [];
      }
      // The source pushes each id and reverses the list at the end; this
      // builds the same list by prepending.
      path := [target.id];
      var id := target.id;
      // src/lib.rs:157-161 never advances `id`; following the chain is meant.
      while id in predecessors
        invariant |path| >= 1 && path[0] == id && path[|path| - 1] == target.id
        invariant id in distance
        invariant PredecessorChain(predecessors, path)
        invariant IsWalk(edges, path)
        invariant distance[target.id] == distance[id] + PathWeight(edges, path)
        decreases Rank(id)
      {
        var step := predecessors[id];
        assert LinkSound(predecessors, distance, edges, order, id);
        path := [step.id] + path;
        id := step.id;
      }
    }
  }

  /**
   * Builds an engine over `graph`, runs it from `source` and asks for the
   * path to `target`. The path is empty exactly when `target` is the source
   * or unreachable; otherwise it is a walk from the source to `target` that
   * no other walk between them undercuts.
   */
  method ShortestRoute(graph: Graph, source: Vertex, target: Vertex) returns (path: seq<string>)
    requires NonNegative(graph.edges)
    ensures path != [] ==> path[0] == source.id && path[|path| - 1] == target.id && target.id != source.id
    ensures path != [] ==> IsWalk(graph.edges, path)
    ensures forall w | IsWalk(graph.edges, w) && |w| >= 1 && w[0] == source.id && w[|w| - 1] == target.id ::
              (target.id != source.id ==> path != []) && PathWeight(graph.edges, path) <= PathWeight(graph.edges, w)
  {
    var engine := new Djikstra(graph);
    engine.Run(source);
    path := engine.GetPath(target);
    forall w | IsWalk(graph.edges, w) && |w| >= 1 && w[0] == source.id && w[|w| - 1] == target.id
      ensures (target.id != source.id ==> path != []) && PathWeight(graph.edges, path) <= PathWeight(graph.edges, w)
    {
      RelaxedBoundsEveryWalk(engine.edges, engine.distance, w);
    }
  }

  /** The graph of the repository's test: five vertices A to E and eight lanes. */
  const TestGraph: Graph :=
    var a, b, c, d, e := Vertex("A", "A"), Vertex("B", "B"), Vertex("C", "C"), Vertex("D", "D"), Vertex("E", "E");
    Graph([a, b, c, d, e],
          [Edge("AB", a, b, 10), Edge("AD", a, d, 80), Edge("BE", b, e, 20), Edge("BC", b, c, 50),
           Edge("DC", d, c, 50), Edge("CE", c, e, 50), Edge("EC", e, c, 20), Edge("ED", e, d, 40)])

  /** The test's lanes have non-negative weights and join A to E through B. */
  lemma TestGraphFacts()
    ensures NonNegative(TestGraph.edges)
    ensures IsWalk(TestGraph.edges, ["A", "B", "E"])
  {
    assert Joins(TestGraph.edges[0], "A", "B") && Joins(TestGraph.edges[2], "B", "E");
  }

  /**
   * The route from A to E in the test's graph is non-empty, as the test
   * asserts, and runs from A to E.
   */
  method TestGraphRoute() returns (path: seq<string>)
    ensures path != [] && path[0] == "A" && path[|path| - 1] == "E"
  {
    TestGraphFacts();
    path := ShortestRoute(TestGraph, TestGraph.vertices[0], TestGraph.vertices[4]);
    var walk := ["A", "B", "E"];
    assert IsWalk(TestGraph.edges, walk);
  }
}
