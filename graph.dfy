/**
 * The graph model: vertices, directed weighted edges and the graph that holds
 * them, together with the views of an edge list that the engine computes by
 * scanning it (the weight it charges for a step, and walks along edges).
 */
module GraphModel {

  /** A vertex. Its derived equality compares both `id` and `name`. */
  datatype Vertex = Vertex(id: string, name: string)

  /** A directed edge from `source` to `destination`; the 32-bit weight is an `int`. */
  datatype Edge = Edge(id: string, source: Vertex, destination: Vertex, weight: int)

  /** The vertex and edge lists, in the caller's order; nothing is validated. */
  datatype Graph = Graph(vertices: seq<Vertex>, edges: seq<Edge>)

  /** `e` leads from the vertex with id `from` to the vertex with id `to`. */
  predicate Joins(e: Edge, from: string, to: string)
  {
    e.source.id == from && e.destination.id == to
  }

  /** The engine's precondition: no edge has a negative weight. */
  predicate NonNegative(edges: seq<Edge>)
  {
    forall e | e in edges :: e.weight >= 0
  }

  /**
   * The weight the engine charges for the step `from` -> `to`: the weight of
   * the LAST edge in list order that joins them, or 0 when none does.
   * Defined on the prefix so that it follows the scan left to right.
   */
  function LastWeight(edges: seq<Edge>, from: string, to: string): int
    decreases |edges|
  {
    if edges == [] then 0
    else if Joins(edges[|edges| - 1], from, to) then edges[|edges| - 1].weight
    else LastWeight(edges[..|edges| - 1], from, to)
  }

  /** Some edge of the list leads from `from` to `to`. */
  ghost predicate Linked(edges: seq<Edge>, from: string, to: string)
  {
    exists e | e in edges :: Joins(e, from, to)
  }

  /** `p` is a sequence of vertex ids in which each step follows some edge. */
  ghost predicate IsWalk(edges: seq<Edge>, p: seq<string>)
  {
    forall i | 0 <= i < |p| - 1 :: Linked(edges, p[i], p[i + 1])
  }

  /** The cost of a sequence of vertex ids, each step charged as the engine does. */
  function PathWeight(edges: seq<Edge>, p: seq<string>): int
    decreases |p|
  {
    if |p| < 2 then 0 else LastWeight(edges, p[0], p[1]) + PathWeight(edges, p[1..])
  }

  /** Edge `k` joins the pair and no later edge of the list does. */
  ghost predicate LastMatchAt(edges: seq<Edge>, from: string, to: string, k: int)
  {
    0 <= k < |edges| && Joins(edges[k], from, to) &&
    forall j | k < j < |edges| :: !Joins(edges[j], from, to)
  }

  /** LastWeight is the weight of the matching edge that no later edge overrides. */
  lemma {:induction false} LastWeightIsLastMatch(edges: seq<Edge>, from: string, to: string, k: int)
    requires LastMatchAt(edges, from, to, k)
    ensures LastWeight(edges, from, to) == edges[k].weight
  {
    var n := |edges| - 1;
    if k < n {
      assert !Joins(edges[n], from, to);
      var init := edges[..n];
      assert init[k] == edges[k];
      assert forall j | k < j < n :: init[j] == edges[j];
      LastWeightIsLastMatch(init, from, to, k);
    }
  }

  /** LastWeight is 0 when no edge of the list joins the pair. */
  lemma {:induction false} LastWeightWithoutMatch(edges: seq<Edge>, from: string, to: string)
    requires forall e | e in edges :: !Joins(e, from, to)
    ensures LastWeight(edges, from, to) == 0
  {
    if edges != [] {
      var init := edges[..|edges| - 1];
      assert forall e | e in init :: e in edges;
      LastWeightWithoutMatch(init, from, to);
    }
  }

  /** With non-negative weights every step is charged a non-negative weight. */
  lemma {:induction false} LastWeightNonNegative(edges: seq<Edge>, from: string, to: string)
    requires NonNegative(edges)
    ensures LastWeight(edges, from, to) >= 0
  {
    if edges != [] && !Joins(edges[|edges| - 1], from, to) {
      var init := edges[..|edges| - 1];
      assert forall e | e in init :: e in edges;
      LastWeightNonNegative(init, from, to);
    }
  }

  /** A pair joined by exactly one edge is charged that edge's weight. */
  lemma SingleEdgeWeight(edges: seq<Edge>, k: nat)
    requires k < |edges|
    requires forall j | 0 <= j < |edges| && j != k :: !Joins(edges[j], edges[k].source.id, edges[k].destination.id)
    ensures LastWeight(edges, edges[k].source.id, edges[k].destination.id) == edges[k].weight
  {
    LastWeightIsLastMatch(edges, edges[k].source.id, edges[k].destination.id, k);
  }
}
