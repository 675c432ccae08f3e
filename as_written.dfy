/**
 * Three places where src/lib.rs does not do what it evidently means, each
 * modelled as written and shown to go wrong. The rest of the model uses the
 * corrected behaviour.
 */
module AsWritten {
  import opened GraphModel
  import opened Relaxation

  /**
   * src/lib.rs:78-79 as written: the selected vertex is added to the settled
   * set and inserted into the frontier again instead of being removed.
   */
  function SettleAsWritten(st: RunState, m: Vertex): RunState
  {
    st.(settled := st.settled + {m}, unsettled := st.unsettled + {m})
  }

  /** One iteration of the loop at src/lib.rs:76-84 as written. */
  function IterationAsWritten(st: RunState, edges: seq<Edge>, m: Vertex): RunState
  {
    var s1 := SettleAsWritten(st, m);
    RelaxAll(s1, edges, m, Neighbors(edges, m.id, s1.settled))
  }

  /**
   * As written, an iteration never shrinks the frontier, so the guard
   * `unsettled_nodes.len() > 0` stays true and `run` never returns.
   */
  lemma FrontierNeverShrinksAsWritten(st: RunState, edges: seq<Edge>, m: Vertex)
    requires m in st.unsettled
    ensures st.unsettled <= IterationAsWritten(st, edges, m).unsettled
    ensures |IterationAsWritten(st, edges, m).unsettled| > 0
  {
    var s1 := SettleAsWritten(st, m);
    RelaxAllKeepsSets(s1, edges, m, Neighbors(edges, m.id, s1.settled));
  }

  /** The bounds of the source's 32-bit distances; `I32Max` is also its "no distance" sentinel. */
  const I32Max: int := 0x7fff_ffff
  const I32Min: int := -0x8000_0000

  /** What `get_shortest_distance` returns: the stored distance, or the sentinel. */
  function StoredOrSentinel(distance: map<string, int>, id: string): int
  {
    if id in distance then distance[id] else I32Max
  }

  /** The outcome of the comparison at src/lib.rs:90-91 in a debug build. */
  datatype Comparison = Greater | NotGreater | Overflow

  /**
   * src/lib.rs:90-91 as written, in a debug build: the target's distance is
   * compared with itself plus the step's weight, and an out-of-range sum
   * is an overflow, which panics.
   */
  function CompareAsWritten(distance: map<string, int>, edges: seq<Edge>, node: Vertex, target: Vertex): Comparison
  {
    var current := StoredOrSentinel(distance, target.id);
    var sum := current + LastWeight(edges, node.id, target.id);
    if sum < I32Min || sum > I32Max then Overflow
    else if current > sum then Greater
    else NotGreater
  }

  /**
   * In a debug build, with non-negative weights, the comparison as written
   * never holds: a reached target is never improved, and an unreached one
   * panics on any positive weight.
   */
  lemma NeverImprovesAsWritten(distance: map<string, int>, edges: seq<Edge>, node: Vertex, target: Vertex)
    requires NonNegative(edges)
    ensures CompareAsWritten(distance, edges, node, target) != Greater
    ensures target.id !in distance && LastWeight(edges, node.id, target.id) > 0 ==>
              CompareAsWritten(distance, edges, node, target) == Overflow
  {
    LastWeightNonNegative(edges, node.id, target.id);
  }

  /** A three-vertex graph: A -> B costs 80, A -> C costs 10 and C -> B costs 10. */
  const A: Vertex := Vertex("A", "A")
  const B: Vertex := Vertex("B", "B")
  const C: Vertex := Vertex("C", "C")
  const Triangle: seq<Edge> := [Edge("AB", A, B, 80), Edge("AC", A, C, 10), Edge("CB", C, B, 10)]

  /**
   * Settling the source A in a debug build: as written the edge to the
   * unreached B overflows, while the intended relaxation reaches B at
   * distance 80.
   */
  lemma OverflowsOnFirstEdgeAsWritten()
    ensures CompareAsWritten(Settle(Seed(A), A).distance, Triangle, A, B) == Overflow
    ensures var r := RelaxAll(Settle(Seed(A), A), Triangle, A, [B]);
      "B" in r.distance && r.distance["B"] == 80
  {
    assert [B][..0] == [];
    assert Triangle[..2][..1] == Triangle[..1];
    assert LastWeight(Triangle[..1], "A", "B") == 80;
    assert LastWeight(Triangle, "A", "B") == 80;
  }

  /** Two's-complement wrap-around to 32 bits, as release builds add `i32`s. */
  function Wrap32(x: int): (r: int)
    ensures I32Min <= r <= I32Max
    ensures (r - x) % 0x1_0000_0000 == 0
  {
    (x - I32Min) % 0x1_0000_0000 + I32Min
  }

  /** The comparison at src/lib.rs:90-91 as written, in a release build. */
  predicate GreaterWrapping(distance: map<string, int>, edges: seq<Edge>, node: Vertex, target: Vertex)
  {
    var current := StoredOrSentinel(distance, target.id);
    current > Wrap32(current + LastWeight(edges, node.id, target.id))
  }

  /** Every weight and stored distance is an `i32` value. */
  predicate FitsI32(distance: map<string, int>, edges: seq<Edge>)
  {
    && (forall e | e in edges :: I32Min <= e.weight <= I32Max)
    && (forall k | k in distance :: I32Min <= distance[k] <= I32Max)
  }

  /** A charged weight is one of the edges' weights or 0, so it lies within their bound. */
  lemma {:induction false} LastWeightAtMost(edges: seq<Edge>, from: string, to: string)
    requires forall e | e in edges :: e.weight <= I32Max
    ensures LastWeight(edges, from, to) <= I32Max
  {
    if edges != [] && !Joins(edges[|edges| - 1], from, to) {
      var init := edges[..|edges| - 1];
      assert forall e | e in init :: e in edges;
      LastWeightAtMost(init, from, to);
    }
  }

  /**
   * In a release build, with non-negative weights, the comparison as written
   * holds exactly when the sum wraps: for an unreached target, exactly when
   * the weight is positive; for a target whose sum stays in range, never.
   */
  lemma GreaterWrappingExactlyOnWrap(distance: map<string, int>, edges: seq<Edge>, node: Vertex, target: Vertex)
    requires NonNegative(edges) && FitsI32(distance, edges)
    ensures GreaterWrapping(distance, edges, node, target) <==>
              StoredOrSentinel(distance, target.id) + LastWeight(edges, node.id, target.id) > I32Max
    ensures target.id !in distance ==>
              (GreaterWrapping(distance, edges, node, target) <==> LastWeight(edges, node.id, target.id) > 0)
  {
    var w := LastWeight(edges, node.id, target.id);
    LastWeightNonNegative(edges, node.id, target.id);
    LastWeightAtMost(edges, node.id, target.id);
    var current := StoredOrSentinel(distance, target.id);
    var sum := current + w;
    if sum > I32Max {
      assert sum - 0x1_0000_0000 <= I32Max;
      WrapOnce(sum);
    } else {
      assert Wrap32(sum) == sum by { WrapInRange(sum); }
    }
  }

  /** A value in range is its own wrap. */
  lemma WrapInRange(x: int)
    requires I32Min <= x <= I32Max
    ensures Wrap32(x) == x
  {
    assert (x - I32Min) % 0x1_0000_0000 == x - I32Min;
  }

  /** A value at most one 32-bit span above the range wraps by one span. */
  lemma WrapOnce(x: int)
    requires I32Max < x <= I32Max + 0x1_0000_0000
    ensures Wrap32(x) == x - 0x1_0000_0000
  {
    assert (x - I32Min) % 0x1_0000_0000 == x - I32Min - 0x1_0000_0000;
  }

  /** One relaxation at src/lib.rs:90-98 as written, in a release build. */
  function RelaxOneWrapping(st: RunState, edges: seq<Edge>, node: Vertex, target: Vertex): RunState
  {
    if GreaterWrapping(st.distance, edges, node, target) then
      RunState(st.settled, st.unsettled + {target},
               st.distance[target.id := Wrap32(StoredOrSentinel(st.distance, node.id) + LastWeight(edges, node.id, target.id))],
               st.predecessors[target.id := node])
    else st
  }

  /** The pass at src/lib.rs:89-100 as written, in a release build. */
  function RelaxAllWrapping(st: RunState, edges: seq<Edge>, node: Vertex, targets: seq<Vertex>): RunState
    decreases |targets|
  {
    if targets == [] then st
    else RelaxOneWrapping(RelaxAllWrapping(st, edges, node, targets[..|targets| - 1]), edges, node, targets[|targets| - 1])
  }

  /** The weights and neighbour lists the engine computes on the triangle. */
  lemma TriangleScans()
    ensures LastWeight(Triangle, "A", "B") == 80
    ensures LastWeight(Triangle, "A", "C") == 10
    ensures LastWeight(Triangle, "C", "B") == 10
    ensures Neighbors(Triangle, "A", {A}) == [B, C]
    ensures Neighbors(Triangle, "C", {A, C}) == [B]
  {
    var one, two := Triangle[..1], Triangle[..2];
    assert two[..1] == one && one[..0] == [];
    assert Triangle[..|Triangle| - 1] == two && two[..|two| - 1] == one;
    assert LastWeight(one, "A", "B") == 80;
    assert LastWeight(two, "A", "B") == 80;
    assert LastWeight(two, "A", "C") == 10;
    assert Neighbors(one, "A", {A}) == [B];
    assert Neighbors(two, "A", {A}) == [B, C];
    assert Neighbors(one, "C", {A, C}) == [];
    assert Neighbors(two, "C", {A, C}) == [];
  }

  /**
   * A release build on the triangle, with the removal of line 79 in place:
   * settling A sets B to 80 and C to 10 through the wrapping comparison;
   * settling C then leaves B at 80, although the intended pass lowers it to
   * 20 through C.
   */
  lemma MissesShorterRouteAsWritten()
    ensures Neighbors(Triangle, "A", {A}) == [B, C] && Neighbors(Triangle, "C", {A, C}) == [B]
    ensures var s1 := RelaxAllWrapping(Settle(Seed(A), A), Triangle, A, [B, C]);
      && s1 == RelaxAll(Settle(Seed(A), A), Triangle, A, [B, C])
      && s1.distance == map["A" := 0, "B" := 80, "C" := 10]
      && CompareAsWritten(s1.distance, Triangle, C, B) == NotGreater
      && RelaxAllWrapping(Settle(s1, C), Triangle, C, [B]).distance["B"] == 80
      && var r := RelaxAll(Settle(s1, C), Triangle, C, [B]);
      && "B" in r.distance && r.distance["B"] == 20
      && "B" in r.predecessors && r.predecessors["B"] == C
  {
    TriangleScans();
    FirstPassOnTriangle();
    SecondPassOnTriangle();
  }

  /** The state after settling A on the triangle: B at 80 and C at 10, both through A. */
  const AfterA: RunState := RunState({A}, {B, C}, map["A" := 0, "B" := 80, "C" := 10], map["B" := A, "C" := A])

  /** The state after settling A and relaxing its edge to B. */
  const AfterAB: RunState := RunState({A}, {B}, map["A" := 0, "B" := 80], map["B" := A])

  /** Settling A on the triangle gives AfterA both as written (release build) and as intended. */
  lemma FirstPassOnTriangle()
    ensures RelaxAllWrapping(Settle(Seed(A), A), Triangle, A, [B, C]) == AfterA
    ensures RelaxAll(Settle(Seed(A), A), Triangle, A, [B, C]) == AfterA
  {
    var s0 := Settle(Seed(A), A);
    assert [B, C][..1] == [B] && [B][..0] == [];
    RelaxFromAToB();
    RelaxFromAToC();
    assert RelaxAllWrapping(s0, Triangle, A, [B]) == RelaxOneWrapping(s0, Triangle, A, B);
    assert RelaxAll(s0, Triangle, A, [B]) == RelaxOne(s0, Triangle, A, B);
  }

  /** Relaxing A -> B right after settling A. */
  lemma RelaxFromAToB()
    ensures RelaxOneWrapping(Settle(Seed(A), A), Triangle, A, B) == AfterAB
    ensures RelaxOne(Settle(Seed(A), A), Triangle, A, B) == AfterAB
  {
    TriangleScans();
    WrapOnce(I32Max + 80);
    WrapInRange(80);
  }

  /** Relaxing A -> C after A -> B. */
  lemma RelaxFromAToC()
    ensures RelaxOneWrapping(AfterAB, Triangle, A, C) == AfterA
    ensures RelaxOne(AfterAB, Triangle, A, C) == AfterA
  {
    TriangleScans();
    WrapOnce(I32Max + 10);
    WrapInRange(10);
  }

  /** Settling C after AfterA: as written B keeps 80, as intended it drops to 20 through C. */
  lemma SecondPassOnTriangle()
    ensures CompareAsWritten(AfterA.distance, Triangle, C, B) == NotGreater
    ensures RelaxAllWrapping(Settle(AfterA, C), Triangle, C, [B]).distance["B"] == 80
    ensures var r := RelaxAll(Settle(AfterA, C), Triangle, C, [B]);
      && "B" in r.distance && r.distance["B"] == 20
      && "B" in r.predecessors && r.predecessors["B"] == C
  {
    TriangleScans();
    assert [B][..0] == [];
    WrapInRange(90);
  }

  /**
   * src/lib.rs:157-161 as written: `id` is never reassigned, so after `n`
   * iterations the path holds the target and `n` copies of its predecessor.
   */
  function PathAfterAsWritten(predecessors: map<string, Vertex>, target: Vertex, n: nat): seq<string>
    requires target.id in predecessors
  {
    if n == 0 then [target.id] else PathAfterAsWritten(predecessors, target, n - 1) + [predecessors[target.id].id]
  }

  /**
   * As written, when the target has a predecessor the loop guard holds after
   * every iteration and the path keeps growing: `get_path` never returns.
   */
  lemma {:induction false} PathLoopNeverEndsAsWritten(predecessors: map<string, Vertex>, target: Vertex, n: nat)
    requires target.id in predecessors
    ensures |PathAfterAsWritten(predecessors, target, n)| == n + 1
    ensures forall i | 1 <= i < n + 1 :: PathAfterAsWritten(predecessors, target, n)[i] == predecessors[target.id].id
  {
    if n > 0 {
      PathLoopNeverEndsAsWritten(predecessors, target, n - 1);
    }
  }
}
