# Dijkstra shortest paths — a verified model

This project models the shortest-path engine of `src/lib.rs`. Its parts:

- the `Vertex`, `Edge` and `Graph` records;
- the `Djikstra` object, which copies a graph's vertex and edge lists;
- `run`, which computes tentative distances and predecessors from a source vertex, settling the frontier vertex with the smallest distance until the frontier is empty;
- `get_path`, which follows the predecessors back from a target and returns the ids from the source to the target.

The Dafny is split into four modules:

- `GraphModel` (`graph.dfy`) holds the records and the weight the engine charges for a step. It also defines walks and their cost.
- `Relaxation` (`relaxation.dfy`) holds the run state as a value, the relaxation pass as a function, and the loop invariant of `run` with its preservation proof. It also proves that the final distances bound every walk.
- `ShortestPath` (`engine.dfy`) holds the `Djikstra` class, whose methods update its fields in place. Each method is proved against the functions of `Relaxation`. `ShortestRoute` proves the end-to-end property: the path returned is a walk from the source to the target, and no other walk costs less.
- `AsWritten` (`as_written.dfy`) models three places in `src/lib.rs` as written and shows where each goes wrong (see Findings). The comparison at lines 90-91 behaves differently by build mode, so it is modelled twice. A debug build checks `i32` overflow and panics. A release build wraps around.

Modelling choices:

- **Constructors.** `Vertex::new`, `Edge::new` and `Graph::new` are the datatype constructors.
- **Distances.** `get_shortest_distance` (lines 141-147) returns the `i32::MAX` sentinel when a vertex has no distance. The model calls `Relaxation.Lookup` and writes that sentinel as `Unreached`. An absent distance is a key missing from the `distance` map. `Unreached` is never less than anything, and adding a weight to it leaves it `Unreached`.
- **Vertex equality.** `is_settled` (lines 137-139) and the vertex sets compare whole vertices, both `id` and `name`, as the derived `PartialEq`/`Hash` do. The maps are keyed by `id` alone.
- **Parallel edges.** `get_distance` charges the weight of the LAST edge in list order that joins the two ids, or 0 when none does. It does not take the cheapest such edge. Optimality is therefore stated for walks costed the same way (`GraphModel.PathWeight`).
- **Neighbours.** `get_neighbors` lists one entry per edge, so a destination reached by several edges appears several times. The model keeps this.
- **Ties in `get_minimum`.** `HashSet` iteration order is not specified, so `GetMinimum` picks a member nondeterministically. Its contract holds for every member it could return.
- **Integers.** Weights and distances are unbounded `int`s. The 32-bit bounds appear only in `AsWritten`.
- **Path construction.** `get_path` pushes ids and reverses the list at the end. The model prepends, which yields the same list.

## Model

| member | source | states |
|---|---|---|
| GraphModel.LastWeightIsLastMatch | src/lib.rs:103-111 | the weight charged for a step is that of the last matching edge in list order |
| GraphModel.LastWeightWithoutMatch | src/lib.rs:103-111 | a step with no joining edge is charged 0 |
| GraphModel.LastWeightNonNegative | src/lib.rs:103-111 | with non-negative edge weights, every charged weight is non-negative |
| GraphModel.SingleEdgeWeight | src/lib.rs:103-111 | a pair joined by exactly one edge is charged that edge's weight |
| Relaxation.Lookup | src/lib.rs:141-147 | the distance is finite exactly when the id has an entry, equals that entry, and `Unreached` is never below anything |
| Relaxation.NeighborsMembers | src/lib.rs:113-121 | a vertex is a neighbour iff some edge from the id leads to it and it is not settled; there are at most as many neighbours as edges |
| Relaxation.NeighborsAppend | src/lib.rs:113-121 | the neighbour scan over two concatenated edge lists is the concatenation of the two scans |
| Relaxation.RelaxOne | src/lib.rs:89-99 | the state changes exactly when the node's distance plus the step's weight is strictly below the target's distance; a change strictly lowers the target's distance to the node's distance plus the step's weight, makes the node its predecessor, adds the target to the frontier and changes no other entry |
| Relaxation.RelaxAllEffect | src/lib.rs:87-101 | after a pass, each target is at most one step beyond the node; every key is either unchanged or improved through the node; the frontier grows only by improved targets |
| Relaxation.RelaxAllKeepsSets | src/lib.rs:93-98 | a pass leaves the settled set alone and never removes a frontier vertex |
| Relaxation.SeedEstablishesInv | src/lib.rs:67-74 | the seeded state (source at distance 0 on the frontier) satisfies the loop invariant |
| Relaxation.StepPreservesInv | src/lib.rs:76-80 | settling a minimum frontier vertex and relaxing its edges preserves the invariant: disjoint sets inside the reachable universe, non-negative distances, settled no farther than the frontier, edges of settled vertices relaxed, predecessor chains sound and acyclic |
| Relaxation.RunComplete | src/lib.rs:76-85 | once the frontier is empty, every edge out of a reached vertex is relaxed and every reached vertex is settled |
| Relaxation.RelaxedBoundsEveryWalk | src/lib.rs:87-101 | when every edge is relaxed, the end of any walk from a reached vertex is reached, at no more than the start's distance plus the walk's cost |
| ShortestPath.Djikstra.constructor | src/lib.rs:56-65 | the engine keeps the graph's lists and starts with empty sets and maps |
| ShortestPath.Djikstra.Run | src/lib.rs:67-85 | the run ends with an empty frontier, the source settled at distance 0, exactly the settled ids reached, predecessors for every reached id except the source, every edge relaxed, and acyclic predecessor chains |
| ShortestPath.Djikstra.FindMinimalDistance | src/lib.rs:87-101 | the new state is the relaxation pass over the node's unsettled neighbours, in list order |
| ShortestPath.Djikstra.GetDistance | src/lib.rs:103-111 | the weight returned is the last matching edge's weight, or 0 |
| ShortestPath.Djikstra.GetNeighbors | src/lib.rs:113-121 | the list returned holds the unsettled destinations of the node's edges, one per edge, in list order |
| ShortestPath.Djikstra.GetMinimum | src/lib.rs:123-135 | None exactly for an empty set; otherwise a member no other member is strictly closer than |
| ShortestPath.Djikstra.GetPath | src/lib.rs:149-166 | the path is empty exactly when the target has no predecessor; otherwise it runs from a vertex without a predecessor to the target, each id the predecessor of the next, along edges, its cost the difference of the end distances |
| ShortestPath.ShortestRoute | src/lib.rs:208-214 | a non-empty path runs from the source to a different target along edges; whenever any walk joins them the path is non-empty (unless target is source) and costs no more than that walk |
| AsWritten.FrontierNeverShrinksAsWritten | src/lib.rs:76-80 | with the insert of line 79, an iteration never removes anything from the frontier, so the loop never ends |
| AsWritten.NeverImprovesAsWritten | src/lib.rs:90-91 | in a debug build, with non-negative weights, the comparison as written never holds, and for an unreached target with a positive weight it overflows (a panic) |
| AsWritten.GreaterWrappingExactlyOnWrap | src/lib.rs:90-91 | in a release build, with non-negative `i32` weights and distances, the comparison as written holds exactly when the sum wraps: for an unreached target exactly when the weight is positive, and never for a target whose sum stays in range |
| AsWritten.OverflowsOnFirstEdgeAsWritten | src/lib.rs:90-95 | in a debug build, on the source's first edge the comparison as written overflows, while the intended relaxation reaches the destination |
| AsWritten.MissesShorterRouteAsWritten | src/lib.rs:88-98 | in a release build on the triangle A->B 80, A->C 10, C->B 10: settling A sets B to 80 and C to 10 on first contact; settling C then leaves B at 80, while the intended pass lowers B to 20 through C |
| ShortestPath.TestGraphRoute | src/lib.rs:189-215 | on the test's graph the route from A to E is non-empty, as the test asserts, and runs from A to E |
| AsWritten.PathLoopNeverEndsAsWritten | src/lib.rs:157-161 | as written, the loop in `get_path` keeps appending the same predecessor, so the path grows without end |

## Left out

- The `tests` module is modelled only by `ShortestPath.TestGraphRoute`, which builds the test's graph. `ShortestPath.ShortestRoute` generalises the test's `assert!(path.len() > 0)` (line 214) to every graph with a walk from the source to the target.
- The `panic!("Error")` branch of `run` (line 82) is not modelled as a behaviour. The loop guard makes it unreachable, which `ShortestPath.Djikstra.Run` proves.
- 32-bit overflow of distances is not modelled outside `AsWritten`. Weights and distances are unbounded integers, so a sum past `i32::MAX` does not panic or wrap.
- Negative weights are excluded by the precondition of `Run`, which the algorithm needs for optimality. The source does not check this.
- `HashSet`/`HashMap` iteration order and hashing are not modelled. Ties among minimum frontier vertices are resolved nondeterministically.
- The derived `Debug`, `Clone` and `Hash` implementations are not modelled. Values in Dafny are copied by construction.
- The `nodes` field is kept but read by no operation, as in the source.
- `ShortestPath.Djikstra.IsSettled` and `ShortestPath.Djikstra.GetShortestDistance` have no contract of their own. Their meaning is stated by `Relaxation.Lookup` and by `ShortestPath.Djikstra.GetNeighbors`.
- `dbg!` output is not modelled.

## Findings

| source | as written | input that shows it | evidently intended | confidence | as-written member | corrected member |
|---|---|---|---|---|---|---|
| src/lib.rs:79 | the settled vertex is inserted into the frontier again | any graph: the frontier never shrinks, so `run` never returns | remove the vertex from the frontier | not executed | AsWritten.FrontierNeverShrinksAsWritten | ShortestPath.Djikstra.Run |
| src/lib.rs:90-91 | the target's distance is compared with itself plus the weight | edges A->B 80, A->C 10, C->B 10 from A: a debug build panics on `i32::MAX + 80` at the first edge; a release build wraps, sets B to 80 on first contact and never lowers it to 20; an edge of weight 0 to an unreached target is relaxed in neither build | compare the node's distance plus the weight against the target's | not executed | AsWritten.MissesShorterRouteAsWritten | Relaxation.RelaxAllEffect |
| src/lib.rs:157-161 | `id` is never advanced, so the loop re-reads the target's predecessor forever | any target with a predecessor | follow the chain by moving `id` to each predecessor | not executed | AsWritten.PathLoopNeverEndsAsWritten | ShortestPath.Djikstra.GetPath |
