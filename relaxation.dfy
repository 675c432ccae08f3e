/**
 * The run state of the shortest-path engine as a value, the functions that
 * specify one relaxation pass, and the invariant that the main loop keeps.
 */
module Relaxation {
  import opened GraphModel

  /**
   * A tentative distance as `get_shortest_distance` reports it: the stored
   * value, or `Unreached` where the engine returns the `i32::MAX` sentinel.
   * `Unreached` lies above every finite distance.
   */
  datatype Distance = Finite(value: int) | Unreached

  /** Strictly smaller, with `Unreached` above every finite value. */
  predicate Less(a: Distance, b: Distance)
  {
    a.Finite? && (b.Unreached? || a.value < b.value)
  }

  /** A distance extended by one step of weight `w`; `Unreached` stays unreached. */
  function Plus(a: Distance, w: int): Distance
  {
    match a
    case Finite(x) => Finite(x + w)
    case Unreached => Unreached
  }

  /** The distance stored for `id`, or `Unreached` when the map has no entry. */
  function Lookup(distance: map<string, int>, id: string): (d: Distance)
    ensures d.Finite? <==> id in distance
    ensures d.Finite? ==> d.value == distance[id]
    ensures forall x: int | id in distance :: Less(Finite(x), d) <==> x < distance[id]
    ensures id !in distance ==> forall other: Distance :: !Less(d, other)
  {
    if id in distance then Finite(distance[id]) else Unreached
  }

  /** The four collections the engine rebuilds on every run. */
  datatype RunState = RunState(
    settled: set<Vertex>,
    unsettled: set<Vertex>,
    distance: map<string, int>,
    predecessors: map<string, Vertex>)

  /** The ids of a set of vertices. */
  function Ids(vs: set<Vertex>): set<string>
  {
    set v | v in vs :: v.id
  }

  /** The only vertices a run can ever hold: the source and the edge destinations. */
  function Universe(source: Vertex, edges: seq<Edge>): set<Vertex>
  {
    {source} + set e | e in edges :: e.destination
  }

  /** The state right after seeding: only the source, at distance 0, on the frontier. */
  function Seed(source: Vertex): RunState
  {
    RunState({}, {source}, map[source.id := 0], map[])
  }

  /** Settling `m`: it joins the settled set and leaves the frontier. */
  function Settle(st: RunState, m: Vertex): RunState
  {
    st.(settled := st.settled + {m}, unsettled := st.unsettled - {m})
  }

  /**
   * The destinations, in edge-list order and one per edge, of the edges that
   * leave the vertex with id `id` and whose destination is not settled.
   */
  function Neighbors(edges: seq<Edge>, id: string, settled: set<Vertex>): seq<Vertex>
    decreases |edges|
  {
    if edges == [] then []
    else
      var e := edges[|edges| - 1];
      Neighbors(edges[..|edges| - 1], id, settled) +
        (if e.source.id == id && e.destination !in settled then [e.destination] else [])
  }

  /** Neighbors distributes over concatenation of edge lists: one entry per edge, in order. */
  lemma {:induction false} NeighborsAppend(a: seq<Edge>, b: seq<Edge>, id: string, settled: set<Vertex>)
    ensures Neighbors(a + b, id, settled) == Neighbors(a, id, settled) + Neighbors(b, id, settled)
    decreases |b|
  {
    if b == [] {
      assert a + b == a;
    } else {
      var n := |b| - 1;
      assert (a + b)[..|a + b| - 1] == a + b[..n];
      assert (a + b)[|a + b| - 1] == b[n];
      NeighborsAppend(a, b[..n], id, settled);
    }
  }

  /** A vertex is a neighbor exactly when some unsettled-destination edge from `id` leads to it. */
  lemma {:induction false} NeighborsMembers(edges: seq<Edge>, id: string, settled: set<Vertex>)
    ensures forall v :: v in Neighbors(edges, id, settled) <==>
              exists e | e in edges :: e.source.id == id && e.destination !in settled && e.destination == v
    ensures |Neighbors(edges, id, settled)| <= |edges|
    decreases |edges|
  {
    if edges != [] {
      var init := edges[..|edges| - 1];
      var last := edges[|edges| - 1];
      NeighborsMembers(init, id, settled);
      assert edges == init + [last];
      forall v | v in Neighbors(edges, id, settled)
        ensures exists e | e in edges :: e.source.id == id && e.destination !in settled && e.destination == v
      {
        if v in Neighbors(init, id, settled) {
          var e :| e in init && e.source.id == id && e.destination !in settled && e.destination == v;
          assert e in edges;
        } else {
          assert last in edges;
        }
      }
      forall v | exists e | e in edges :: e.source.id == id && e.destination !in settled && e.destination == v
        ensures v in Neighbors(edges, id, settled)
      {
        var e :| e in edges && e.source.id == id && e.destination !in settled && e.destination == v;
        if e != last {
          assert e in init;
        }
      }
    }
  }

  /**
   * One relaxation of the edge `node -> target`: when the distance through
   * `node` is strictly shorter than `target`'s tentative distance, record it,
   * make `node` the predecessor of `target` and put `target` on the frontier.
   */
  function RelaxOne(st: RunState, edges: seq<Edge>, node: Vertex, target: Vertex): (r: RunState)
    ensures r.settled == st.settled
    ensures r != st <==>
              Less(Plus(Lookup(st.distance, node.id), LastWeight(edges, node.id, target.id)), Lookup(st.distance, target.id))
    ensures r == st || (
              && Less(Lookup(r.distance, target.id), Lookup(st.distance, target.id))
              && node.id in st.distance
              && r.distance[target.id] == st.distance[node.id] + LastWeight(edges, node.id, target.id)
              && r.predecessors.Keys == st.predecessors.Keys + {target.id}
              && r.predecessors[target.id] == node
              && r.unsettled == st.unsettled + {target}
              && (forall k | k != target.id :: Lookup(r.distance, k) == Lookup(st.distance, k))
              && (forall k | k in st.predecessors && k != target.id :: r.predecessors[k] == st.predecessors[k]))
  {
    var candidate := Plus(Lookup(st.distance, node.id), LastWeight(edges, node.id, target.id));
    if Less(candidate, Lookup(st.distance, target.id)) then
      RunState(st.settled, st.unsettled + {target},
               st.distance[target.id := candidate.value], st.predecessors[target.id := node])
    else
      st
  }

  /** Relaxing the edges to each of `targets` in turn, as one pass of the main loop does. */
  function RelaxAll(st: RunState, edges: seq<Edge>, node: Vertex, targets: seq<Vertex>): RunState
    decreases |targets|
  {
    if targets == [] then st
    else RelaxOne(RelaxAll(st, edges, node, targets[..|targets| - 1]), edges, node, targets[|targets| - 1])
  }

  /** Key `k` has the same distance and predecessor entries in `r` as in `st`. */
  ghost predicate Kept(st: RunState, r: RunState, k: string)
  {
    && (k in r.distance <==> k in st.distance)
    && (k in st.distance ==> r.distance[k] == st.distance[k])
    && (k in r.predecessors <==> k in st.predecessors)
    && (k in st.predecessors ==> r.predecessors[k] == st.predecessors[k])
  }

  /**
   * Key `k` was improved through `m`: its distance is `m`'s plus the step's
   * weight and strictly below its old one, `m` is its predecessor and a
   * vertex with id `k` is on the frontier.
   */
  ghost predicate Improved(st: RunState, r: RunState, edges: seq<Edge>, m: Vertex, k: string)
  {
    && m.id in st.distance
    && k in r.distance
    && r.distance[k] == st.distance[m.id] + LastWeight(edges, m.id, k)
    && (k in st.distance ==> r.distance[k] < st.distance[k])
    && k in r.predecessors && r.predecessors[k] == m
    && Linked(edges, m.id, k)
    && k in Ids(r.unsettled)
  }

  /**
   * What a relaxation pass from `m` over `targets` leaves behind: nothing but
   * improved keys change, the frontier only grows by improved targets, and
   * every target is at most one step beyond `m`.
   */
  ghost predicate PassEffect(st: RunState, r: RunState, edges: seq<Edge>, m: Vertex, targets: seq<Vertex>)
    requires m.id in st.distance
  {
    && r.settled == st.settled
    && st.unsettled <= r.unsettled
    && (forall v | v in r.unsettled && v !in st.unsettled :: v in targets && Improved(st, r, edges, m, v.id))
    && (forall k :: Kept(st, r, k) || Improved(st, r, edges, m, k))
    && (forall t | t in targets :: t.id in r.distance && r.distance[t.id] <= st.distance[m.id] + LastWeight(edges, m.id, t.id))
  }

  /** Relaxing one more target extends the effect of a pass. */
  lemma RelaxOneExtends(st: RunState, r0: RunState, edges: seq<Edge>, m: Vertex, init: seq<Vertex>, t: Vertex)
    requires m.id in st.distance
    requires NonNegative(edges)
    requires Linked(edges, m.id, t.id)
    requires PassEffect(st, r0, edges, m, init)
    ensures PassEffect(st, RelaxOne(r0, edges, m, t), edges, m, init + [t])
  {
    var r := RelaxOne(r0, edges, m, t);
    var d := st.distance[m.id];
    LastWeightNonNegative(edges, m.id, m.id);
    assert Kept(st, r0, m.id);
    var w := LastWeight(edges, m.id, t.id);
    LastWeightNonNegative(edges, m.id, t.id);
    if r == r0 {
      assert !Less(Finite(d + w), Lookup(r0.distance, t.id));
      forall x | x in init + [t]
        ensures x.id in r.distance && r.distance[x.id] <= d + LastWeight(edges, m.id, x.id)
      {
        if x != t { assert x in init; }
      }
    } else {
      assert r.distance[t.id] == d + w;
      assert t in r.unsettled;
      assert Ids(r0.unsettled) <= Ids(r.unsettled);
      assert !Improved(st, r0, edges, m, t.id);
      assert Kept(st, r0, t.id);
      assert Improved(st, r, edges, m, t.id);
      forall k ensures Kept(st, r, k) || Improved(st, r, edges, m, k) {
        if k != t.id {
          assert Kept(st, r0, k) || Improved(st, r0, edges, m, k);
          assert Lookup(r.distance, k) == Lookup(r0.distance, k);
        }
      }
      forall v | v in r.unsettled && v !in st.unsettled
        ensures v in init + [t] && Improved(st, r, edges, m, v.id)
      {
        if v != t {
          assert v in r0.unsettled;
          assert v in init;
        }
        if v.id != t.id {
          assert v in r0.unsettled;
          assert Improved(st, r0, edges, m, v.id);
          assert Lookup(r.distance, v.id) == Lookup(r0.distance, v.id);
        }
      }
      forall x | x in init + [t]
        ensures x.id in r.distance && r.distance[x.id] <= d + LastWeight(edges, m.id, x.id)
      {
        if x.id != t.id {
          assert x in init;
          assert Lookup(r.distance, x.id) == Lookup(r0.distance, x.id);
        }
      }
    }
  }

  /** The effect of a whole relaxation pass from `m` (see PassEffect). */
  lemma {:induction false} RelaxAllEffect(st: RunState, edges: seq<Edge>, m: Vertex, targets: seq<Vertex>)
    requires m.id in st.distance
    requires NonNegative(edges)
    requires forall t | t in targets :: Linked(edges, m.id, t.id)
    ensures PassEffect(st, RelaxAll(st, edges, m, targets), edges, m, targets)
    decreases |targets|
  {
    if targets != [] {
      var init := targets[..|targets| - 1];
      var t := targets[|targets| - 1];
      assert forall x | x in init :: x in targets;
      RelaxAllEffect(st, edges, m, init);
      assert targets == init + [t];
      RelaxOneExtends(st, RelaxAll(st, edges, m, init), edges, m, init, t);
    }
  }

  /** Every settled vertex is at least as close to the source as every frontier vertex. */
  ghost predicate SettledFirst(st: RunState)
  {
    forall s, u | s in st.settled && u in st.unsettled && s.id in st.distance && u.id in st.distance ::
      st.distance[s.id] <= st.distance[u.id]
  }

  /** Every edge leaving a settled vertex has been relaxed. */
  ghost predicate SettledRelaxed(st: RunState, edges: seq<Edge>)
  {
    forall s, e | s in st.settled && e in edges && e.source.id == s.id && s.id in st.distance ::
      e.destination.id in st.distance &&
      st.distance[e.destination.id] <= st.distance[s.id] + LastWeight(edges, s.id, e.destination.id)
  }

  /** The final fixpoint: no edge out of a reached vertex can shorten any distance. */
  ghost predicate Relaxed(edges: seq<Edge>, distance: map<string, int>)
  {
    forall e | e in edges && e.source.id in distance ::
      e.destination.id in distance &&
      distance[e.destination.id] <= distance[e.source.id] + LastWeight(edges, e.source.id, e.destination.id)
  }

  /**
   * The link from key `k` to its predecessor is a real step: both ends are
   * reached, an edge joins them, `k`'s distance is the predecessor's plus the
   * step's weight, and the predecessor was settled before any vertex with id `k`.
   */
  ghost predicate LinkSound(predecessors: map<string, Vertex>, distance: map<string, int>, edges: seq<Edge>,
                            order: map<string, nat>, k: string)
    requires k in predecessors
  {
    var p := predecessors[k];
    && k in distance && p.id in distance
    && Linked(edges, p.id, k)
    && distance[k] == distance[p.id] + LastWeight(edges, p.id, k)
    && p.id in order
    && (k in order ==> order[p.id] < order[k])
  }

  /**
   * All predecessor links are sound and `order` (the rank at which each id
   * was first settled, all below `count`) decreases along them, so following
   * predecessors always ends.
   */
  ghost predicate ChainSound(predecessors: map<string, Vertex>, distance: map<string, int>, edges: seq<Edge>,
                             order: map<string, nat>, count: nat)
  {
    && (forall k | k in order :: order[k] < count)
    && (forall k | k in predecessors :: LinkSound(predecessors, distance, edges, order, k))
  }

  /** The invariant of the main loop of a run from `source`. */
  ghost predicate Inv(st: RunState, source: Vertex, edges: seq<Edge>, order: map<string, nat>, count: nat)
  {
    && st.settled !! st.unsettled
    && st.settled + st.unsettled <= Universe(source, edges)
    && source in st.settled + st.unsettled
    && st.distance.Keys == Ids(st.settled + st.unsettled)
    && (forall k | k in st.distance :: st.distance[k] >= 0)
    && source.id in st.distance && st.distance[source.id] == 0
    && st.predecessors.Keys == st.distance.Keys - {source.id}
    && (forall k | k in st.predecessors :: st.predecessors[k] in st.settled)
    && SettledFirst(st)
    && SettledRelaxed(st, edges)
    && order.Keys == Ids(st.settled)
    && ChainSound(st.predecessors, st.distance, edges, order, count)
  }

  /** Seeding establishes the invariant, with nothing ranked yet. */
  lemma SeedEstablishesInv(source: Vertex, edges: seq<Edge>)
    ensures Inv(Seed(source), source, edges, map[], 0)
  {
    assert Ids({source}) == {source.id};
  }

  /** Adding a vertex adds its id. */
  lemma IdsAdd(vs: set<Vertex>, m: Vertex)
    ensures Ids(vs + {m}) == Ids(vs) + {m.id}
  {
  }

  /** Settling a vertex of the universe that was not settled leaves fewer to settle. */
  lemma SettlingShrinks(universe: set<Vertex>, settled: set<Vertex>, m: Vertex)
    requires m in universe && m !in settled
    ensures |universe - (settled + {m})| < |universe - settled|
  {
    assert universe - (settled + {m}) == (universe - settled) - {m};
  }

  /** Ranks stay keyed by the settled ids when one more vertex is settled. */
  lemma StampKeys(order: map<string, nat>, count: nat, settled: set<Vertex>, m: Vertex)
    requires order.Keys == Ids(settled)
    ensures Stamp(order, count, m.id).Keys == Ids(settled + {m})
  {
    IdsAdd(settled, m);
  }

  /** `m` is on the frontier and no frontier vertex is strictly closer. */
  ghost predicate IsMinimum(st: RunState, m: Vertex)
  {
    m in st.unsettled &&
    forall u | u in st.unsettled :: !Less(Lookup(st.distance, u.id), Lookup(st.distance, m.id))
  }

  /** The settle ranks after settling a vertex with id `id`: a new id gets rank `count`. */
  function Stamp(order: map<string, nat>, count: nat, id: string): map<string, nat>
  {
    if id in order then order else order[id := count]
  }

  /** The next free rank after settling a vertex with id `id`. */
  function Bump(order: map<string, nat>, count: nat, id: string): nat
  {
    if id in order then count else count + 1
  }

  /** One iteration of the main loop: settle the minimum `m`, then relax its edges. */
  function Step(st: RunState, edges: seq<Edge>, m: Vertex): RunState
  {
    var s1 := Settle(st, m);
    RelaxAll(s1, edges, m, Neighbors(edges, m.id, s1.settled))
  }

  /** The facts about one iteration that the parts of the invariant share. */
  lemma StepBasics(st: RunState, source: Vertex, edges: seq<Edge>, order: map<string, nat>, count: nat, m: Vertex)
    requires Inv(st, source, edges, order, count)
    requires NonNegative(edges)
    requires IsMinimum(st, m)
    ensures m.id in st.distance
    ensures forall s | s in st.settled + {m} :: s.id in st.distance && st.distance[s.id] <= st.distance[m.id]
    ensures forall u | u in st.unsettled :: u.id in st.distance && st.distance[m.id] <= st.distance[u.id]
    ensures forall t | t in Neighbors(edges, m.id, st.settled + {m}) ::
              t !in st.settled + {m} && t in Universe(source, edges) && Linked(edges, m.id, t.id)
    ensures forall e | e in edges && e.source.id == m.id && e.destination !in st.settled + {m} ::
              e.destination in Neighbors(edges, m.id, st.settled + {m})
    ensures PassEffect(Settle(st, m), Step(st, edges, m), edges, m, Neighbors(edges, m.id, st.settled + {m}))
    ensures forall k | k in Ids(st.settled + {m}) :: Kept(Settle(st, m), Step(st, edges, m), k)
  {
    var s1 := Settle(st, m);
    var targets := Neighbors(edges, m.id, s1.settled);
    var r := Step(st, edges, m);
    assert m.id in Ids(st.settled + st.unsettled);
    var d := st.distance[m.id];
    forall u | u in st.unsettled ensures u.id in st.distance && d <= st.distance[u.id] {
      assert u.id in Ids(st.settled + st.unsettled);
    }
    forall s | s in st.settled + {m} ensures s.id in st.distance && st.distance[s.id] <= d {
      assert s.id in Ids(st.settled + st.unsettled);
    }
    NeighborsMembers(edges, m.id, s1.settled);
    forall t | t in targets
      ensures t !in st.settled + {m} && t in Universe(source, edges) && Linked(edges, m.id, t.id)
    {
      var e :| e in edges && e.source.id == m.id && e.destination !in s1.settled && e.destination == t;
      assert Joins(e, m.id, t.id);
    }
    RelaxAllEffect(s1, edges, m, targets);
    forall k | k in Ids(st.settled + {m}) ensures Kept(s1, r, k) {
      var s :| s in st.settled + {m} && s.id == k;
      LastWeightNonNegative(edges, m.id, k);
      assert !Improved(s1, r, edges, m, k);
    }
  }

  /** One iteration keeps the set parts of the invariant. */
  lemma StepKeepsSets(st: RunState, source: Vertex, edges: seq<Edge>, order: map<string, nat>, count: nat, m: Vertex)
    requires Inv(st, source, edges, order, count)
    requires NonNegative(edges)
    requires IsMinimum(st, m)
    ensures var r := Step(st, edges, m);
      && r.settled !! r.unsettled
      && r.settled + r.unsettled <= Universe(source, edges)
      && source in r.settled + r.unsettled
      && r.distance.Keys == Ids(r.settled + r.unsettled)
  {
    StepBasics(st, source, edges, order, count, m);
    var s1 := Settle(st, m);
    var targets := Neighbors(edges, m.id, s1.settled);
    var r := Step(st, edges, m);
    assert r.settled == st.settled + {m};
    forall v | v in r.settled + r.unsettled ensures v.id in r.distance {
      if v in st.settled + st.unsettled {
        assert v.id in Ids(st.settled + st.unsettled);
        assert Kept(s1, r, v.id) || Improved(s1, r, edges, m, v.id);
      } else {
        assert Improved(s1, r, edges, m, v.id);
      }
    }
    forall k | k in r.distance ensures k in Ids(r.settled + r.unsettled) {
      if Kept(s1, r, k) {
        assert k in Ids(st.settled + st.unsettled);
        var v :| v in st.settled + st.unsettled && v.id == k;
        assert v in r.settled + r.unsettled;
      } else {
        assert Improved(s1, r, edges, m, k);
        var v :| v in r.unsettled && v.id == k;
        assert v in r.settled + r.unsettled;
      }
    }
  }

  /** One iteration keeps the distance and predecessor parts of the invariant. */
  lemma StepKeepsDistances(st: RunState, source: Vertex, edges: seq<Edge>, order: map<string, nat>, count: nat, m: Vertex)
    requires Inv(st, source, edges, order, count)
    requires NonNegative(edges)
    requires IsMinimum(st, m)
    ensures var r := Step(st, edges, m);
      && (forall k | k in r.distance :: r.distance[k] >= 0)
      && source.id in r.distance && r.distance[source.id] == 0
      && r.predecessors.Keys == r.distance.Keys - {source.id}
      && (forall k | k in r.predecessors :: r.predecessors[k] in r.settled)
      && SettledFirst(r)
  {
    StepBasics(st, source, edges, order, count, m);
    var s1 := Settle(st, m);
    var r := Step(st, edges, m);
    var d := st.distance[m.id];
    forall k ensures LastWeight(edges, m.id, k) >= 0 {
      LastWeightNonNegative(edges, m.id, k);
    }
    assert Kept(s1, r, source.id);
    forall k | k in r.predecessors ensures k in r.distance - {source.id} && r.predecessors[k] in r.settled {
      assert Kept(s1, r, k) || Improved(s1, r, edges, m, k);
    }
    forall k | k in r.distance - {source.id} ensures k in r.predecessors {
      assert Kept(s1, r, k) || Improved(s1, r, edges, m, k);
    }
    forall k | k in r.distance ensures r.distance[k] >= 0 {
      assert Kept(s1, r, k) || Improved(s1, r, edges, m, k);
    }
    forall s, u | s in r.settled && u in r.unsettled && s.id in r.distance && u.id in r.distance
      ensures r.distance[s.id] <= r.distance[u.id]
    {
      assert s.id in Ids(st.settled + {m});
      assert r.distance[s.id] <= d;
      if !Improved(s1, r, edges, m, u.id) {
        assert Kept(s1, r, u.id);
        assert u in st.unsettled;
      }
    }
  }

  /** One iteration keeps every edge out of a settled vertex relaxed. */
  lemma StepKeepsRelaxed(st: RunState, source: Vertex, edges: seq<Edge>, order: map<string, nat>, count: nat, m: Vertex)
    requires Inv(st, source, edges, order, count)
    requires NonNegative(edges)
    requires IsMinimum(st, m)
    ensures SettledRelaxed(Step(st, edges, m), edges)
  {
    StepBasics(st, source, edges, order, count, m);
    var s1 := Settle(st, m);
    var targets := Neighbors(edges, m.id, s1.settled);
    var r := Step(st, edges, m);
    var d := st.distance[m.id];
    forall k | k in st.distance ensures k in r.distance && r.distance[k] <= st.distance[k] {
      assert Kept(s1, r, k) || Improved(s1, r, edges, m, k);
    }
    forall s, e | s in r.settled && e in edges && e.source.id == s.id && s.id in r.distance
      ensures e.destination.id in r.distance &&
              r.distance[e.destination.id] <= r.distance[s.id] + LastWeight(edges, s.id, e.destination.id)
    {
      assert s.id in Ids(st.settled + {m});
      assert r.distance[s.id] == st.distance[s.id];
      if s in st.settled {
        assert s.id in st.distance;
      } else if e.destination in st.settled + {m} {
        LastWeightNonNegative(edges, m.id, e.destination.id);
        assert e.destination.id in st.distance;
      } else {
        assert e.destination in targets;
      }
    }
  }

  /** A predecessor link that an iteration did not touch stays sound under the new ranks. */
  lemma KeptLinkSound(st: RunState, r: RunState, edges: seq<Edge>, order: map<string, nat>, count: nat,
                      order1: map<string, nat>, k: string)
    requires k in st.predecessors && LinkSound(st.predecessors, st.distance, edges, order, k)
    requires Kept(st, r, k) && Kept(st, r, st.predecessors[k].id)
    requires forall j | j in order :: order[j] < count
    requires forall j | j in order :: j in order1 && order1[j] == order[j]
    requires forall j | j in order1 && j !in order :: order1[j] == count
    ensures k in r.predecessors && LinkSound(r.predecessors, r.distance, edges, order1, k)
  {
  }

  /** A predecessor link set through the settled vertex `m` is sound under the new ranks. */
  lemma ImprovedLinkSound(s1: RunState, r: RunState, edges: seq<Edge>, m: Vertex, order1: map<string, nat>, k: string)
    requires Improved(s1, r, edges, m, k)
    requires Kept(s1, r, m.id)
    requires m.id in order1 && k !in order1
    ensures k in r.predecessors && LinkSound(r.predecessors, r.distance, edges, order1, k)
  {
  }

  /**
   * Predecessor links stay sound after a relaxation pass from `m` when every
   * key was kept or improved and the ids of `settled` and `m` were kept.
   */
  lemma ChainAfterPass(st: RunState, r: RunState, edges: seq<Edge>, m: Vertex, settled: set<Vertex>,
                       order: map<string, nat>, count: nat)
    requires forall k :: Kept(st, r, k) || Improved(st, r, edges, m, k)
    requires forall k | k in Ids(settled + {m}) :: Kept(st, r, k)
    requires forall k | k in st.predecessors :: st.predecessors[k] in settled
    requires ChainSound(st.predecessors, st.distance, edges, order, count)
    requires order.Keys == Ids(settled)
    ensures ChainSound(r.predecessors, r.distance, edges, Stamp(order, count, m.id), Bump(order, count, m.id))
  {
    var order1, count1 := Stamp(order, count, m.id), Bump(order, count, m.id);
    IdsAdd(settled, m);
    assert order1.Keys == Ids(settled + {m});
    assert m.id in Ids(settled + {m});
    forall k | k in r.predecessors ensures LinkSound(r.predecessors, r.distance, edges, order1, k) {
      if Kept(st, r, k) {
        assert st.predecessors[k] in settled;
        assert st.predecessors[k].id in Ids(settled + {m});
        KeptLinkSound(st, r, edges, order, count, order1, k);
      } else {
        assert Improved(st, r, edges, m, k);
        assert k !in Ids(settled + {m});
        ImprovedLinkSound(st, r, edges, m, order1, k);
      }
    }
  }

  /** One iteration keeps the predecessor links sound and their ranks decreasing. */
  lemma StepKeepsChain(st: RunState, source: Vertex, edges: seq<Edge>, order: map<string, nat>, count: nat, m: Vertex)
    requires Inv(st, source, edges, order, count)
    requires NonNegative(edges)
    requires IsMinimum(st, m)
    ensures var r := Step(st, edges, m);
      && Stamp(order, count, m.id).Keys == Ids(r.settled)
      && ChainSound(r.predecessors, r.distance, edges, Stamp(order, count, m.id), Bump(order, count, m.id))
  {
    StepBasics(st, source, edges, order, count, m);
    var r := Step(st, edges, m);
    assert r.settled == st.settled + {m};
    StampKeys(order, count, st.settled, m);
    ChainAfterPass(Settle(st, m), r, edges, m, st.settled, order, count);
  }

  /** One iteration of the main loop keeps the whole invariant. */
  lemma {:induction false} StepPreservesInv(st: RunState, source: Vertex, edges: seq<Edge>, order: map<string, nat>, count: nat, m: Vertex)
    requires Inv(st, source, edges, order, count)
    requires NonNegative(edges)
    requires IsMinimum(st, m)
    ensures Inv(Step(st, edges, m), source, edges, Stamp(order, count, m.id), Bump(order, count, m.id))
  {
    StepKeepsSets(st, source, edges, order, count, m);
    StepKeepsDistances(st, source, edges, order, count, m);
    StepKeepsRelaxed(st, source, edges, order, count, m);
    StepKeepsChain(st, source, edges, order, count, m);
  }

  /**
   * When the frontier is empty the run is complete: every reached id is
   * settled, the source is at distance 0 without a predecessor, and no edge
   * out of a reached vertex can shorten any distance.
   */
  lemma RunComplete(st: RunState, source: Vertex, edges: seq<Edge>, order: map<string, nat>, count: nat)
    requires Inv(st, source, edges, order, count)
    requires st.unsettled == {}
    ensures source in st.settled && st.settled <= Universe(source, edges)
    ensures st.distance.Keys == Ids(st.settled)
    ensures source.id in st.distance && st.distance[source.id] == 0
    ensures st.predecessors.Keys == st.distance.Keys - {source.id}
    ensures Relaxed(edges, st.distance)
  {
    assert st.settled + st.unsettled == st.settled;
    forall e | e in edges && e.source.id in st.distance
      ensures e.destination.id in st.distance &&
              st.distance[e.destination.id] <= st.distance[e.source.id] + LastWeight(edges, e.source.id, e.destination.id)
    {
      var s :| s in st.settled && s.id == e.source.id;
    }
  }

  /** A relaxation pass keeps the settled set and never removes a frontier vertex. */
  lemma {:induction false} RelaxAllKeepsSets(st: RunState, edges: seq<Edge>, node: Vertex, targets: seq<Vertex>)
    ensures RelaxAll(st, edges, node, targets).settled == st.settled
    ensures st.unsettled <= RelaxAll(st, edges, node, targets).unsettled
    decreases |targets|
  {
    if targets != [] {
      RelaxAllKeepsSets(st, edges, node, targets[..|targets| - 1]);
    }
  }

  /**
   * Optimality: once every edge out of a reached vertex is relaxed, the end
   * of any walk from a reached vertex is reached, no further away than the
   * walk's weight.
   */
  lemma {:induction false} RelaxedBoundsEveryWalk(edges: seq<Edge>, distance: map<string, int>, p: seq<string>)
    requires Relaxed(edges, distance)
    requires |p| >= 1 && p[0] in distance && IsWalk(edges, p)
    ensures p[|p| - 1] in distance && distance[p[|p| - 1]] <= distance[p[0]] + PathWeight(edges, p)
    decreases |p|
  {
    if |p| >= 2 {
      assert Linked(edges, p[0], p[1]);
      var e :| e in edges && Joins(e, p[0], p[1]);
      var rest := p[1..];
      assert forall i | 1 <= i < |p| :: rest[i - 1] == p[i];
      assert IsWalk(edges, rest);
      RelaxedBoundsEveryWalk(edges, distance, rest);
    }
  }
}
