/**
The route search of sow-core/src/sea_lane.rs: Dijkstra's algorithm with lazy
deletion over the graph whose nodes are ports and whose edges are lanes. Costs
are 32-bit numbers, and in an optimised build their sums wrap around; the search
is modelled for all lanes, wrapping ones included.
*/
module SeaSearch {
  import opened Wrappers
  import opened Grid
  import opened SeaLanes

  type Dist = map<nat, nat>
  type Prev = map<nat, (nat, Hop)>
  type Heap = seq<(nat, nat)>

  const U32_RANGE: nat := U32_MAX + 1

  /** The cost at the far end of a lane: a 32-bit length added to a 32-bit cost. */
  function NewCost(cost: nat, length: nat): (r: nat)
    ensures r <= cost + length && r <= U32_MAX
    ensures cost + length <= U32_MAX ==> r == cost + length
  {
    (cost + length) % U32_RANGE
  }

  /** `dist.get(..).unwrap_or(&u32::MAX)`. */
  function Val(dist: Dist, v: nat): nat {
    if v in dist then dist[v] else U32_MAX
  }

  // ---- True distances ----

  /** No walk from the source to `v` is shorter than `c`. */
  ghost predicate AtMost(lanes: seq<Lane>, src: nat, v: nat, c: nat) {
    forall hops :: Walk(lanes, src, v, hops) ==> c <= Cost(lanes, hops)
  }

  ghost predicate Reached(lanes: seq<Lane>, src: nat, v: nat) {
    exists hops :: Walk(lanes, src, v, hops)
  }

  ghost predicate IsDistance(lanes: seq<Lane>, src: nat, v: nat, d: nat) {
    AtMost(lanes, src, v, d) && exists hops :: Walk(lanes, src, v, hops) && Cost(lanes, hops) == d
  }

  lemma {:induction false} HasDistance(lanes: seq<Lane>, src: nat, v: nat, hops: seq<Hop>) returns (d: nat)
    requires Walk(lanes, src, v, hops)
    ensures IsDistance(lanes, src, v, d) && OnLanes(lanes, hops) && d <= Cost(lanes, hops)
    decreases Cost(lanes, hops)
  {
    hide Walk, Cost;
    WalkOn(lanes, src, v, hops);
    if other :| Walk(lanes, src, v, other) && OnLanes(lanes, other) && Cost(lanes, other) < Cost(lanes, hops) {
      d := HasDistance(lanes, src, v, other);
    } else {
      forall other | Walk(lanes, src, v, other)
        ensures OnLanes(lanes, other)
      {
        WalkOn(lanes, src, v, other);
      }
      d := Cost(lanes, hops);
    }
  }

  lemma WalkOn(lanes: seq<Lane>, s: nat, t: nat, hops: seq<Hop>)
    requires Walk(lanes, s, t, hops)
    ensures OnLanes(lanes, hops)
  {
  }

  lemma WalkNone(lanes: seq<Lane>, s: nat)
    ensures Walk(lanes, s, s, []) && Cost(lanes, []) == 0
  {
  }

  lemma WalkSame(lanes: seq<Lane>, s: nat, t: nat)
    requires Walk(lanes, s, t, [])
    ensures s == t
  {
  }

  // ---- Adjacency ----

  /** The lanes and far ends at a port, in lane order; a lane from a port to itself appears twice. */
  function Neighbours(lanes: seq<Lane>, port: nat): seq<(nat, nat)> {
    if lanes == [] then [] else
      var k := |lanes| - 1;
      Neighbours(lanes[..k], port)
      + (if lanes[k].a == port then [(lanes[k].b, k)] else [])
      + (if lanes[k].b == port then [(lanes[k].a, k)] else [])
  }

  type Adjacency = map<nat, seq<(nat, nat)>>

  function Lookup(adj: Adjacency, port: nat): seq<(nat, nat)> {
    if port in adj then adj[port] else []
  }

  // The hop of an adjacency entry, with the direction flag the code computes.
  function HopOf(lanes: seq<Lane>, port: nat, e: (nat, nat)): Hop
    requires e.1 < |lanes|
  {
    Hop(e.1, lanes[e.1].b == port)
  }

  lemma {:induction false} NeighboursAre(lanes: seq<Lane>, port: nat)
    ensures forall e :: e in Neighbours(lanes, port) <==>
              e.1 < |lanes| && (
                (lanes[e.1].a == port && lanes[e.1].b == e.0) || (lanes[e.1].b == port && lanes[e.1].a == e.0))
  {
    if lanes != [] {
      NeighboursAre(lanes[..|lanes| - 1], port);
    }
  }

  function Added(adj: Adjacency, port: nat, e: (nat, nat)): Adjacency {
    adj[port := Lookup(adj, port) + [e]]
  }

  lemma AddedLookup(adj: Adjacency, port: nat, e: (nat, nat), q: nat)
    ensures Lookup(Added(adj, port, e), q) == Lookup(adj, q) + (if port == q then [e] else [])
  {
  }

  lemma NeighboursNext(lanes: seq<Lane>, k: nat, port: nat)
    requires k < |lanes|
    ensures Neighbours(lanes[..k + 1], port) == Neighbours(lanes[..k], port)
              + (if lanes[k].a == port then [(lanes[k].b, k)] else [])
              + (if lanes[k].b == port then [(lanes[k].a, k)] else [])
  {
    assert lanes[..k + 1][..k] == lanes[..k];
  }

  method BuildAdjacency(lanes: seq<Lane>) returns (adj: Adjacency)
    ensures forall port: nat :: Lookup(adj, port) == Neighbours(lanes, port)
  {
    hide Lookup, Neighbours, Added;
    adj := map[];
    StartAdjacency(lanes);
    for idx := 0 to |lanes|
      invariant forall port: nat :: Lookup(adj, port) == Neighbours(lanes[..idx], port)
    {
      var lane := lanes[idx];
      ghost var was := adj;
      adj := Added(adj, lane.a, (lane.b, idx));
      ghost var mid := adj;
      adj := Added(adj, lane.b, (lane.a, idx));
      forall port: nat
        ensures Lookup(adj, port) == Neighbours(lanes[..idx + 1], port)
      {
        AddedLookup(was, lane.a, (lane.b, idx), port);
        AddedLookup(mid, lane.b, (lane.a, idx), port);
        NeighboursNext(lanes, idx, port);
      }
    }
    assert lanes[..|lanes|] == lanes;
  }

  lemma StartAdjacency(lanes: seq<Lane>)
    ensures forall port: nat :: Lookup(map[], port) == Neighbours(lanes[..0], port)
  {
  }

  lemma NeighbourHop(lanes: seq<Lane>, port: nat, k: nat)
    requires k < |Neighbours(lanes, port)|
    ensures var e := Neighbours(lanes, port)[k];
            && e.1 < |lanes| && From(lanes, HopOf(lanes, port, e)) == port
            && To(lanes, HopOf(lanes, port, e)) == e.0
  {
    NeighboursAre(lanes, port);
    hide Neighbours;
    assert Neighbours(lanes, port)[k] in Neighbours(lanes, port);
  }

  // ---- The heap ----

  predicate LexLe(x: (nat, nat), y: (nat, nat)) {
    x.0 < y.0 || (x.0 == y.0 && x.1 <= y.1)
  }

  /** Take a least entry off the heap. */
  method PopMin(heap: Heap) returns (least: (nat, nat), rest: Heap)
    requires heap != []
    ensures multiset(heap) == multiset(rest) + multiset{least}
    ensures forall e :: e in heap ==> LexLe(least, e)
  {
    var best := 0;
    for k := 1 to |heap|
      invariant 0 <= best < |heap|
      invariant forall j :: 0 <= j < k ==> LexLe(heap[best], heap[j])
    {
      if !LexLe(heap[best], heap[k]) {
        best := k;
      }
    }
    least, rest := heap[best], heap[..best] + heap[best + 1..];
    assert heap == heap[..best] + ([heap[best]] + heap[best + 1..]);
  }

  lemma Popped(heap: Heap, least: (nat, nat), rest: Heap)
    requires multiset(heap) == multiset(rest) + multiset{least}
    ensures |rest| < |heap| && least in heap
    ensures forall e :: e in heap <==> e == least || e in rest
  {
    assert |multiset(heap)| == |heap| && |multiset(rest)| == |rest|;
    forall e
      ensures e in heap <==> e == least || e in rest
    {
      assert e in heap <==> e in multiset(heap);
      assert e in rest <==> e in multiset(rest);
    }
    assert least in multiset(heap);
  }

  // ---- What every run keeps ----

  /**
  How port `v` got its distance: over hop `e.1` from port `e.0`, at whose cost `c` of that moment. That cost
  was no more than any walk to `e.0`; if it still stands, the lanes at `e.0` have all been relaxed with it.
  */
  ghost predicate Link(lanes: seq<Lane>, src: nat, dist: Dist, c: nat, clean: set<nat>, e: (nat, Hop), v: nat) {
    && e.1.lane < |lanes| && From(lanes, e.1) == e.0 && To(lanes, e.1) == v
    && e.0 in dist && v in dist && dist[e.0] <= c && dist[v] == NewCost(c, Length(lanes, e.1))
    && AtMost(lanes, src, e.0, c) && (c == dist[e.0] ==> e.0 in clean)
  }

  ghost predicate Linked(lanes: seq<Lane>, src: nat, dist: Dist, prev: Prev, at: Dist, clean: set<nat>) {
    && src in dist && dist[src] == 0 && Small(dist) && (forall v :: v in dist ==> Reached(lanes, src, v))
    && (forall v :: v in dist && v != src ==>
          v in prev && v in at && Link(lanes, src, dist, at[v], clean, prev[v], v))
  }

  /** What is known but not relaxed from waits in the heap. */
  ghost predicate Waiting(dist: Dist, heap: Heap, clean: set<nat>) {
    && (forall e :: e in heap ==> e.1 in dist && dist[e.1] <= e.0)
    && (forall v :: v in dist ==> v in clean || (dist[v], v) in heap)
    && (forall v :: v in clean ==> v in dist)
  }

  ghost predicate RelaxedAt(lanes: seq<Lane>, dist: Dist, u: nat) {
    u in dist && forall h: Hop :: h.lane < |lanes| && From(lanes, h) == u ==>
      Val(dist, To(lanes, h)) <= NewCost(dist[u], Length(lanes, h))
  }

  ghost predicate AllRelaxed(lanes: seq<Lane>, dist: Dist, clean: set<nat>) {
    forall u :: u in clean ==> RelaxedAt(lanes, dist, u)
  }

  ghost predicate Small(dist: Dist) {
    forall v :: v in dist ==> dist[v] < U32_MAX
  }

  /** A walk is at least as long as the recorded distance of its end, or as every waiting one. */
  lemma {:induction false} LowerBound(lanes: seq<Lane>, src: nat, dist: Dist, clean: set<nat>, bound: nat, t: nat,
                                      hops: seq<Hop>)
    requires src in dist && dist[src] == 0 && Small(dist) && AllRelaxed(lanes, dist, clean) && Walk(lanes, src, t, hops)
    requires forall v :: v in dist && v !in clean ==> dist[v] >= bound
    ensures bound <= Cost(lanes, hops) || Val(dist, t) <= Cost(lanes, hops)
    decreases |hops|
  {
    hide Walk, NewCost;
    if hops == [] {
      WalkSame(lanes, src, t);
    } else {
      var init, last := hops[..|hops| - 1], hops[|hops| - 1];
      WalkInit(lanes, src, t, hops);
      WalkOn(lanes, src, t, hops);
      var u := From(lanes, last);
      LowerBound(lanes, src, dist, clean, bound, u, init);
      if u in clean {
        assert RelaxedAt(lanes, dist, u);
      }
    }
  }

  lemma BoundsAll(lanes: seq<Lane>, src: nat, dist: Dist, clean: set<nat>, bound: nat, t: nat)
    requires src in dist && dist[src] == 0 && Small(dist) && AllRelaxed(lanes, dist, clean)
    requires forall v :: v in dist && v !in clean ==> dist[v] >= bound
    ensures AtMost(lanes, src, t, if Val(dist, t) < bound then Val(dist, t) else bound)
  {
    hide Walk, Cost, AllRelaxed;
    forall hops | Walk(lanes, src, t, hops)
      ensures OnLanes(lanes, hops) && (bound <= Cost(lanes, hops) || Val(dist, t) <= Cost(lanes, hops))
    {
      WalkOn(lanes, src, t, hops);
      LowerBound(lanes, src, dist, clean, bound, t, hops);
    }
  }

  // ---- What a run without harmful wrapping keeps ----

  /** Step `e` leads into port `v` and accounts for its distance. */
  ghost predicate Arc(lanes: seq<Lane>, dist: Dist, e: (nat, Hop), v: nat) {
    && e.1.lane < |lanes| && From(lanes, e.1) == e.0 && To(lanes, e.1) == v
    && e.0 in dist && v in dist && dist[e.0] + Length(lanes, e.1) == dist[v]
  }

  /** The predecessors form a tree rooted at the source; its inner ports were settled one after the other. */
  ghost predicate Tree(lanes: seq<Lane>, src: nat, dist: Dist, prev: Prev, done: seq<nat>) {
    && src in dist && dist[src] == 0
    && Distinct(done) && (forall k :: 0 <= k < |done| ==> done[k] in dist)
    && (forall v :: v in dist && v != src ==> v in prev && Arc(lanes, dist, prev[v], v) && prev[v].0 in done)
    && (forall k :: 0 <= k < |done| && done[k] != src ==> prev[done[k]].0 in done[..k])
  }

  ghost predicate Settled(dist: Dist, heap: Heap, clean: set<nat>, done: seq<nat>) {
    && (forall u :: u in clean <==> u in done)
    && (forall u, e :: u in done && e in heap ==> Val(dist, u) <= e.0)
  }

  // Following the predecessors from a settled port gives a walk of the recorded length.
  lemma {:induction false} TreeWalk(lanes: seq<Lane>, src: nat, dist: Dist, prev: Prev, done: seq<nat>, k: nat)
      returns (hops: seq<Hop>)
    requires Tree(lanes, src, dist, prev, done) && k < |done|
    ensures Walk(lanes, src, done[k], hops) && Cost(lanes, hops) == dist[done[k]]
    decreases k
  {
    hide Walk, Cost, From, To, Length;
    var v := done[k];
    if v == src {
      hops := [];
      WalkNone(lanes, src);
    } else {
      var (u, h) := prev[v];
      var j: nat :| j < k && done[j] == u;
      hops := TreeWalk(lanes, src, dist, prev, done, j);
      WalkAppend(lanes, src, u, hops, h);
      hops := hops + [h];
    }
  }

  lemma OneMoreDistinct(done: seq<nat>, port: nat)
    requires Distinct(done) && port !in done
    ensures Distinct(done + [port]) && forall v: nat :: v in done + [port] <==> v in done || v == port
  {
  }

  lemma SettleTree(lanes: seq<Lane>, src: nat, dist: Dist, prev: Prev, done: seq<nat>, port: nat)
    requires Tree(lanes, src, dist, prev, done) && port in dist && port !in done
    ensures Tree(lanes, src, dist, prev, done + [port])
  {
    hide Arc, Distinct;
    var more := done + [port];
    OneMoreDistinct(done, port);
    forall k | 0 <= k < |more| && more[k] != src
      ensures prev[more[k]].0 in more[..k]
    {
      if k < |done| {
        assert more[..k] == done[..k];
      } else {
        assert more[..k] == done;
      }
    }
  }

  lemma ArcKept(lanes: seq<Lane>, dist: Dist, e: (nat, Hop), x: nat, v: nat, cost: nat)
    requires Arc(lanes, dist, e, x) && x != v && e.0 != v
    ensures Arc(lanes, dist[v := cost], e, x)
  {
    hide From, To, Length;
  }

  lemma NewArc(lanes: seq<Lane>, dist: Dist, h: Hop, v: nat, cost: nat)
    requires h.lane < |lanes| && From(lanes, h) in dist && From(lanes, h) != v == To(lanes, h)
    requires cost == dist[From(lanes, h)] + Length(lanes, h)
    ensures Arc(lanes, dist[v := cost], (From(lanes, h), h), v)
  {
    hide From, To, Length;
  }

  lemma RelaxTree(lanes: seq<Lane>, src: nat, dist: Dist, prev: Prev, done: seq<nat>, h: Hop, v: nat, cost: nat)
    requires Tree(lanes, src, dist, prev, done) && h.lane < |lanes| && From(lanes, h) in done && To(lanes, h) == v
    requires From(lanes, h) in dist && cost == dist[From(lanes, h)] + Length(lanes, h)
    requires v !in done && v != src
    ensures Tree(lanes, src, dist[v := cost], prev[v := (From(lanes, h), h)], done)
  {
    hide From, To, Length, Arc, Distinct;
    var dist', prev' := dist[v := cost], prev[v := (From(lanes, h), h)];
    NewArc(lanes, dist, h, v, cost);
    forall x | x in dist' && x != src
      ensures x in prev' && Arc(lanes, dist', prev'[x], x) && prev'[x].0 in done
    {
      if x != v {
        ArcKept(lanes, dist, prev[x], x, v, cost);
      }
    }
    forall k | 0 <= k < |done| && done[k] != src
      ensures prev'[done[k]].0 in done[..k]
    {
      assert done[k] in done;
    }
  }

  // ---- One popped port ----

  ghost predicate Topped(dist: Dist, done: seq<nat>, cost: nat) {
    forall u :: u in done ==> u in dist && dist[u] <= cost
  }

  /** The state while the lanes at a popped port are relaxed with cost `cost`. */
  ghost predicate Expanding(lanes: seq<Lane>, src: nat, dist: Dist, prev: Prev, heap: Heap, at: Dist, clean: set<nat>,
                            port: nat, cost: nat)
  {
    && Linked(lanes, src, dist, prev, at, clean) && Waiting(dist, heap, clean)
    && port in dist && dist[port] <= cost && (port in clean <==> dist[port] == cost)
    && AtMost(lanes, src, port, cost)
    && (forall u :: u in clean && u != port ==> RelaxedAt(lanes, dist, u))
  }

  /** The same without harmful wrapping. */
  ghost predicate Growing(lanes: seq<Lane>, src: nat, dist: Dist, prev: Prev, heap: Heap, clean: set<nat>,
                          done: seq<nat>, port: nat, cost: nat)
  {
    && Tree(lanes, src, dist, prev, done) && Settled(dist, heap, clean, done)
    && port in done && port in dist && dist[port] == cost && Topped(dist, done, cost)
  }

  ghost predicate NoGreater(dist: Dist, was: Dist) {
    forall v: nat :: Val(dist, v) <= Val(was, v)
  }

  /** No lane at the port wraps its cost below a distance known when the port was popped. */
  ghost predicate SafeHops(lanes: seq<Lane>, was: Dist, port: nat, cost: nat) {
    forall h: Hop :: h.lane < |lanes| && From(lanes, h) == port ==>
      cost + Length(lanes, h) <= U32_MAX || Val(was, To(lanes, h)) <= NewCost(cost, Length(lanes, h))
  }

  lemma ReachedOver(lanes: seq<Lane>, src: nat, h: Hop)
    requires h.lane < |lanes| && Reached(lanes, src, From(lanes, h))
    ensures Reached(lanes, src, To(lanes, h))
  {
    hide Walk, Cost;
    var hops :| Walk(lanes, src, From(lanes, h), hops);
    WalkOn(lanes, src, From(lanes, h), hops);
    WalkAppend(lanes, src, From(lanes, h), hops, h);
  }

  // An improvement over hop `h`, whether or not its cost has wrapped.
  lemma RelaxLinked(lanes: seq<Lane>, src: nat, dist: Dist, prev: Prev, at: Dist, clean: set<nat>, port: nat, h: Hop,
                    v: nat, cost: nat)
    requires Linked(lanes, src, dist, prev, at, clean) && AtMost(lanes, src, port, cost)
    requires port in dist && dist[port] <= cost && (port in clean <==> dist[port] == cost)
    requires h.lane < |lanes| && From(lanes, h) == port && To(lanes, h) == v
    requires NewCost(cost, Length(lanes, h)) < Val(dist, v)
    ensures v != src
    ensures Linked(lanes, src, dist[v := NewCost(cost, Length(lanes, h))], prev[v := (port, h)], at[v := cost],
                   clean - {v})
  {
    hide From, To, Length, NewCost, AtMost, Reached;
    ReachedOver(lanes, src, h);
    var dist', prev' := dist[v := NewCost(cost, Length(lanes, h))], prev[v := (port, h)];
    var at', clean' := at[v := cost], clean - {v};
    forall x | x in dist' && x != src
      ensures x in prev' && x in at' && Link(lanes, src, dist', at'[x], clean', prev'[x], x)
    {
      if x != v {
        assert Link(lanes, src, dist, at[x], clean, prev[x], x);
      }
    }
  }

  lemma RelaxWaiting(dist: Dist, heap: Heap, clean: set<nat>, v: nat, cost: nat)
    requires Waiting(dist, heap, clean) && cost < Val(dist, v)
    ensures Waiting(dist[v := cost], heap + [(cost, v)], clean - {v})
  {
    var more := heap + [(cost, v)];
    assert forall e {:trigger e in more} :: e in more <==> e in heap || e == (cost, v);
  }

  lemma StaysRelaxed(lanes: seq<Lane>, dist: Dist, v: nat, cost: nat, u: nat)
    requires RelaxedAt(lanes, dist, u) && u != v && cost < Val(dist, v)
    ensures RelaxedAt(lanes, dist[v := cost], u)
  {
    hide From, To, Length, NewCost;
  }

  lemma RelaxOne(lanes: seq<Lane>, src: nat, dist: Dist, prev: Prev, heap: Heap, at: Dist, clean: set<nat>, port: nat,
                 cost: nat, h: Hop, v: nat, newCost: nat)
    requires Expanding(lanes, src, dist, prev, heap, at, clean, port, cost)
    requires h.lane < |lanes| && From(lanes, h) == port && To(lanes, h) == v
    requires newCost == NewCost(cost, Length(lanes, h)) < Val(dist, v)
    ensures Expanding(lanes, src, dist[v := newCost], prev[v := (port, h)], heap + [(newCost, v)], at[v := cost],
                      clean - {v}, port, cost)
  {
    hide From, To, Length, NewCost, AtMost, Linked, Waiting, RelaxedAt;
    RelaxLinked(lanes, src, dist, prev, at, clean, port, h, v, cost);
    RelaxWaiting(dist, heap, clean, v, newCost);
    forall u | u in clean - {v} && u != port
      ensures RelaxedAt(lanes, dist[v := newCost], u)
    {
      StaysRelaxed(lanes, dist, v, newCost, u);
    }
  }

  // Without harmful wrapping an improvement never touches a settled port.
  lemma GrowOne(lanes: seq<Lane>, src: nat, was: Dist, dist: Dist, prev: Prev, heap: Heap, clean: set<nat>,
                done: seq<nat>, port: nat, cost: nat, h: Hop, v: nat, newCost: nat)
    requires Growing(lanes, src, dist, prev, heap, clean, done, port, cost)
    requires SafeHops(lanes, was, port, cost) && NoGreater(dist, was)
    requires h.lane < |lanes| && From(lanes, h) == port && To(lanes, h) == v && v != src
    requires newCost == NewCost(cost, Length(lanes, h)) < Val(dist, v)
    ensures v !in done && newCost == cost + Length(lanes, h)
    ensures Growing(lanes, src, dist[v := newCost], prev[v := (port, h)], heap + [(newCost, v)], clean - {v}, done,
                    port, cost)
  {
    hide From, To, Length, NewCost, Tree;
    assert Val(dist, v) <= Val(was, v);
    assert newCost == cost + Length(lanes, h);
    assert v !in done;
    RelaxTree(lanes, src, dist, prev, done, h, v, newCost);
    var more := heap + [(newCost, v)];
    assert forall e {:trigger e in more} :: e in more <==> e in heap || e == (newCost, v);
  }

  // Every entry looked at so far offers no improvement any more.
  ghost predicate Tried(lanes: seq<Lane>, dist: Dist, cost: nat, entries: seq<(nat, nat)>) {
    forall e :: e in entries && e.1 < |lanes| ==> Val(dist, e.0) <= NewCost(cost, |lanes[e.1].path|)
  }

  lemma TriedMore(lanes: seq<Lane>, dist: Dist, cost: nat, entries: seq<(nat, nat)>, e: (nat, nat))
    requires e.1 < |lanes| && Tried(lanes, dist, cost, entries)
    ensures var newCost := NewCost(cost, |lanes[e.1].path|);
            && (newCost >= Val(dist, e.0) ==> Tried(lanes, dist, cost, entries + [e]))
            && (newCost < Val(dist, e.0) ==> Tried(lanes, dist[e.0 := newCost], cost, entries + [e]))
  {
    hide NewCost;
    var more := entries + [e];
    assert forall x {:trigger x in more} :: x in more <==> x in entries || x == e;
  }

  lemma TriedAll(lanes: seq<Lane>, dist: Dist, port: nat)
    requires port in dist && Tried(lanes, dist, dist[port], Neighbours(lanes, port))
    ensures RelaxedAt(lanes, dist, port)
  {
    NeighboursAre(lanes, port);
    hide Neighbours, NewCost;
    forall h: Hop | h.lane < |lanes| && From(lanes, h) == port
      ensures Val(dist, To(lanes, h)) <= NewCost(dist[port], Length(lanes, h))
    {
      assert (To(lanes, h), h.lane) in Neighbours(lanes, port);
    }
  }

  lemma ExpandEnds(lanes: seq<Lane>, src: nat, dist: Dist, prev: Prev, heap: Heap, at: Dist, clean: set<nat>, port: nat,
                   cost: nat)
    requires Expanding(lanes, src, dist, prev, heap, at, clean, port, cost)
    requires Tried(lanes, dist, cost, Neighbours(lanes, port))
    ensures AllRelaxed(lanes, dist, clean)
  {
    hide Neighbours, Linked, Waiting, AtMost, RelaxedAt, Tried;
    if port in clean {
      TriedAll(lanes, dist, port);
    }
  }

  // ---- Termination: distances only go down ----

  ghost function PortList(lanes: seq<Lane>, src: nat): seq<nat> {
    [src] +
    seq(|lanes|, k requires 0 <= k < |lanes| => lanes[k].a) +
    seq(|lanes|, k requires 0 <= k < |lanes| => lanes[k].b)
  }

  lemma InPortList(lanes: seq<Lane>, src: nat, h: Hop)
    requires h.lane < |lanes|
    ensures To(lanes, h) in PortList(lanes, src)
  {
    var list := PortList(lanes, src);
    assert list[1 + h.lane] == lanes[h.lane].a;
    assert list[1 + |lanes| + h.lane] == lanes[h.lane].b;
  }

  ghost function Weight(dist: Dist, ports: seq<nat>): nat {
    if ports == [] then 0 else Val(dist, ports[0]) + Weight(dist, ports[1..])
  }

  lemma {:induction false} WeightLess(dist: Dist, ports: seq<nat>, v: nat, cost: nat)
    requires cost < Val(dist, v)
    ensures Weight(dist[v := cost], ports) <= Weight(dist, ports)
    ensures v in ports ==> Weight(dist[v := cost], ports) < Weight(dist, ports)
  {
    if ports != [] {
      WeightLess(dist, ports[1..], v, cost);
      assert ports == [ports[0]] + ports[1..];
    }
  }

  /** Relax every lane at a popped port, with the cost it was popped with. */
  method Expand(lanes: seq<Lane>, neighbours: seq<(nat, nat)>, ghost src: nat, port: nat, cost: nat,
                dist: Dist, prev: Prev, heap: Heap, ghost at: Dist, ghost clean: set<nat>, ghost done: seq<nat>,
                ghost safe: bool)
      returns (dist': Dist, prev': Prev, heap': Heap, ghost at': Dist, ghost clean': set<nat>)
    requires neighbours == Neighbours(lanes, port)
    requires Expanding(lanes, src, dist, prev, heap, at, clean, port, cost)
    requires safe ==>
               SafeHops(lanes, dist, port, cost) && Growing(lanes, src, dist, prev, heap, clean, done, port, cost)
    ensures Linked(lanes, src, dist', prev', at', clean') && Waiting(dist', heap', clean')
    ensures AllRelaxed(lanes, dist', clean')
    ensures clean' <= clean
    ensures safe ==> Growing(lanes, src, dist', prev', heap', clean', done, port, cost)
    ensures (dist' == dist && heap' == heap) || Weight(dist', PortList(lanes, src)) < Weight(dist, PortList(lanes, src))
  {
    hide Neighbours, Expanding, Growing, SafeHops, NoGreater, Tried, NewCost, Weight, PortList;
    hide Linked, Waiting, AllRelaxed;
    hide From, To;
    dist', prev', heap', at', clean' := dist, prev, heap, at, clean;
    StartExpand(lanes, dist, cost);
    for k := 0 to |neighbours|
      invariant Expanding(lanes, src, dist', prev', heap', at', clean', port, cost)
      invariant Tried(lanes, dist', cost, neighbours[..k]) && NoGreater(dist', dist) && clean' <= clean
      invariant safe ==> Growing(lanes, src, dist', prev', heap', clean', done, port, cost)
      invariant || (dist' == dist && heap' == heap)
                || Weight(dist', PortList(lanes, src)) < Weight(dist, PortList(lanes, src))
    {
      var e := neighbours[k];
      NeighbourHop(lanes, port, k);
      assert neighbours[..k + 1] == neighbours[..k] + [e];
      var newCost := NewCost(cost, |lanes[e.1].path|);
      TriedMore(lanes, dist', cost, neighbours[..k], e);
      if newCost < Val(dist', e.0) {
        var h := HopOf(lanes, port, e);
        Improve(lanes, src, dist, dist', prev', heap', at', clean', done, port, cost, h, e.0, newCost, safe);
        dist' := dist'[e.0 := newCost];
        prev' := prev'[e.0 := (port, h)];
        heap' := heap' + [(newCost, e.0)];
        at', clean' := at'[e.0 := cost], clean' - {e.0};
      }
    }
    assert neighbours[..|neighbours|] == neighbours;
    ExpandEnds(lanes, src, dist', prev', heap', at', clean', port, cost);
    ExpandedParts(lanes, src, dist', prev', heap', at', clean', port, cost);
  }

  lemma StartExpand(lanes: seq<Lane>, dist: Dist, cost: nat)
    ensures Tried(lanes, dist, cost, []) && NoGreater(dist, dist)
  {
  }

  lemma ExpandedParts(lanes: seq<Lane>, src: nat, dist: Dist, prev: Prev, heap: Heap, at: Dist, clean: set<nat>,
                      port: nat, cost: nat)
    requires Expanding(lanes, src, dist, prev, heap, at, clean, port, cost)
    ensures Linked(lanes, src, dist, prev, at, clean) && Waiting(dist, heap, clean)
  {
  }

  lemma Improve(lanes: seq<Lane>, src: nat, was: Dist, dist: Dist, prev: Prev, heap: Heap, at: Dist, clean: set<nat>,
                done: seq<nat>, port: nat, cost: nat, h: Hop, v: nat, newCost: nat, safe: bool)
    requires Expanding(lanes, src, dist, prev, heap, at, clean, port, cost) && NoGreater(dist, was)
    requires h.lane < |lanes| && From(lanes, h) == port && To(lanes, h) == v
    requires newCost == NewCost(cost, Length(lanes, h)) < Val(dist, v)
    requires safe ==> SafeHops(lanes, was, port, cost) && Growing(lanes, src, dist, prev, heap, clean, done, port, cost)
    ensures Expanding(lanes, src, dist[v := newCost], prev[v := (port, h)], heap + [(newCost, v)], at[v := cost],
                      clean - {v}, port, cost)
    ensures safe ==>
              Growing(lanes, src, dist[v := newCost], prev[v := (port, h)], heap + [(newCost, v)], clean - {v}, done,
                      port, cost)
    ensures NoGreater(dist[v := newCost], was)
    ensures Weight(dist[v := newCost], PortList(lanes, src)) < Weight(dist, PortList(lanes, src))
  {
    hide Expanding, Growing, SafeHops, NewCost, PortList, From, To;
    RelaxOne(lanes, src, dist, prev, heap, at, clean, port, cost, h, v, newCost);
    InPortList(lanes, src, h);
    WeightLess(dist, PortList(lanes, src), v, newCost);
    if safe {
      NotSource(lanes, src, dist, prev, heap, at, clean, port, cost, v, newCost);
      GrowOne(lanes, src, was, dist, prev, heap, clean, done, port, cost, h, v, newCost);
    }
  }

  lemma NotSource(lanes: seq<Lane>, src: nat, dist: Dist, prev: Prev, heap: Heap, at: Dist, clean: set<nat>, port: nat,
                  cost: nat, v: nat, newCost: nat)
    requires Expanding(lanes, src, dist, prev, heap, at, clean, port, cost) && newCost < Val(dist, v)
    ensures v != src
  {
  }

  // ---- When wrapping is harmless ----

  /** A cost of `dp` over a lane of `length` tiles stays in range, or wraps to no less than the distance `dq`. */
  predicate StaysAbove(dp: nat, length: nat, dq: nat) {
    dp + length <= U32_MAX || (length <= U32_MAX && dp + length - U32_RANGE >= dq)
  }

  /**
  The destination, if it can be reached, is less than 2^32 - 1 away, and at no other port that is as close as it
  does a cost wrap around below the true distance of the port at the far end of the lane.
  */
  ghost predicate Harmless(lanes: seq<Lane>, src: nat, dst: nat) {
    forall dd: nat :: IsDistance(lanes, src, dst, dd) ==> dd < U32_MAX && NoUndercut(lanes, src, dst, dd)
  }

  ghost predicate NoUndercut(lanes: seq<Lane>, src: nat, dst: nat, dd: nat) {
    forall h: Hop, dp: nat, dq: nat :: Before(lanes, src, dst, dd, h, dp, dq) ==> StaysAbove(dp, Length(lanes, h), dq)
  }

  // Hop `h` leaves a port other than the destination, no farther than it, and leads to one at distance `dq`.
  ghost predicate Before(lanes: seq<Lane>, src: nat, dst: nat, dd: nat, h: Hop, dp: nat, dq: nat) {
    && h.lane < |lanes| && From(lanes, h) != dst && dp <= dd
    && IsDistance(lanes, src, From(lanes, h), dp) && IsDistance(lanes, src, To(lanes, h), dq)
  }

  // ---- The whole search ----

  ghost predicate Searching(lanes: seq<Lane>, src: nat, dst: nat, dist: Dist, prev: Prev, heap: Heap, at: Dist,
                            clean: set<nat>)
  {
    && Linked(lanes, src, dist, prev, at, clean) && Waiting(dist, heap, clean) && AllRelaxed(lanes, dist, clean)
    && dst !in clean
  }

  // What holds besides, if the destination can be reached and wrapping is harmless.
  ghost predicate Orderly(lanes: seq<Lane>, src: nat, dst: nat, dist: Dist, prev: Prev, heap: Heap, clean: set<nat>,
                          done: seq<nat>)
  {
    Tree(lanes, src, dist, prev, done) && Settled(dist, heap, clean, done)
  }

  ghost predicate Benign(lanes: seq<Lane>, src: nat, dst: nat) {
    Reached(lanes, src, dst) && Harmless(lanes, src, dst)
  }

  lemma SearchStarts(lanes: seq<Lane>, src: nat, dst: nat)
    ensures Searching(lanes, src, dst, map[src := 0], map[], [(0, src)], map[], {})
    ensures Orderly(lanes, src, dst, map[src := 0], map[], [(0, src)], {}, [])
  {
    hide Walk, Cost;
    var dist: Dist := map[src := 0];
    WalkNone(lanes, src);
    assert (dist[src], src) in [(0, src)];
  }

  lemma SearchStale(lanes: seq<Lane>, src: nat, dst: nat, dist: Dist, prev: Prev, heap: Heap, at: Dist, clean: set<nat>,
                    done: seq<nat>, top: (nat, nat), rest: Heap)
    requires Searching(lanes, src, dst, dist, prev, heap, at, clean) && forall e :: e in heap <==> e == top || e in rest
    requires top.0 > Val(dist, top.1)
    ensures Searching(lanes, src, dst, dist, prev, rest, at, clean)
    ensures Orderly(lanes, src, dst, dist, prev, heap, clean, done) ==>
              Orderly(lanes, src, dst, dist, prev, rest, clean, done)
  {
    hide Tree, Linked, AllRelaxed;
  }

  lemma Least(lanes: seq<Lane>, src: nat, dst: nat, dist: Dist, prev: Prev, heap: Heap, at: Dist, clean: set<nat>,
              top: (nat, nat))
    requires Searching(lanes, src, dst, dist, prev, heap, at, clean) && top in heap
    requires forall e :: e in heap ==> LexLe(top, e)
    ensures top.1 in dist && dist[top.1] <= top.0
    ensures forall v :: v in dist && v !in clean ==> dist[v] >= top.0
    ensures top.1 !in clean ==> dist[top.1] == top.0
  {
    hide Linked, AllRelaxed;
    forall v | v in dist && v !in clean
      ensures dist[v] >= top.0
    {
      assert LexLe(top, (dist[v], v));
    }
  }

  lemma LinkedSource(lanes: seq<Lane>, src: nat, dist: Dist, prev: Prev, at: Dist, clean: set<nat>)
    requires Linked(lanes, src, dist, prev, at, clean)
    ensures src in dist && dist[src] == 0 && Small(dist)
  {
  }

  // The least cost in the heap bounds every walk that ends beyond it.
  lemma TopBounds(lanes: seq<Lane>, src: nat, dst: nat, dist: Dist, prev: Prev, heap: Heap, at: Dist, clean: set<nat>,
                  top: (nat, nat), t: nat)
    requires Searching(lanes, src, dst, dist, prev, heap, at, clean) && top in heap
    requires forall e :: e in heap ==> LexLe(top, e)
    ensures AtMost(lanes, src, t, if Val(dist, t) < top.0 then Val(dist, t) else top.0)
  {
    hide Linked, Waiting, AllRelaxed, AtMost;
    Least(lanes, src, dst, dist, prev, heap, at, clean, top);
    LinkedSource(lanes, src, dist, prev, at, clean);
    BoundsAll(lanes, src, dist, clean, top.0, t);
  }

  // A popped port whose cost is current: its lanes are relaxed next.
  lemma StartPort(lanes: seq<Lane>, src: nat, dst: nat, dist: Dist, prev: Prev, heap: Heap, at: Dist, clean: set<nat>,
                  top: (nat, nat), rest: Heap)
    requires Searching(lanes, src, dst, dist, prev, heap, at, clean) && top in heap
    requires forall e :: e in heap ==> LexLe(top, e)
    requires forall e :: e in heap <==> e == top || e in rest
    requires top.0 <= Val(dist, top.1)
    ensures top.1 in dist && dist[top.1] == top.0 && dst !in clean
    ensures Expanding(lanes, src, dist, prev, rest, at, clean + {top.1}, top.1, top.0)
  {
    hide AtMost, RelaxedAt;
    Least(lanes, src, dst, dist, prev, heap, at, clean, top);
    TopBounds(lanes, src, dst, dist, prev, heap, at, clean, top, top.1);
    LinkedMore(lanes, src, dist, prev, at, clean, top.1);
    hide Linked;
  }

  lemma LinkedMore(lanes: seq<Lane>, src: nat, dist: Dist, prev: Prev, at: Dist, clean: set<nat>, port: nat)
    requires Linked(lanes, src, dist, prev, at, clean)
    ensures Linked(lanes, src, dist, prev, at, clean + {port})
  {
    hide AtMost, Reached, From, To, Length, NewCost;
  }

  // Without harmful wrapping, a popped port is settled.
  lemma StartGrowing(lanes: seq<Lane>, src: nat, dst: nat, dist: Dist, prev: Prev, heap: Heap, clean: set<nat>,
                     done: seq<nat>, top: (nat, nat), rest: Heap)
    requires Orderly(lanes, src, dst, dist, prev, heap, clean, done) && top in heap
    requires forall e :: e in heap ==> LexLe(top, e)
    requires forall e :: e in heap <==> e == top || e in rest
    requires top.1 in dist && dist[top.1] == top.0
    ensures Growing(lanes, src, dist, prev, rest, clean + {top.1}, WithPort(done, top.1), top.1, top.0)
  {
    hide Tree;
    TreeDone(lanes, src, dist, prev, done);
    if top.1 !in done {
      SettleTree(lanes, src, dist, prev, done, top.1);
    }
    var more := WithPort(done, top.1);
    assert forall v {:trigger v in more} :: v in more <==> v in done || v == top.1;
  }

  lemma TreeDone(lanes: seq<Lane>, src: nat, dist: Dist, prev: Prev, done: seq<nat>)
    requires Tree(lanes, src, dist, prev, done)
    ensures forall u :: u in done ==> u in dist
  {
  }

  ghost function WithPort(done: seq<nat>, port: nat): seq<nat> {
    if port in done then done else done + [port]
  }

  // The recorded distance of a settled port is its true distance.
  lemma SettledIsTrue(lanes: seq<Lane>, src: nat, dist: Dist, prev: Prev, done: seq<nat>, port: nat)
    requires Tree(lanes, src, dist, prev, done) && port in done && port in dist && AtMost(lanes, src, port, dist[port])
    ensures IsDistance(lanes, src, port, dist[port])
  {
    hide Walk, Cost, Tree, AtMost;
    var k: nat :| k < |done| && done[k] == port;
    var hops := TreeWalk(lanes, src, dist, prev, done, k);
  }

  lemma TrueDistance(lanes: seq<Lane>, src: nat, v: nat) returns (d: nat)
    requires Reached(lanes, src, v)
    ensures IsDistance(lanes, src, v, d)
  {
    hide Walk, Cost;
    var hops :| Walk(lanes, src, v, hops);
    d := HasDistance(lanes, src, v, hops);
  }

  lemma AtMostDistance(lanes: seq<Lane>, src: nat, v: nat, d: nat, c: nat)
    requires IsDistance(lanes, src, v, d) && AtMost(lanes, src, v, c)
    ensures c <= d
  {
    var hops :| Walk(lanes, src, v, hops) && Cost(lanes, hops) == d;
  }

  // A port popped before the destination is no farther than it.
  lemma PoppedBefore(lanes: seq<Lane>, src: nat, dst: nat, dist: Dist, prev: Prev, heap: Heap, at: Dist,
                     clean: set<nat>, top: (nat, nat), dd: nat)
    requires Searching(lanes, src, dst, dist, prev, heap, at, clean) && top in heap
    requires forall e :: e in heap ==> LexLe(top, e)
    requires top.0 <= Val(dist, top.1) && IsDistance(lanes, src, dst, dd)
    ensures top.0 <= dd
  {
    hide AtMost, IsDistance, AllRelaxed, NewCost;
    Least(lanes, src, dst, dist, prev, heap, at, clean, top);
    TopBounds(lanes, src, dst, dist, prev, heap, at, clean, top, dst);
    AtMostDistance(lanes, src, dst, dd, if Val(dist, dst) < top.0 then Val(dist, dst) else top.0);
  }

  /** Harmless wrapping means that no lane at a popped port offers a false improvement. */
  lemma PopIsSafe(lanes: seq<Lane>, src: nat, dst: nat, dist: Dist, prev: Prev, heap: Heap, at: Dist, clean: set<nat>,
                  done: seq<nat>, top: (nat, nat), rest: Heap)
    requires Searching(lanes, src, dst, dist, prev, heap, at, clean) && Benign(lanes, src, dst) && top in heap
    requires forall e :: e in heap ==> LexLe(top, e)
    requires top.1 != dst && top.1 in dist && dist[top.1] == top.0
    requires Growing(lanes, src, dist, prev, rest, clean + {top.1}, done, top.1, top.0)
    ensures SafeHops(lanes, dist, top.1, top.0)
  {
    hide AtMost, IsDistance, Reached, Searching, NewCost, Harmless, Tree;
    var port, cost := top.1, top.0;
    var dd := TrueDistance(lanes, src, dst);
    TopBounds(lanes, src, dst, dist, prev, heap, at, clean, top, port);
    SettledIsTrue(lanes, src, dist, prev, done, port);
    PoppedBefore(lanes, src, dst, dist, prev, heap, at, clean, top, dd);
    forall h: Hop | h.lane < |lanes| && From(lanes, h) == port
      ensures cost + Length(lanes, h) <= U32_MAX || Val(dist, To(lanes, h)) <= NewCost(cost, Length(lanes, h))
    {
      HopIsSafe(lanes, src, dst, dist, prev, heap, at, clean, top, dd, h);
    }
  }

  lemma HopIsSafe(lanes: seq<Lane>, src: nat, dst: nat, dist: Dist, prev: Prev, heap: Heap, at: Dist, clean: set<nat>,
                  top: (nat, nat), dd: nat, h: Hop)
    requires Searching(lanes, src, dst, dist, prev, heap, at, clean) && Harmless(lanes, src, dst) && top in heap
    requires forall e :: e in heap ==> LexLe(top, e)
    requires IsDistance(lanes, src, dst, dd) && top.0 <= dd && IsDistance(lanes, src, top.1, top.0)
    requires h.lane < |lanes| && From(lanes, h) == top.1 != dst
    ensures top.0 + Length(lanes, h) <= U32_MAX || Val(dist, To(lanes, h)) <= NewCost(top.0, Length(lanes, h))
  {
    hide AtMost, IsDistance, Reached, Searching, From, To, Length;
    var q := To(lanes, h);
    DistanceReached(lanes, src, top.1, top.0);
    ReachedOver(lanes, src, h);
    var dq := TrueDistance(lanes, src, q);
    assert NoUndercut(lanes, src, dst, dd) && Before(lanes, src, dst, dd, h, top.0, dq);
    assert StaysAbove(top.0, Length(lanes, h), dq);
    TopBounds(lanes, src, dst, dist, prev, heap, at, clean, top, q);
    AtMostDistance(lanes, src, q, dq, if Val(dist, q) < top.0 then Val(dist, q) else top.0);
  }

  lemma DistanceReached(lanes: seq<Lane>, src: nat, v: nat, d: nat)
    requires IsDistance(lanes, src, v, d)
    ensures Reached(lanes, src, v)
  {
    hide Walk, Cost;
  }

  /** The state when the search stops. */
  ghost predicate Searched(lanes: seq<Lane>, src: nat, dst: nat, dist: Dist, prev: Prev, at: Dist, clean: set<nat>) {
    && Linked(lanes, src, dist, prev, at, clean) && AllRelaxed(lanes, dist, clean)
    && AtMost(lanes, src, dst, Val(dist, dst))
  }

  lemma SearchStops(lanes: seq<Lane>, src: nat, dst: nat, dist: Dist, prev: Prev, heap: Heap, at: Dist, clean: set<nat>,
                    top: (nat, nat))
    requires Searching(lanes, src, dst, dist, prev, heap, at, clean) && top in heap && top.1 == dst
    requires forall e :: e in heap ==> LexLe(top, e)
    ensures dst in dist && Searched(lanes, src, dst, dist, prev, at, clean)
  {
    hide Linked, AllRelaxed, AtMost, Waiting;
    Least(lanes, src, dst, dist, prev, heap, at, clean, top);
    TopBounds(lanes, src, dst, dist, prev, heap, at, clean, top, dst);
  }

  lemma SearchExhausted(lanes: seq<Lane>, src: nat, dst: nat, dist: Dist, prev: Prev, at: Dist, clean: set<nat>)
    requires Searching(lanes, src, dst, dist, prev, [], at, clean)
    ensures dst !in dist && Searched(lanes, src, dst, dist, prev, at, clean)
  {
    hide Linked, AllRelaxed, AtMost;
    LinkedSource(lanes, src, dist, prev, at, clean);
    BoundsAll(lanes, src, dist, clean, U32_MAX, dst);
  }

  /**
  Dijkstra's algorithm with lazy deletion, up to the first time the destination is popped. It stops for all
  lanes, and the destination's recorded distance is never more than its true one. If wrapping is harmless,
  the predecessors form a tree of true distances.
  */
  method Search(lanes: seq<Lane>, src: nat, dst: nat)
      returns (dist: Dist, prev: Prev, ghost at: Dist, ghost clean: set<nat>, ghost done: seq<nat>)
    ensures Searched(lanes, src, dst, dist, prev, at, clean)
    ensures Benign(lanes, src, dst) ==> Tree(lanes, src, dist, prev, done)
  {
    hide Searching, Expanding, Growing, Orderly, Benign, AllRelaxed, Linked, Waiting, Neighbours, PortList, Weight;
    hide SafeHops, Tree, Searched, LexLe;
    var adj := BuildAdjacency(lanes);
    dist, prev, at, clean, done := map[src := 0], map[], map[], {}, [];
    var heap: Heap := [(0, src)];
    SearchStarts(lanes, src, dst);
    while heap != []
      invariant Searching(lanes, src, dst, dist, prev, heap, at, clean)
      invariant Benign(lanes, src, dst) ==> Orderly(lanes, src, dst, dist, prev, heap, clean, done)
      decreases Weight(dist, PortList(lanes, src)), |heap|
    {
      ghost var was := heap;
      var top, rest := PopMin(heap);
      Popped(heap, top, rest);
      heap := rest;
      var cost, port := top.0, top.1;
      if port == dst {
        SearchStops(lanes, src, dst, dist, prev, was, at, clean, top);
        OrderlyTree(lanes, src, dst, dist, prev, was, clean, done);
        return;
      }
      if cost > Val(dist, port) {
        SearchStale(lanes, src, dst, dist, prev, was, at, clean, done, top, rest);
        continue;
      }
      StartPort(lanes, src, dst, dist, prev, was, at, clean, top, rest);
      ghost var safe := Benign(lanes, src, dst);
      if safe {
        StartGrowing(lanes, src, dst, dist, prev, was, clean, done, top, rest);
        PopIsSafe(lanes, src, dst, dist, prev, was, at, clean, WithPort(done, port), top, rest);
      }
      done, clean := WithPort(done, port), clean + {port};
      ghost var had := clean;
      dist, prev, heap, at, clean :=
        Expand(lanes, Lookup(adj, port), src, port, cost, dist, prev, heap, at, clean, done, safe);
      SearchGoesOn(lanes, src, dst, dist, prev, heap, at, was, had, clean, done, port, cost, safe);
    }
    SearchExhausted(lanes, src, dst, dist, prev, at, clean);
    OrderlyTree(lanes, src, dst, dist, prev, heap, clean, done);
  }

  lemma OrderlyTree(lanes: seq<Lane>, src: nat, dst: nat, dist: Dist, prev: Prev, heap: Heap, clean: set<nat>,
                    done: seq<nat>)
    ensures Orderly(lanes, src, dst, dist, prev, heap, clean, done) ==> Tree(lanes, src, dist, prev, done)
  {
  }

  lemma SearchGoesOn(lanes: seq<Lane>, src: nat, dst: nat, dist: Dist, prev: Prev, heap: Heap, at: Dist, was: Heap,
                     had: set<nat>, clean: set<nat>, done: seq<nat>, port: nat, cost: nat, safe: bool)
    requires Linked(lanes, src, dist, prev, at, clean) && Waiting(dist, heap, clean) && AllRelaxed(lanes, dist, clean)
    requires clean <= had && dst !in had
    requires safe ==> Growing(lanes, src, dist, prev, heap, clean, done, port, cost)
    ensures Searching(lanes, src, dst, dist, prev, heap, at, clean)
    ensures safe ==> Orderly(lanes, src, dst, dist, prev, heap, clean, done)
  {
    hide Linked, Waiting, AllRelaxed, Tree, Settled, Topped;
  }

  // ---- Following the predecessors ----

  /** The port `n` steps back from `v`. */
  ghost function Back(prev: Prev, v: nat, n: nat): nat {
    if n == 0 then v else
      var u := Back(prev, v, n - 1);
      if u in prev then prev[u].0 else u
  }

  /** Following the predecessors from `v` goes on for ever. */
  ghost predicate NeverReaches(prev: Prev, src: nat, v: nat) {
    forall n: nat :: Back(prev, v, n) != src
  }

  /** Every predecessor met on the way back from `v` is one hop over a lane. */
  ghost predicate HopsBack(lanes: seq<Lane>, src: nat, v: nat, prev: Prev) {
    exists ports: set<nat> :: v in ports && HopsWithin(lanes, src, prev, ports)
  }

  ghost predicate HopsWithin(lanes: seq<Lane>, src: nat, prev: Prev, ports: set<nat>) {
    forall v :: v in ports && v != src ==>
      && v in prev && prev[v].0 in ports
      && prev[v].1.lane < |lanes| && From(lanes, prev[v].1) == prev[v].0 && To(lanes, prev[v].1) == v
  }

  lemma LinkedHopsBack(lanes: seq<Lane>, src: nat, v: nat, dist: Dist, prev: Prev, at: Dist, clean: set<nat>)
    requires Linked(lanes, src, dist, prev, at, clean) && v in dist
    ensures HopsBack(lanes, src, v, prev)
  {
    hide AtMost, NewCost, Reached;
    assert HopsWithin(lanes, src, prev, dist.Keys);
  }

  /** The walk that the predecessors spell out, through different ports. */
  ghost predicate Traced(lanes: seq<Lane>, prev: Prev, src: nat, t: nat, hops: seq<Hop>) {
    && Walk(lanes, src, t, hops)
    && (forall k :: 0 <= k < |hops| ==>
          && To(lanes, hops[k]) != src && To(lanes, hops[k]) in prev
          && prev[To(lanes, hops[k])] == (From(lanes, hops[k]), hops[k]))
    && (forall j, k :: 0 <= j < k < |hops| ==> To(lanes, hops[j]) != To(lanes, hops[k]))
  }

  lemma TracedInit(lanes: seq<Lane>, prev: Prev, src: nat, t: nat, hops: seq<Hop>)
    requires Traced(lanes, prev, src, t, hops) && hops != []
    ensures var last := hops[|hops| - 1];
            && Traced(lanes, prev, src, From(lanes, last), hops[..|hops| - 1])
            && To(lanes, last) == t != src && t in prev && prev[t] == (From(lanes, last), last)
  {
    WalkInit(lanes, src, t, hops);
  }

  lemma {:induction false} TracedPrefix(lanes: seq<Lane>, prev: Prev, src: nat, t: nat, hops: seq<Hop>, k: nat)
    requires Traced(lanes, prev, src, t, hops) && 0 < k <= |hops|
    ensures OnLanes(lanes, hops) && Traced(lanes, prev, src, To(lanes, hops[k - 1]), hops[..k])
    decreases |hops|
  {
    hide From, To;
    WalkOn(lanes, src, t, hops);
    TracedInit(lanes, prev, src, t, hops);
    if k == |hops| {
      assert hops[..k] == hops;
    } else {
      var init := hops[..|hops| - 1];
      TracedPrefix(lanes, prev, src, From(lanes, hops[|hops| - 1]), init, k);
      assert init[..k] == hops[..k];
    }
  }

  /** Such a walk uses no lane twice. */
  lemma TracedNoRepeats(lanes: seq<Lane>, prev: Prev, src: nat, t: nat, hops: seq<Hop>)
    requires Traced(lanes, prev, src, t, hops)
    ensures NoRepeats(hops)
  {
    forall i, j | 0 <= i < j < |hops|
      ensures hops[i].lane != hops[j].lane
    {
      if i > 0 {
        assert To(lanes, hops[i - 1]) == From(lanes, hops[i - 1 + 1]);
      }
      assert To(lanes, hops[j]) != From(lanes, hops[i]) && To(lanes, hops[j]) != To(lanes, hops[i]);
    }
  }

  function NextOf(trail: seq<nat>, current: nat, k: nat): nat {
    if k + 1 < |trail| then trail[k + 1] else current
  }

  // A port of the trail again: from there it goes round in a circle.
  lemma Circle(prev: Prev, src: nat, trail: seq<nat>, next: nat)
    requires trail != [] && next in trail && (forall v :: v in trail ==> v != src && v in prev)
    requires forall k: nat :: k < |trail| ==> prev[trail[k]].0 == NextOf(trail, next, k)
    ensures NeverReaches(prev, src, trail[0])
  {
    forall n: nat
      ensures Back(prev, trail[0], n) != src
    {
      StaysOnTrail(prev, src, trail, next, n);
    }
  }

  lemma {:induction false} StaysOnTrail(prev: Prev, src: nat, trail: seq<nat>, next: nat, n: nat)
    requires trail != [] && next in trail && (forall v :: v in trail ==> v != src && v in prev)
    requires forall k: nat :: k < |trail| ==> prev[trail[k]].0 == NextOf(trail, next, k)
    ensures Back(prev, trail[0], n) in trail
  {
    if n > 0 {
      StaysOnTrail(prev, src, trail, next, n - 1);
      var k :| 0 <= k < |trail| && trail[k] == Back(prev, trail[0], n - 1);
      assert k + 1 < |trail| ==> trail[k + 1] in trail;
      assert trail[k] in prev && Back(prev, trail[0], n) == prev[trail[k]].0;
    }
  }

  // Port `k` of the trail and the hop into it.
  ghost predicate Footstep(lanes: seq<Lane>, prev: Prev, src: nat, port: nat, h: Hop, next: nat) {
    && h.lane < |lanes| && port != src && port in prev && prev[port] == (next, h)
    && To(lanes, h) == port && From(lanes, h) == next
  }

  // The trail back from the destination so far, and the hop into each of its ports.
  ghost predicate Trailed(lanes: seq<Lane>, prev: Prev, src: nat, dst: nat, trail: seq<nat>, current: nat,
                          back: seq<Hop>)
  {
    && |back| == |trail| && Distinct(trail) && (if trail == [] then current == dst else trail[0] == dst)
    && (forall k: nat :: k < |trail| ==> Footstep(lanes, prev, src, trail[k], back[k], NextOf(trail, current, k)))
  }

  lemma TrailOn(lanes: seq<Lane>, prev: Prev, src: nat, dst: nat, trail: seq<nat>, current: nat, back: seq<Hop>, h: Hop)
    requires Trailed(lanes, prev, src, dst, trail, current, back) && current !in trail && current != src
    requires h.lane < |lanes| && To(lanes, h) == current && current in prev && prev[current] == (From(lanes, h), h)
    ensures Trailed(lanes, prev, src, dst, trail + [current], From(lanes, h), back + [h])
  {
    hide From, To;
    var more, hops, next := trail + [current], back + [h], From(lanes, h);
    forall k: nat | k < |more|
      ensures Footstep(lanes, prev, src, more[k], hops[k], NextOf(more, next, k))
    {
      if k < |trail| {
        assert Footstep(lanes, prev, src, trail[k], back[k], NextOf(trail, current, k));
      }
    }
  }

  lemma TrailStep(lanes: seq<Lane>, prev: Prev, src: nat, dst: nat, trail: seq<nat>, back: seq<Hop>, j: nat)
    requires Trailed(lanes, prev, src, dst, trail, src, back) && j < |back|
    ensures |trail| == |back| && Footstep(lanes, prev, src, trail[j], back[j], NextOf(trail, src, j))
  {
    hide Footstep;
  }

  lemma TrailShape(lanes: seq<Lane>, prev: Prev, src: nat, dst: nat, trail: seq<nat>, back: seq<Hop>)
    requires Trailed(lanes, prev, src, dst, trail, src, back)
    ensures |trail| == |back| && Distinct(trail) && (if trail == [] then src == dst else trail[0] == dst)
  {
    hide Footstep;
  }

  lemma TrailEnds(lanes: seq<Lane>, prev: Prev, src: nat, dst: nat, trail: seq<nat>, back: seq<Hop>)
    requires Trailed(lanes, prev, src, dst, trail, src, back)
    ensures Traced(lanes, prev, src, dst, Reversed(back))
  {
    hide From, To, Footstep, Trailed;
    var hops, n := Reversed(back), |back|;
    TrailShape(lanes, prev, src, dst, trail, back);
    forall k: nat | k < n
      ensures hops[k].lane < |lanes| && To(lanes, hops[k]) == trail[n - 1 - k] != src
      ensures trail[n - 1 - k] in prev && prev[trail[n - 1 - k]] == (From(lanes, hops[k]), hops[k])
      ensures From(lanes, hops[k]) == if k > 0 then trail[n - k] else src
    {
      var j := n - 1 - k;
      TrailStep(lanes, prev, src, dst, trail, back, j);
      FootstepIs(lanes, prev, src, trail[j], back[j], NextOf(trail, src, j));
    }
  }

  lemma FootstepIs(lanes: seq<Lane>, prev: Prev, src: nat, port: nat, h: Hop, next: nat)
    requires Footstep(lanes, prev, src, port, h, next)
    ensures h.lane < |lanes| && To(lanes, h) == port != src && From(lanes, h) == next
    ensures port in prev && prev[port] == (next, h)
  {
  }

  lemma TrailCircle(lanes: seq<Lane>, prev: Prev, src: nat, dst: nat, trail: seq<nat>, current: nat, back: seq<Hop>)
    requires Trailed(lanes, prev, src, dst, trail, current, back) && current in trail
    ensures NeverReaches(prev, src, dst)
  {
    hide From, To;
    forall k: nat | k < |trail|
      ensures trail[k] != src && trail[k] in prev && prev[trail[k]].0 == NextOf(trail, current, k)
    {
      assert Footstep(lanes, prev, src, trail[k], back[k], NextOf(trail, current, k));
    }
    Circle(prev, src, trail, current);
  }

  // Ports not yet on the trail.
  ghost function Ahead(prev: Prev, trail: seq<nat>): set<nat> {
    set v | v in prev.Keys && v !in trail
  }

  lemma AheadLess(prev: Prev, trail: seq<nat>, v: nat)
    requires v in prev && v !in trail
    ensures Ahead(prev, trail + [v]) < Ahead(prev, trail)
  {
    var more := trail + [v];
    assert forall x {:trigger x in more} :: x in more <==> x in trail || x == v;
    assert v in Ahead(prev, trail) && v !in Ahead(prev, more);
  }

  /**
  Follow the predecessors from the destination. The program's loop has no exit but the source; None stands for
  running round for ever, which is what a port met a second time means.
  */
  method Trace(lanes: seq<Lane>, src: nat, dst: nat, prev: Prev, ghost dist: Dist, ghost at: Dist,
               ghost clean: set<nat>)
      returns (r: Option<seq<Hop>>)
    requires Linked(lanes, src, dist, prev, at, clean) && dst in dist
    ensures r.Some? ==> Traced(lanes, prev, src, dst, r.value)
    ensures r.None? ==> NeverReaches(prev, src, dst)
  {
    hide Linked, Trailed, Traced, Ahead, NeverReaches;
    var back: seq<Hop> := [];
    var seen: seq<nat> := [];
    var current := dst;
    TrailStarts(lanes, prev, src, dst);
    while current != src
      invariant current in dist && Trailed(lanes, prev, src, dst, seen, current, back)
      decreases Ahead(prev, seen)
    {
      HasLink(lanes, src, dist, prev, at, clean, current);
      if current in seen {
        TrailCircle(lanes, prev, src, dst, seen, current, back);
        return None;
      }
      var (from, h) := prev[current];
      TrailOn(lanes, prev, src, dst, seen, current, back, h);
      AheadLess(prev, seen, current);
      back, seen := back + [h], seen + [current];
      current := from;
    }
    TrailEnds(lanes, prev, src, dst, seen, back);
    return Some(Reversed(back));
  }

  lemma TrailStarts(lanes: seq<Lane>, prev: Prev, src: nat, dst: nat)
    ensures Trailed(lanes, prev, src, dst, [], dst, [])
  {
  }

  lemma HasLink(lanes: seq<Lane>, src: nat, dist: Dist, prev: Prev, at: Dist, clean: set<nat>, v: nat)
    requires Linked(lanes, src, dist, prev, at, clean) && v in dist && v != src
    ensures v in prev && v in at && Link(lanes, src, dist, at[v], clean, prev[v], v)
    ensures prev[v].1.lane < |lanes| && From(lanes, prev[v].1) == prev[v].0 && To(lanes, prev[v].1) == v
    ensures prev[v].0 in dist
  {
    hide AtMost, NewCost;
  }

  // ---- Without harmful wrapping the walk found is a shortest one ----

  /** In a tree the predecessors always lead back to the source. */
  lemma {:induction false} TreeReaches(lanes: seq<Lane>, src: nat, dist: Dist, prev: Prev, done: seq<nat>, v: nat,
                                       k: nat)
      returns (n: nat)
    requires Tree(lanes, src, dist, prev, done) && v in dist
    requires k <= |done| && (k < |done| ==> done[k] == v)
    ensures Back(prev, v, n) == src
    decreases k
  {
    hide Tree, Arc, Back;
    BackNone(prev, v);
    if v == src {
      n := 0;
    } else {
      InTree(lanes, src, dist, prev, done, v);
      var u := prev[v].0;
      var j := Earlier(lanes, src, dist, prev, done, v, k);
      var m := TreeReaches(lanes, src, dist, prev, done, u, j);
      BackShift(prev, v, m);
      n := m + 1;
    }
  }

  lemma BackNone(prev: Prev, v: nat)
    ensures Back(prev, v, 0) == v
  {
  }

  lemma Earlier(lanes: seq<Lane>, src: nat, dist: Dist, prev: Prev, done: seq<nat>, v: nat, k: nat) returns (j: nat)
    requires Tree(lanes, src, dist, prev, done) && v in dist && v != src
    requires k <= |done| && (k < |done| ==> done[k] == v)
    ensures v in prev && j < k && done[j] == prev[v].0
  {
    hide Arc;
    InTree(lanes, src, dist, prev, done, v);
    var u := prev[v].0;
    if k < |done| {
      assert u in done[..k];
      j :| 0 <= j < k && done[..k][j] == u;
    } else {
      j :| 0 <= j < k && done[j] == u;
    }
  }

  lemma InTree(lanes: seq<Lane>, src: nat, dist: Dist, prev: Prev, done: seq<nat>, v: nat)
    requires Tree(lanes, src, dist, prev, done) && v in dist && v != src
    ensures v in prev && Arc(lanes, dist, prev[v], v) && prev[v].0 in dist && prev[v].0 in done
  {
    hide From, To, Length;
  }

  lemma {:induction false} BackShift(prev: Prev, v: nat, n: nat)
    requires v in prev
    ensures Back(prev, v, n + 1) == Back(prev, prev[v].0, n)
  {
    if n > 0 {
      BackShift(prev, v, n - 1);
    }
  }

  lemma {:induction false} TreeCost(lanes: seq<Lane>, src: nat, dist: Dist, prev: Prev, done: seq<nat>, t: nat,
                                    hops: seq<Hop>)
    requires Tree(lanes, src, dist, prev, done) && t in dist && Traced(lanes, prev, src, t, hops)
    ensures OnLanes(lanes, hops) && Cost(lanes, hops) == dist[t]
    decreases |hops|
  {
    hide Tree, Traced, From, To;
    TracedWalk(lanes, prev, src, t, hops);
    if hops == [] {
      WalkSame(lanes, src, t);
      TreeSource(lanes, src, dist, prev, done);
    } else {
      TracedInit(lanes, prev, src, t, hops);
      InTree(lanes, src, dist, prev, done, t);
      TreeCost(lanes, src, dist, prev, done, prev[t].0, hops[..|hops| - 1]);
    }
  }

  lemma TreeSource(lanes: seq<Lane>, src: nat, dist: Dist, prev: Prev, done: seq<nat>)
    requires Tree(lanes, src, dist, prev, done)
    ensures src in dist && dist[src] == 0
  {
  }

  lemma TracedWalk(lanes: seq<Lane>, prev: Prev, src: nat, t: nat, hops: seq<Hop>)
    requires Traced(lanes, prev, src, t, hops)
    ensures Walk(lanes, src, t, hops) && OnLanes(lanes, hops)
  {
  }

  lemma AtMostCost(lanes: seq<Lane>, src: nat, dst: nat, hops: seq<Hop>, c: nat)
    requires Walk(lanes, src, dst, hops) && OnLanes(lanes, hops) && AtMost(lanes, src, dst, c) && Cost(lanes, hops) <= c
    ensures Shortest(lanes, src, dst, hops)
  {
  }

  // ---- With lanes of less than 2^32 tiles in total, every walk found is a shortest one ----

  /** Along the walk found, every recorded distance is the cost so far, and was used as it stands. */
  lemma {:induction false} TracedExact(lanes: seq<Lane>, src: nat, dist: Dist, prev: Prev, at: Dist, clean: set<nat>,
                                       t: nat, hops: seq<Hop>)
    requires Linked(lanes, src, dist, prev, at, clean) && t in dist && Traced(lanes, prev, src, t, hops)
    requires TotalLength(lanes) <= U32_MAX
    ensures OnLanes(lanes, hops) && dist[t] == Cost(lanes, hops)
    ensures t != src ==> t in at && t in prev && prev[t].0 in dist && at[t] == dist[prev[t].0] && prev[t].0 in clean
    decreases |hops|
  {
    hide Linked, Traced, AtMost, From, To, NewCost;
    TracedWalk(lanes, prev, src, t, hops);
    if hops == [] {
      WalkSame(lanes, src, t);
      LinkedSource(lanes, src, dist, prev, at, clean);
    } else {
      var init, last := hops[..|hops| - 1], hops[|hops| - 1];
      TracedInit(lanes, prev, src, t, hops);
      HasLink(lanes, src, dist, prev, at, clean, t);
      TracedExact(lanes, src, dist, prev, at, clean, prev[t].0, init);
      TracedWalk(lanes, prev, src, prev[t].0, init);
      AtMostWalk(lanes, src, prev[t].0, init, at[t]);
      TracedNoRepeats(lanes, prev, src, t, hops);
      NoRepeatsCost(lanes, hops);
    }
  }

  lemma AtMostWalk(lanes: seq<Lane>, src: nat, v: nat, hops: seq<Hop>, c: nat)
    requires Walk(lanes, src, v, hops) && OnLanes(lanes, hops) && AtMost(lanes, src, v, c)
    ensures c <= Cost(lanes, hops)
  {
  }

  lemma TracedShortest(lanes: seq<Lane>, src: nat, dst: nat, dist: Dist, prev: Prev, at: Dist, clean: set<nat>,
                       hops: seq<Hop>)
    requires Searched(lanes, src, dst, dist, prev, at, clean) && dst in dist && Traced(lanes, prev, src, dst, hops)
    requires TotalLength(lanes) <= U32_MAX
    ensures Shortest(lanes, src, dst, hops) && IsDistance(lanes, src, dst, dist[dst])
    ensures OnLanes(lanes, hops) && Cost(lanes, hops) == dist[dst]
  {
    hide Linked, AllRelaxed, Traced, AtMost;
    TracedExact(lanes, src, dist, prev, at, clean, dst, hops);
    TracedWalk(lanes, prev, src, dst, hops);
    AtMostCost(lanes, src, dst, hops, dist[dst]);
  }

  // ---- The answer ----

  /** No route, a tile path, or a loop that never ends because the predecessors never lead to the source. */
  datatype Outcome = NoRoute | Route(path: seq<nat>) | Endless(prev: Prev)

  /** The tile path of a walk that uses no lane twice. */
  ghost predicate IsRoute(lanes: seq<Lane>, src: nat, dst: nat, path: seq<nat>) {
    exists hops :: RouteOver(lanes, src, dst, path, hops)
  }

  ghost predicate RouteOver(lanes: seq<Lane>, src: nat, dst: nat, path: seq<nat>, hops: seq<Hop>) {
    Walk(lanes, src, dst, hops) && NoRepeats(hops) && path == Laid(lanes, hops) && |path| <= Cost(lanes, hops)
  }

  /** The tile path of a shortest walk. */
  ghost predicate IsShortestRoute(lanes: seq<Lane>, src: nat, dst: nat, path: seq<nat>) {
    exists hops :: RouteOver(lanes, src, dst, path, hops) && Shortest(lanes, src, dst, hops)
  }

  /** What a route search should answer. */
  ghost predicate Right(lanes: seq<Lane>, src: nat, dst: nat, r: Outcome) {
    match r
    case NoRoute => !Reached(lanes, src, dst)
    case Route(path) => IsShortestRoute(lanes, src, dst, path)
    case Endless(_) => false
  }

  /** If wrapping is harmless and the destination can be reached, the predecessors lead there by a shortest walk. */
  lemma BenignTrace(lanes: seq<Lane>, src: nat, dst: nat, dist: Dist, prev: Prev, at: Dist, clean: set<nat>,
                    done: seq<nat>)
    requires Benign(lanes, src, dst) && Searched(lanes, src, dst, dist, prev, at, clean)
    requires Tree(lanes, src, dist, prev, done)
    ensures dst in dist && !NeverReaches(prev, src, dst)
    ensures forall hops :: Traced(lanes, prev, src, dst, hops) ==> Shortest(lanes, src, dst, hops)
  {
    hide Linked, AllRelaxed, Tree, AtMost, IsDistance, Reached, Traced, Shortest, NoUndercut, NewCost;
    var dd := TrueDistance(lanes, src, dst);
    AtMostDistance(lanes, src, dst, dd, Val(dist, dst));
    assert dst in dist;
    TreeEnds(lanes, src, dist, prev, done, dst);
    forall hops | Traced(lanes, prev, src, dst, hops)
      ensures Shortest(lanes, src, dst, hops)
    {
      TreeCost(lanes, src, dist, prev, done, dst, hops);
      TracedWalk(lanes, prev, src, dst, hops);
      AtMostCost(lanes, src, dst, hops, dist[dst]);
    }
  }

  lemma TreeEnds(lanes: seq<Lane>, src: nat, dist: Dist, prev: Prev, done: seq<nat>, v: nat)
    requires Tree(lanes, src, dist, prev, done) && v in dist
    ensures !NeverReaches(prev, src, v)
  {
    hide Tree, Back;
    if k: nat :| k < |done| && done[k] == v {
      var n := TreeReaches(lanes, src, dist, prev, done, v, k);
    } else {
      var n := TreeReaches(lanes, src, dist, prev, done, v, |done|);
    }
  }

  // ---- A shortest walk shows that no wrapping did harm ----

  lemma PrefixCost(lanes: seq<Lane>, hops: seq<Hop>, k: nat)
    requires OnLanes(lanes, hops) && k < |hops|
    ensures Cost(lanes, hops[..k + 1]) == Cost(lanes, hops[..k]) + Length(lanes, hops[k])
    ensures Cost(lanes, hops[..k + 1]) <= Cost(lanes, hops)
  {
    assert hops[..k + 1][..k] == hops[..k];
    CostJoin(lanes, hops[..k + 1], hops[k + 1..]);
    assert hops == hops[..k + 1] + hops[k + 1..];
  }

  lemma WalkPrefix(lanes: seq<Lane>, s: nat, t: nat, hops: seq<Hop>, k: nat)
    requires Walk(lanes, s, t, hops) && k < |hops|
    ensures OnLanes(lanes, hops) && Walk(lanes, s, From(lanes, hops[k]), hops[..k])
  {
    if k > 0 {
      assert To(lanes, hops[k - 1]) == From(lanes, hops[k - 1 + 1]);
    }
  }

  // A lane that wraps at `dp` is used on every short walk to the destination, into the port where it wraps.
  lemma UsesLane(lanes: seq<Lane>, src: nat, dst: nat, hops: seq<Hop>, h: Hop, dp: nat) returns (k: nat)
    requires Walk(lanes, src, dst, hops) && NoRepeats(hops) && TotalLength(lanes) <= U32_MAX
    requires h.lane < |lanes| && AtMost(lanes, src, From(lanes, h), dp)
    requires OnLanes(lanes, hops) && dp <= Cost(lanes, hops) && dp + Length(lanes, h) > U32_MAX
    ensures k < |hops| && From(lanes, hops[k]) == To(lanes, h) && To(lanes, hops[k]) == From(lanes, h)
  {
    if i: nat :| i < |hops| && hops[i].lane == h.lane {
      k := i;
      if hops[k].reversed == h.reversed {
        WalkPrefix(lanes, src, dst, hops, k);
        PrefixCost(lanes, hops, k);
        AtMostWalk(lanes, src, From(lanes, h), hops[..k], dp);
        NoRepeatsCost(lanes, hops);
        assert false;
      }
    } else {
      assert (hops + [h])[..|hops|] == hops;
      NoRepeatsCost(lanes, hops + [h]);
      assert false;
    }
  }

  /** With lanes of less than 2^32 tiles in total, a walk that was found rules out every harmful wrapping. */
  lemma FoundIsHarmless(lanes: seq<Lane>, src: nat, dst: nat, dist: Dist, prev: Prev, at: Dist, clean: set<nat>,
                        hops: seq<Hop>)
    requires Searched(lanes, src, dst, dist, prev, at, clean) && dst in dist && Traced(lanes, prev, src, dst, hops)
    requires TotalLength(lanes) <= U32_MAX
    ensures Harmless(lanes, src, dst)
  {
    hide Linked, AllRelaxed, AtMost, Traced, StaysAbove, IsDistance;
    TracedShortest(lanes, src, dst, dist, prev, at, clean, hops);
    TracedNoRepeats(lanes, prev, src, dst, hops);
    LinkedSource(lanes, src, dist, prev, at, clean);
    forall dd: nat | IsDistance(lanes, src, dst, dd)
      ensures dd < U32_MAX && NoUndercut(lanes, src, dst, dd)
    {
      SameDistance(lanes, src, dst, dd, dist[dst]);
      forall h: Hop, dp: nat, dq: nat | Before(lanes, src, dst, dd, h, dp, dq)
        ensures StaysAbove(dp, Length(lanes, h), dq)
      {
        FoundHop(lanes, src, dst, dist, prev, at, clean, hops, h, dp, dq, dd);
      }
    }
  }

  lemma SameDistance(lanes: seq<Lane>, src: nat, v: nat, d: nat, e: nat)
    requires IsDistance(lanes, src, v, d) && IsDistance(lanes, src, v, e)
    ensures d == e
  {
    hide AtMost, Walk, Cost;
    AtMostDistance(lanes, src, v, d, e);
    AtMostDistance(lanes, src, v, e, d);
  }

  lemma DistanceBounds(lanes: seq<Lane>, src: nat, v: nat, d: nat)
    requires IsDistance(lanes, src, v, d)
    ensures AtMost(lanes, src, v, d)
  {
  }

  // The recorded and the true distance of a port that the walk found passes agree.
  lemma OnTheWay(lanes: seq<Lane>, src: nat, dst: nat, dist: Dist, prev: Prev, at: Dist, clean: set<nat>,
                 hops: seq<Hop>, k: nat, d: nat)
    requires Linked(lanes, src, dist, prev, at, clean) && Traced(lanes, prev, src, dst, hops) && dst in dist
    requires TotalLength(lanes) <= U32_MAX && k < |hops| && OnLanes(lanes, hops)
    requires IsDistance(lanes, src, From(lanes, hops[k]), d)
    ensures From(lanes, hops[k]) in dist && dist[From(lanes, hops[k])] == d && From(lanes, hops[k]) in clean
  {
    hide Linked, AtMost, Traced, IsDistance, From, To;
    TracedPrefix(lanes, prev, src, dst, hops, k + 1);
    var u, v := From(lanes, hops[k]), To(lanes, hops[k]);
    TracedInit(lanes, prev, src, v, hops[..k + 1]);
    assert hops[..k + 1][..k] == hops[..k];
    InDist(lanes, src, dst, dist, prev, at, clean, hops, k);
    TracedExact(lanes, src, dist, prev, at, clean, v, hops[..k + 1]);
    TracedExact(lanes, src, dist, prev, at, clean, u, hops[..k]);
    TracedWalk(lanes, prev, src, u, hops[..k]);
    HasLink(lanes, src, dist, prev, at, clean, v);
    LinkBound(lanes, src, dist, at[v], clean, prev[v], v);
    AtMostDistance(lanes, src, u, d, dist[u]);
    DistanceBounds(lanes, src, u, d);
    AtMostWalk(lanes, src, u, hops[..k], d);
  }

  lemma LinkBound(lanes: seq<Lane>, src: nat, dist: Dist, c: nat, clean: set<nat>, e: (nat, Hop), v: nat)
    requires Link(lanes, src, dist, c, clean, e, v)
    ensures AtMost(lanes, src, e.0, c)
  {
    hide AtMost, NewCost;
  }

  lemma {:induction false} InDist(lanes: seq<Lane>, src: nat, dst: nat, dist: Dist, prev: Prev, at: Dist,
                                  clean: set<nat>, hops: seq<Hop>, k: nat)
    requires Linked(lanes, src, dist, prev, at, clean) && Traced(lanes, prev, src, dst, hops) && dst in dist
    requires k < |hops| && OnLanes(lanes, hops)
    ensures To(lanes, hops[k]) in dist && From(lanes, hops[k]) in dist
    decreases |hops| - k
  {
    hide Linked, AtMost, From, To;
    if k + 1 < |hops| {
      InDist(lanes, src, dst, dist, prev, at, clean, hops, k + 1);
      TracedStep(lanes, prev, src, dst, hops, k);
    } else {
      TracedInit(lanes, prev, src, dst, hops);
    }
    TracedAt(lanes, prev, src, dst, hops, k);
    HasLink(lanes, src, dist, prev, at, clean, To(lanes, hops[k]));
  }

  lemma TracedStep(lanes: seq<Lane>, prev: Prev, src: nat, dst: nat, hops: seq<Hop>, k: nat)
    requires Traced(lanes, prev, src, dst, hops) && k + 1 < |hops|
    ensures OnLanes(lanes, hops) && To(lanes, hops[k]) == From(lanes, hops[k + 1])
  {
    hide From, To;
  }

  lemma TracedAt(lanes: seq<Lane>, prev: Prev, src: nat, dst: nat, hops: seq<Hop>, k: nat)
    requires Traced(lanes, prev, src, dst, hops) && k < |hops|
    ensures OnLanes(lanes, hops) && To(lanes, hops[k]) != src && To(lanes, hops[k]) in prev
    ensures prev[To(lanes, hops[k])] == (From(lanes, hops[k]), hops[k])
  {
    hide From, To;
  }

  lemma FoundHop(lanes: seq<Lane>, src: nat, dst: nat, dist: Dist, prev: Prev, at: Dist, clean: set<nat>,
                 hops: seq<Hop>, h: Hop, dp: nat, dq: nat, dd: nat)
    requires Searched(lanes, src, dst, dist, prev, at, clean) && dst in dist && Traced(lanes, prev, src, dst, hops)
    requires TotalLength(lanes) <= U32_MAX && OnLanes(lanes, hops) && dd == Cost(lanes, hops) && NoRepeats(hops)
    requires Before(lanes, src, dst, dd, h, dp, dq)
    ensures StaysAbove(dp, Length(lanes, h), dq)
  {
    hide Linked, AtMost, Traced, IsDistance, Walk, From, To;
    TracedWalk(lanes, prev, src, dst, hops);
    if dp + Length(lanes, h) > U32_MAX {
      DistanceBounds(lanes, src, From(lanes, h), dp);
      var k := UsesLane(lanes, src, dst, hops, h, dp);
      LastHop(lanes, src, dst, hops);
      TracedStep(lanes, prev, src, dst, hops, k);
      OnTheWay(lanes, src, dst, dist, prev, at, clean, hops, k, dq);
      OnTheWay(lanes, src, dst, dist, prev, at, clean, hops, k + 1, dp);
      assert RelaxedAt(lanes, dist, From(lanes, h));
      LaneFits(lanes, h);
      Wrapped(dp, Length(lanes, h));
    }
  }

  lemma LastHop(lanes: seq<Lane>, s: nat, t: nat, hops: seq<Hop>)
    requires Walk(lanes, s, t, hops)
    ensures hops != [] ==> To(lanes, hops[|hops| - 1]) == t
  {
  }

  lemma LaneFits(lanes: seq<Lane>, h: Hop)
    requires h.lane < |lanes|
    ensures Length(lanes, h) <= TotalLength(lanes)
  {
    NoRepeatsCost(lanes, [h]);
    assert [h][..0] == [];
  }

  lemma Wrapped(dp: nat, length: nat)
    requires dp <= U32_MAX && length <= U32_MAX && dp + length > U32_MAX
    ensures NewCost(dp, length) == dp + length - U32_RANGE
  {
  }

  /**
  For all lanes: the answer is right if wrapping is harmless; a route is the tile path of a real walk; no route
  means that none is shorter than 2^32 - 1; an endless loop means that the predecessors never reach the source.
  For lanes of less than 2^32 tiles in total, every route is a shortest one, and the answer is right exactly if
  wrapping is harmless.
  */
  method RouteThroughLanes(lanes: seq<Lane>, src: nat, dst: nat) returns (r: Outcome)
    ensures Harmless(lanes, src, dst) ==> Right(lanes, src, dst, r)
    ensures TotalLength(lanes) <= U32_MAX && Right(lanes, src, dst, r) ==> Harmless(lanes, src, dst)
    ensures TotalLength(lanes) <= U32_MAX && r.Route? ==> IsShortestRoute(lanes, src, dst, r.path)
    ensures r.Route? ==> IsRoute(lanes, src, dst, r.path)
    ensures r.NoRoute? ==> AtMost(lanes, src, dst, U32_MAX)
    ensures !Reached(lanes, src, dst) ==> r.NoRoute?
    ensures r.Endless? ==> Reached(lanes, src, dst) && NeverReaches(r.prev, src, dst)
    ensures r.Endless? ==> HopsBack(lanes, src, dst, r.prev)
    ensures src == dst ==> r == Route([])
  {
    hide Walk, Cost, Laid, Searched, Harmless, Tree, Traced, NeverReaches, AtMost, Shortest, HopsBack;
    if src == dst {
      StayingIsRight(lanes, src);
      return Route([]);
    }
    var dist, prev;
    ghost var at, clean, done;
    dist, prev, at, clean, done := Search(lanes, src, dst);
    if dst !in dist {
      NotFound(lanes, src, dst, dist, prev, at, clean, done);
      return NoRoute;
    }
    SearchedParts(lanes, src, dst, dist, prev, at, clean);
    if Benign(lanes, src, dst) {
      BenignTrace(lanes, src, dst, dist, prev, at, clean, done);
    }
    var segments := Trace(lanes, src, dst, prev, dist, at, clean);
    if segments == None {
      LinkedHopsBack(lanes, src, dst, dist, prev, at, clean);
      return Endless(prev);
    }
    FoundRoute(lanes, src, dst, dist, prev, at, clean, segments.value);
    var full := Lay(lanes, segments.value);
    assert RouteOver(lanes, src, dst, full, segments.value);
    return Route(full);
  }

  lemma SearchedParts(lanes: seq<Lane>, src: nat, dst: nat, dist: Dist, prev: Prev, at: Dist, clean: set<nat>)
    requires Searched(lanes, src, dst, dist, prev, at, clean)
    ensures Linked(lanes, src, dist, prev, at, clean)
    ensures dst in dist ==> Reached(lanes, src, dst)
  {
    hide AtMost, Reached, Link;
  }

  lemma NotFound(lanes: seq<Lane>, src: nat, dst: nat, dist: Dist, prev: Prev, at: Dist, clean: set<nat>,
                 done: seq<nat>)
    requires Searched(lanes, src, dst, dist, prev, at, clean) && dst !in dist
    ensures AtMost(lanes, src, dst, U32_MAX)
    ensures Reached(lanes, src, dst) ==> !Harmless(lanes, src, dst)
    ensures !Reached(lanes, src, dst) ==> Harmless(lanes, src, dst)
  {
    hide Linked, AtMost, IsDistance, NoUndercut;
    if Reached(lanes, src, dst) {
      hide Reached;
      var dd := TrueDistance(lanes, src, dst);
      AtMostDistance(lanes, src, dst, dd, U32_MAX);
    } else {
      hide Reached;
      forall dd: nat
        ensures !IsDistance(lanes, src, dst, dd)
      {
        if IsDistance(lanes, src, dst, dd) {
          DistanceReached(lanes, src, dst, dd);
        }
      }
    }
  }

  lemma FoundRoute(lanes: seq<Lane>, src: nat, dst: nat, dist: Dist, prev: Prev, at: Dist, clean: set<nat>,
                   hops: seq<Hop>)
    requires Searched(lanes, src, dst, dist, prev, at, clean) && dst in dist && Traced(lanes, prev, src, dst, hops)
    ensures Walk(lanes, src, dst, hops) && OnLanes(lanes, hops) && NoRepeats(hops)
    ensures |Laid(lanes, hops)| <= Cost(lanes, hops)
    ensures TotalLength(lanes) <= U32_MAX ==> Shortest(lanes, src, dst, hops) && Harmless(lanes, src, dst)
  {
    hide Searched, Traced, Walk, Cost, Laid, Harmless, Shortest;
    TracedWalk(lanes, prev, src, dst, hops);
    TracedNoRepeats(lanes, prev, src, dst, hops);
    LaidSize(lanes, hops);
    if TotalLength(lanes) <= U32_MAX {
      TracedShortest(lanes, src, dst, dist, prev, at, clean, hops);
      FoundIsHarmless(lanes, src, dst, dist, prev, at, clean, hops);
    }
  }

  lemma StayingIsRight(lanes: seq<Lane>, src: nat)
    ensures Right(lanes, src, src, Route([])) && IsRoute(lanes, src, src, []) && Reached(lanes, src, src)
    ensures IsShortestRoute(lanes, src, src, [])
    ensures TotalLength(lanes) <= U32_MAX ==> Harmless(lanes, src, src)
  {
    hide NoRepeats;
    WalkNone(lanes, src);
    assert Laid(lanes, []) == [];
    assert NoRepeats([]) by {
      NoneRepeat();
    }
    assert RouteOver(lanes, src, src, [], []) && Shortest(lanes, src, src, []);
    hide Walk, Cost, IsDistance;
    if TotalLength(lanes) <= U32_MAX {
      StayingIsHarmless(lanes, src);
    }
  }

  lemma NoneRepeat()
    ensures NoRepeats([])
  {
  }

  lemma StayingIsHarmless(lanes: seq<Lane>, src: nat)
    requires TotalLength(lanes) <= U32_MAX
    ensures Harmless(lanes, src, src)
  {
    hide Walk, Cost, AtMost, IsDistance;
    forall dd: nat | IsDistance(lanes, src, src, dd)
      ensures dd == 0
    {
      WalkNone(lanes, src);
      DistanceBounds(lanes, src, src, dd);
      AtMostWalk(lanes, src, src, [], dd);
    }
    forall h: Hop | h.lane < |lanes|
      ensures Length(lanes, h) <= U32_MAX
    {
      LaneFits(lanes, h);
    }
  }

  // The tiles of one lane in sailing order.
  method LayLane(path: seq<nat>, reversed: bool, full: seq<nat>) returns (full': seq<nat>)
    ensures full' == PushAll(full, if reversed then Reversed(path) else path)
  {
    hide Push;
    ghost var sailed := if reversed then Reversed(path) else path;
    full' := full;
    for k := 0 to |path|
      invariant full' == PushAll(full, sailed[..k])
    {
      assert sailed[..k + 1][..k] == sailed[..k];
      full' := Push(full', if reversed then path[|path| - 1 - k] else path[k]);
    }
    assert sailed[..|path|] == sailed;
  }

  /** Append the lanes' tiles, in sailing order, to one path. */
  method Lay(lanes: seq<Lane>, hops: seq<Hop>) returns (full: seq<nat>)
    requires OnLanes(lanes, hops)
    ensures full == Laid(lanes, hops)
  {
    hide PushAll;
    full := [];
    for s := 0 to |hops|
      invariant full == Laid(lanes, hops[..s])
    {
      assert hops[..s + 1][..s] == hops[..s];
      full := LayLane(lanes[hops[s].lane].path, hops[s].reversed, full);
    }
    assert hops[..|hops|] == hops;
  }

  // ---- Lanes for which wrapping is harmless, and lanes for which it is not ----

  /** No 32-bit sum can wrap: a total and one more lane stay below 2^32 - 1. */
  ghost predicate CostsFit(lanes: seq<Lane>) {
    TotalLength(lanes) < U32_MAX && forall k :: 0 <= k < |lanes| ==> TotalLength(lanes) + |lanes[k].path| < U32_MAX
  }

  lemma DistanceInTotal(lanes: seq<Lane>, src: nat, v: nat, d: nat)
    requires IsDistance(lanes, src, v, d)
    ensures d <= TotalLength(lanes)
  {
    hide Cost, TotalLength;
    var hops :| Walk(lanes, src, v, hops) && Cost(lanes, hops) == d;
    var short := ShortWalk(lanes, src, v, hops);
  }

  /** Then every search is right, whatever the ports. */
  lemma FittingIsHarmless(lanes: seq<Lane>, src: nat, dst: nat)
    requires CostsFit(lanes)
    ensures Harmless(lanes, src, dst)
  {
    hide IsDistance, TotalLength;
    forall dd: nat | IsDistance(lanes, src, dst, dd)
      ensures dd < U32_MAX && NoUndercut(lanes, src, dst, dd)
    {
      DistanceInTotal(lanes, src, dst, dd);
      forall h: Hop, dp: nat, dq: nat | Before(lanes, src, dst, dd, h, dp, dq)
        ensures StaysAbove(dp, Length(lanes, h), dq)
      {
        assert Length(lanes, h) == |lanes[h.lane].path|;
      }
    }
  }

  lemma {:induction false} TotalAtMost(lanes: seq<Lane>, each: nat)
    requires forall k :: 0 <= k < |lanes| ==> |lanes[k].path| <= each
    ensures TotalLength(lanes) <= |lanes| * each
  {
    if lanes != [] {
      TotalAtMost(lanes[..|lanes| - 1], each);
      assert |lanes| * each == (|lanes| - 1) * each + each;
    }
  }

  /** Lanes of at most 1000 tiles, as the network builds them, fit for every network of a realistic size. */
  lemma NetworkCostsFit(lanes: seq<Lane>)
    requires |lanes| <= 4_294_966 && forall k :: 0 <= k < |lanes| ==> |lanes[k].path| <= 1000
    ensures CostsFit(lanes)
  {
    TotalAtMost(lanes, 1000);
  }
}
