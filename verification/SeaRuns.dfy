/**
Two runs of the route search (sow-core/src/sea_lane.rs) in which a 32-bit cost
wraps around: one that never ends, and one that is right all the same.
*/
module SeaRuns {
  import opened SeaLanes
  import opened SeaSearch

  // If only one walk from port 1 repeats no lane, its cost is the distance.
  lemma OnlyWayDistance(lanes: seq<Lane>, t: nat, way: seq<Hop>)
    requires Walk(lanes, 1, t, way)
    requires forall hops :: Walk(lanes, 1, t, hops) && NoRepeats(hops) ==> hops == way
    ensures IsDistance(lanes, 1, t, Cost(lanes, way))
  {
    hide Cost, NoRepeats;
    var d := HasDistance(lanes, 1, t, way);
    var hops :| Walk(lanes, 1, t, hops) && Cost(lanes, hops) == d;
    var plain := ShortWalk(lanes, 1, t, hops);
  }

  // ---- A run that never ends ----

  // Ports 1, 2, 3, 4 in a row, joined by lanes 0, 1, 2.
  ghost predicate Row(lanes: seq<Lane>) {
    && |lanes| == 3 && lanes[0].a == 1 && lanes[0].b == 2 && lanes[1].a == 2 && lanes[1].b == 3
    && lanes[2].a == 3 && lanes[2].b == 4
  }

  ghost const AHEAD: seq<Hop> := [Hop(0, false), Hop(1, false), Hop(2, false)]

  lemma RowPrefix(lanes: seq<Lane>, n: nat)
    requires Row(lanes) && n <= 3
    ensures Walk(lanes, 1, n + 1, AHEAD[..n])
    ensures Cost(lanes, AHEAD[..n]) ==
              (if n > 0 then |lanes[0].path| else 0) + (if n > 1 then |lanes[1].path| else 0)
              + (if n > 2 then |lanes[2].path| else 0)
  {
    if n > 0 {
      RowPrefix(lanes, n - 1);
      assert AHEAD[..n][..n - 1] == AHEAD[..n - 1];
    }
  }

  // A walk along the row that repeats no lane goes straight ahead.
  lemma {:induction false} StraightAhead(lanes: seq<Lane>, t: nat, hops: seq<Hop>)
    requires Row(lanes) && Walk(lanes, 1, t, hops) && NoRepeats(hops)
    ensures |hops| <= 3 && hops == AHEAD[..|hops|] && t == |hops| + 1
    decreases |hops|
  {
    if hops != [] {
      var init, last := hops[..|hops| - 1], hops[|hops| - 1];
      WalkInit(lanes, 1, t, hops);
      StraightAhead(lanes, From(lanes, last), init);
      assert hops == init + [last];
      assert forall k :: 0 <= k < |init| ==> hops[k].lane == k;
      assert last == AHEAD[|init|];
    }
  }

  lemma RowDistance(lanes: seq<Lane>, n: nat)
    requires Row(lanes) && n <= 3
    ensures IsDistance(lanes, 1, n + 1, Cost(lanes, AHEAD[..n]))
  {
    hide Walk, Cost, Row, NoRepeats;
    RowPrefix(lanes, n);
    forall hops | Walk(lanes, 1, n + 1, hops) && NoRepeats(hops)
      ensures hops == AHEAD[..n]
    {
      StraightAhead(lanes, n + 1, hops);
    }
    OnlyWayDistance(lanes, n + 1, AHEAD[..n]);
  }

  /**
  Three lanes of 2, 2^31 - 1 and 1 tiles in a row, 2^31 + 2 in total: on the way from one end to the other the
  cost back over the long lane wraps to 0, its two ports become each other's predecessors, and the program
  follows them for ever.
  */
  method EndlessSearch() returns (lanes: seq<Lane>, r: Outcome)
    ensures Row(lanes) && |lanes[0].path| == 2 && |lanes[1].path| == 0x7FFF_FFFF && |lanes[2].path| == 1
    ensures TotalLength(lanes) == 0x8000_0002 && !Harmless(lanes, 1, 4)
    ensures r.Endless? && NeverReaches(r.prev, 1, 4)
  {
    hide Right, Harmless, NeverReaches, AtMost, Reached, IsShortestRoute, IsRoute, HopsBack;
    lanes := [Lane(0, 1, 2, seq(2, i => 0)), Lane(1, 2, 3, seq(0x7FFF_FFFF, i => 0)), Lane(2, 3, 4, [0])];
    ThreeLanes(lanes);
    RowHarmful(lanes);
    r := RouteThroughLanes(lanes, 1, 4);
    RowAnswer(lanes, r);
  }

  lemma ThreeLanes(lanes: seq<Lane>)
    requires |lanes| == 3
    ensures TotalLength(lanes) == |lanes[0].path| + |lanes[1].path| + |lanes[2].path|
  {
    assert lanes[..2][..1][..0] == [] && lanes[..2][..1] == [lanes[0]] && lanes[..2] == [lanes[0], lanes[1]];
    assert TotalLength(lanes[..2]) == TotalLength(lanes[..2][..1]) + |lanes[1].path|;
  }

  lemma RowHarmful(lanes: seq<Lane>)
    requires Row(lanes) && |lanes[0].path| == 2 && |lanes[1].path| == 0x7FFF_FFFF && |lanes[2].path| == 1
    ensures !Harmless(lanes, 1, 4)
  {
    hide IsDistance;
    RowDistance(lanes, 1);
    RowDistance(lanes, 2);
    RowDistance(lanes, 3);
    RowPrefix(lanes, 1);
    RowPrefix(lanes, 2);
    RowPrefix(lanes, 3);
    var dp, dq, dd := Cost(lanes, AHEAD[..2]), Cost(lanes, AHEAD[..1]), Cost(lanes, AHEAD[..3]);
    assert Before(lanes, 1, 4, dd, Hop(1, true), dp, dq);
    assert !StaysAbove(dp, Length(lanes, Hop(1, true)), dq);
    assert IsDistance(lanes, 1, 4, dd) && !NoUndercut(lanes, 1, 4, dd);
  }

  lemma RowAnswer(lanes: seq<Lane>, r: Outcome)
    requires Row(lanes) && |lanes[0].path| == 2 && |lanes[1].path| == 0x7FFF_FFFF && |lanes[2].path| == 1
    requires TotalLength(lanes) <= U32_MAX && !Right(lanes, 1, 4, r)
    requires r.Route? ==> IsShortestRoute(lanes, 1, 4, r.path)
    requires r.NoRoute? ==> AtMost(lanes, 1, 4, U32_MAX)
    ensures r.Endless?
  {
    hide AtMost;
    RowPrefix(lanes, 3);
    if r.NoRoute? {
      AtMostWalk(lanes, 1, 4, AHEAD[..3], U32_MAX);
    }
  }

  // ---- Harmful wrapping that harms nobody ----

  // Lane 0 from port 1 to port 2, lanes 1 and 2 from port 1 over port 3 to port 4.
  ghost predicate Fork(lanes: seq<Lane>) {
    && |lanes| == 3 && lanes[0].a == 1 && lanes[0].b == 2 && lanes[1].a == 1 && lanes[1].b == 3
    && lanes[2].a == 3 && lanes[2].b == 4
  }

  ghost function Way(t: nat): (way: seq<Hop>)
    requires 1 <= t <= 4
    ensures NoRepeats(way)
  {
    if t == 1 then [] else if t == 2 then [Hop(0, false)] else if t == 3 then [Hop(1, false)]
    else [Hop(1, false), Hop(2, false)]
  }

  lemma {:induction false} OnlyWay(lanes: seq<Lane>, t: nat, hops: seq<Hop>)
    requires Fork(lanes) && Walk(lanes, 1, t, hops) && NoRepeats(hops)
    ensures 1 <= t <= 4 && hops == Way(t)
    decreases |hops|
  {
    if hops != [] {
      var init, last := hops[..|hops| - 1], hops[|hops| - 1];
      WalkInit(lanes, 1, t, hops);
      OnlyWay(lanes, From(lanes, last), init);
      assert hops == init + [last];
      assert forall k :: 0 <= k < |init| ==> hops[k].lane != last.lane;
    }
  }

  lemma WayCost(lanes: seq<Lane>, t: nat)
    requires Fork(lanes) && 1 <= t <= 4
    ensures Walk(lanes, 1, t, Way(t))
    ensures Cost(lanes, Way(t)) ==
              if t == 1 then 0 else if t == 2 then |lanes[0].path| else if t == 3 then |lanes[1].path|
              else |lanes[1].path| + |lanes[2].path|
  {
    if t == 4 {
      WayCost(lanes, 3);
      assert Way(4)[..1] == Way(3);
    } else if t > 1 {
      assert Way(t)[..0] == [];
    }
  }

  lemma ForkDistance(lanes: seq<Lane>, t: nat)
    requires Fork(lanes) && 1 <= t <= 4
    ensures Walk(lanes, 1, t, Way(t)) && IsDistance(lanes, 1, t, Cost(lanes, Way(t)))
  {
    hide Walk, Cost, Fork, NoRepeats, Way;
    WayCost(lanes, t);
    forall hops | Walk(lanes, 1, t, hops) && NoRepeats(hops)
      ensures hops == Way(t)
    {
      OnlyWay(lanes, t, hops);
    }
    OnlyWayDistance(lanes, t, Way(t));
  }

  ghost predicate LongFork(lanes: seq<Lane>) {
    Fork(lanes) && |lanes[0].path| == 10 && |lanes[1].path| == 5 && |lanes[2].path| == U32_MAX
  }

  lemma ForkHarmful(lanes: seq<Lane>)
    requires LongFork(lanes)
    ensures !Harmless(lanes, 1, 2)
  {
    hide IsDistance;
    ForkDistance(lanes, 2);
    ForkDistance(lanes, 3);
    ForkDistance(lanes, 4);
    WayCost(lanes, 2);
    WayCost(lanes, 3);
    WayCost(lanes, 4);
    assert Before(lanes, 1, 2, 10, Hop(2, false), 5, 5 + U32_MAX);
    assert !StaysAbove(5, Length(lanes, Hop(2, false)), 5 + U32_MAX);
    assert IsDistance(lanes, 1, 2, 10) && !NoUndercut(lanes, 1, 2, 10);
  }

  // Port 2 has one neighbour, the source, so the way back is one step.
  lemma BackToSource(lanes: seq<Lane>, prev: Prev)
    requires Fork(lanes) && HopsBack(lanes, 1, 2, prev)
    ensures !NeverReaches(prev, 1, 2)
  {
    var ports: set<nat> :| 2 in ports && HopsWithin(lanes, 1, prev, ports);
    assert Back(prev, 2, 0) == 2;
    assert Back(prev, 2, 1) == 1;
  }

  lemma ForkAnswer(lanes: seq<Lane>, r: Outcome)
    requires LongFork(lanes)
    requires r.Route? ==> IsRoute(lanes, 1, 2, r.path)
    requires r.NoRoute? ==> AtMost(lanes, 1, 2, U32_MAX)
    requires r.Endless? ==> NeverReaches(r.prev, 1, 2) && HopsBack(lanes, 1, 2, r.prev)
    ensures Right(lanes, 1, 2, r) && r.Route?
  {
    hide AtMost, Walk, Cost, NoRepeats, Laid, HopsBack, NeverReaches;
    WayCost(lanes, 2);
    match r
    case NoRoute =>
      AtMostWalk(lanes, 1, 2, Way(2), U32_MAX);
    case Endless(prev) =>
      BackToSource(lanes, prev);
    case Route(path) =>
      var hops :| RouteOver(lanes, 1, 2, path, hops);
      OnlyWay(lanes, 2, hops);
      WayShortest(lanes, hops);
  }

  lemma WayShortest(lanes: seq<Lane>, hops: seq<Hop>)
    requires Fork(lanes) && hops == Way(2)
    ensures Shortest(lanes, 1, 2, hops)
  {
    hide Cost, Fork, NoRepeats, Way;
    ForkDistance(lanes, 2);
    AtMostCost(lanes, 1, 2, hops, Cost(lanes, hops));
  }

  /**
  The converse of being harmless fails from 2^32 tiles on: lanes of 10, 5 and 2^32 - 1 tiles, and a route along the
  first. The cost at the far end of the other two wraps to 4, far below the distance, but that port is a dead end.
  */
  method HarmlessAllTheSame() returns (lanes: seq<Lane>, r: Outcome)
    ensures LongFork(lanes) && TotalLength(lanes) == U32_MAX + 15
    ensures !Harmless(lanes, 1, 2) && Right(lanes, 1, 2, r) && r.Route?
  {
    hide Right, Harmless, NeverReaches, AtMost, Reached, IsShortestRoute, IsRoute, HopsBack;
    lanes := [Lane(0, 1, 2, seq(10, i => 0)), Lane(1, 1, 3, seq(5, i => 0)), Lane(2, 3, 4, seq(U32_MAX, i => 0))];
    ThreeLanes(lanes);
    ForkHarmful(lanes);
    r := RouteThroughLanes(lanes, 1, 2);
    ForkAnswer(lanes, r);
  }
}
