/**
The sea lane network of sow-core/src/sea_lane.rs: `update_sea_lanes` builds it
one port per call and publishes it once every port has been handled.
*/
module SeaNetwork {
  import opened Wrappers
  import opened Grid
  import opened SeaLanes
  import opened SeaSearch
  import opened WaterComponents

  datatype Building = Building(id: nat, tile: nat, isCity: bool, underConstruction: bool, portLevel: nat)

  datatype Port = Port(id: nat, tile: nat, component: nat)

  /** The unfinished network: the next port, the lanes so far, and the ports. */
  datatype Calc = Calc(next: nat, lanes: seq<Lane>, ports: seq<Port>)

  type Finder = (nat, nat) -> Option<seq<nat>>

  const MAX_LANE_TILES: nat := 1000
  const MAX_SQUARED_DISTANCE: nat := 250_000

  // ---- Water access ----

  /** West, east, north, south. */
  const WATER_ORDER: Deltas := [(-1, 0), (1, 0), (0, -1), (0, 1)]

  function FirstWaterTile(land: seq<bool>, tiles: seq<nat>): Option<nat> {
    if tiles == [] then None
    else if tiles[0] < |land| && !land[tiles[0]] then Some(tiles[0])
    else FirstWaterTile(land, tiles[1..])
  }

  function WaterEntry(w: nat, h: nat, land: seq<bool>, tile: nat): Option<nat>
    requires w > 0
  {
    FirstWaterTile(land, Around(w, h, tile, WATER_ORDER))
  }

  lemma {:induction false} FirstWaterTileIs(land: seq<bool>, tiles: seq<nat>)
    ensures match FirstWaterTile(land, tiles)
            case Some(t) => t in tiles && t < |land| && !land[t]
            case None => forall t :: t in tiles && t < |land| ==> land[t]
  {
    if tiles != [] {
      assert tiles == [tiles[0]] + tiles[1..];
      FirstWaterTileIs(land, tiles[1..]);
    }
  }

  /** A port's entry is a water tile next to it, and is missing only if there is none. */
  lemma WaterEntryIs(w: nat, h: nat, land: seq<bool>, tile: nat)
    requires w > 0 && |land| == w * h
    ensures match WaterEntry(w, h, land, tile)
            case Some(t) => t < w * h && !land[t] && Next4(w, tile, t)
            case None => forall t: nat :: t < w * h && Next4(w, tile, t) ==> land[t]
  {
    hide Next4, Around;
    var around := Around(w, h, tile, WATER_ORDER);
    FirstWaterTileIs(land, around);
    assert IsCardinal(WATER_ORDER);
    forall t: nat
      ensures t in around <==> t < w * h && Next4(w, tile, t)
    {
      CardinalHas(w, h, tile, WATER_ORDER, t);
    }
  }

  // ---- The wanted network ----

  function Squared(a: int): int {
    a * a
  }

  function SquaredDistance(w: nat, i: nat, j: nat): int
    requires w > 0
  {
    Squared(X(w, i) - X(w, j)) + Squared(Y(w, i) - Y(w, j))
  }

  datatype Sea = Sea(w: nat, h: nat, land: seq<bool>, find: Finder) {
    ghost predicate Valid() {
      w > 0 && |land| == w * h
    }
  }

  /** The lane between two ports, if they share a water body, are close, and a short enough way exists. */
  function LanePath(sea: Sea, p: Port, q: Port): Option<seq<nat>>
    requires sea.w > 0
  {
    if p.component != q.component || SquaredDistance(sea.w, p.tile, q.tile) > MAX_SQUARED_DISTANCE then None else
      match (WaterEntry(sea.w, sea.h, sea.land, p.tile), WaterEntry(sea.w, sea.h, sea.land, q.tile))
      case (Some(a), Some(b)) =>
        (match sea.find(a, b)
         case Some(path) => if |path| <= MAX_LANE_TILES then Some(path) else None
         case None => None)
      case _ => None
  }

  lemma OtherWater(sea: Sea, p: Port, q: Port)
    requires sea.w > 0 && p.component != q.component
    ensures LanePath(sea, p, q) == None
  {
  }

  predicate Joins(lane: Lane, x: nat, y: nat) {
    (lane.a == x && lane.b == y) || (lane.a == y && lane.b == x)
  }

  // Pair (i, j) comes before row `row`, column `col` of the double loop.
  predicate Before(i: nat, j: nat, row: nat, col: nat) {
    i < row || (i == row && j < col)
  }

  ghost predicate LaneOf(sea: Sea, ports: seq<Port>, lane: Lane, i: nat, j: nat)
    requires sea.w > 0
  {
    && i < j < |ports| && LanePath(sea, ports[i], ports[j]).Some?
    && lane.a == ports[i].id && lane.b == ports[j].id && lane.path == LanePath(sea, ports[i], ports[j]).value
  }

  ghost predicate FromPair(sea: Sea, ports: seq<Port>, lane: Lane, row: nat, col: nat)
    requires sea.w > 0
  {
    exists i: nat, j: nat :: Before(i, j, row, col) && LaneOf(sea, ports, lane, i, j)
  }

  /** The network over the pairs of ports before the given one. */
  ghost predicate Network(sea: Sea, ports: seq<Port>, lanes: seq<Lane>, row: nat, col: nat)
    requires sea.w > 0
  {
    && (forall k: nat :: k < |lanes| ==> lanes[k].id == k)
    && (forall k: nat :: k < |lanes| ==> FromPair(sea, ports, lanes[k], row, col))
    && Complete(sea, ports, lanes, row, col)
    && Single(lanes)
  }

  ghost predicate Complete(sea: Sea, ports: seq<Port>, lanes: seq<Lane>, row: nat, col: nat)
    requires sea.w > 0
  {
    forall i: nat, j: nat :: i < j < |ports| && Before(i, j, row, col) && LanePath(sea, ports[i], ports[j]).Some? ==>
      Connected(lanes, ports[i].id, ports[j].id)
  }

  ghost predicate Single(lanes: seq<Lane>) {
    forall k: nat, l: nat :: k < l < |lanes| ==> !Joins(lanes[k], lanes[l].a, lanes[l].b)
  }

  ghost predicate Connected(lanes: seq<Lane>, x: nat, y: nat) {
    exists k: nat :: k < |lanes| && Joins(lanes[k], x, y)
  }

  /** The network over all pairs. */
  ghost predicate WholeNetwork(sea: Sea, ports: seq<Port>, lanes: seq<Lane>)
    requires sea.w > 0
  {
    Network(sea, ports, lanes, |ports|, 0)
  }

  lemma NetworkStarts(sea: Sea, ports: seq<Port>)
    requires sea.w > 0
    ensures Network(sea, ports, [], 0, 0)
  {
    hide LanePath;
  }

  // Nothing lies between the end of a row and the start of the next.
  lemma NetworkMoves(sea: Sea, ports: seq<Port>, lanes: seq<Lane>, row: nat, col: nat, row': nat, col': nat)
    requires sea.w > 0 && Network(sea, ports, lanes, row, col)
    requires forall i: nat, j: nat :: i < j < |ports| ==> (Before(i, j, row, col) <==> Before(i, j, row', col'))
    ensures Network(sea, ports, lanes, row', col')
  {
    hide LanePath, Joins, Connected, Before;
    forall k: nat | k < |lanes|
      ensures FromPair(sea, ports, lanes[k], row', col')
    {
      assert FromPair(sea, ports, lanes[k], row, col);
    }
  }

  lemma NetworkRow(sea: Sea, ports: seq<Port>, lanes: seq<Lane>, row: nat)
    requires sea.w > 0 && row < |ports|
    ensures Network(sea, ports, lanes, row, 0) ==> Network(sea, ports, lanes, row, row + 1)
    ensures Network(sea, ports, lanes, row, |ports|) ==> Network(sea, ports, lanes, row + 1, 0)
  {
    hide Network;
    if Network(sea, ports, lanes, row, 0) {
      NetworkMoves(sea, ports, lanes, row, 0, row, row + 1);
    }
    if Network(sea, ports, lanes, row, |ports|) {
      NetworkMoves(sea, ports, lanes, row, |ports|, row + 1, 0);
    }
  }

  lemma FromEarlierPair(sea: Sea, ports: seq<Port>, lane: Lane, row: nat, col: nat)
    requires sea.w > 0 && FromPair(sea, ports, lane, row, col)
    ensures FromPair(sea, ports, lane, row, col + 1)
  {
    hide LanePath;
    var i: nat, j: nat :| Before(i, j, row, col) && LaneOf(sea, ports, lane, i, j);
    assert Before(i, j, row, col + 1);
  }

  // A pair that needs no lane of its own.
  lemma NetworkSkip(sea: Sea, ports: seq<Port>, lanes: seq<Lane>, row: nat, col: nat)
    requires sea.w > 0 && row < col < |ports| && Network(sea, ports, lanes, row, col)
    requires LanePath(sea, ports[row], ports[col]) == None || Connected(lanes, ports[row].id, ports[col].id)
    ensures Network(sea, ports, lanes, row, col + 1)
  {
    hide LanePath, Joins, Connected, FromPair;
    forall k: nat | k < |lanes|
      ensures FromPair(sea, ports, lanes[k], row, col + 1)
    {
      FromEarlierPair(sea, ports, lanes[k], row, col);
    }
  }

  lemma ConnectedMore(lanes: seq<Lane>, lane: Lane)
    ensures forall x: nat, y: nat :: Connected(lanes + [lane], x, y) <==> Connected(lanes, x, y) || Joins(lane, x, y)
  {
    hide Joins;
    var more := lanes + [lane];
    assert forall k :: 0 <= k < |lanes| ==> more[k] == lanes[k];
    assert more[|lanes|] == lane;
  }

  lemma SingleMore(lanes: seq<Lane>, lane: Lane)
    requires Single(lanes) && !Connected(lanes, lane.a, lane.b)
    ensures Single(lanes + [lane])
  {
    hide Joins;
  }

  lemma PushedFromPair(sea: Sea, ports: seq<Port>, lanes: seq<Lane>, row: nat, col: nat, lane: Lane)
    requires sea.w > 0 && LaneOf(sea, ports, lane, row, col)
    requires forall k: nat :: k < |lanes| ==> FromPair(sea, ports, lanes[k], row, col)
    ensures forall k: nat :: k < |lanes + [lane]| ==> FromPair(sea, ports, (lanes + [lane])[k], row, col + 1)
  {
    hide LanePath, FromPair;
    forall k: nat | k < |lanes + [lane]|
      ensures FromPair(sea, ports, (lanes + [lane])[k], row, col + 1)
    {
      if k < |lanes| {
        FromEarlierPair(sea, ports, lanes[k], row, col);
      } else {
        FromThisPair(sea, ports, row, col, lane);
      }
    }
  }

  lemma FromThisPair(sea: Sea, ports: seq<Port>, row: nat, col: nat, lane: Lane)
    requires sea.w > 0 && LaneOf(sea, ports, lane, row, col)
    ensures FromPair(sea, ports, lane, row, col + 1)
  {
    hide LanePath;
    assert Before(row, col, row, col + 1);
  }

  lemma NetworkPush(sea: Sea, ports: seq<Port>, lanes: seq<Lane>, row: nat, col: nat, lane: Lane)
    requires sea.w > 0 && row < col < |ports| && Network(sea, ports, lanes, row, col)
    requires LaneOf(sea, ports, lane, row, col) && lane.id == |lanes|
    requires !Connected(lanes, ports[row].id, ports[col].id)
    ensures Network(sea, ports, lanes + [lane], row, col + 1)
  {
    hide LanePath, Connected, FromPair, Single;
    SingleMore(lanes, lane);
    ConnectedMore(lanes, lane);
    PushedFromPair(sea, ports, lanes, row, col, lane);
    assert Joins(lane, ports[row].id, ports[col].id);
    hide Joins;
  }

  // ---- What the network means ----

  ghost predicate DistinctIds(ports: seq<Port>) {
    forall i: nat, j: nat :: i < j < |ports| ==> ports[i].id != ports[j].id
  }

  /** With distinct port ids there is exactly one lane for each wanted pair, between the right ports. */
  lemma OneLanePerPair(sea: Sea, ports: seq<Port>, lanes: seq<Lane>, i: nat, j: nat)
    requires sea.w > 0 && WholeNetwork(sea, ports, lanes) && DistinctIds(ports) && i < j < |ports|
    ensures LanePath(sea, ports[i], ports[j]).Some? <==>
              exists k: nat :: k < |lanes| && Joins(lanes[k], ports[i].id, ports[j].id)
    ensures forall k: nat :: k < |lanes| && Joins(lanes[k], ports[i].id, ports[j].id) ==>
              LaneOf(sea, ports, lanes[k], i, j)
    ensures forall k: nat, l: nat :: k < l < |lanes| ==>
              !(Joins(lanes[k], ports[i].id, ports[j].id) && Joins(lanes[l], ports[i].id, ports[j].id))
  {
    hide LanePath, Joins, FromPair, Network, LaneOf;
    forall k: nat | k < |lanes| && Joins(lanes[k], ports[i].id, ports[j].id)
      ensures LaneOf(sea, ports, lanes[k], i, j)
    {
      LaneOfPair(sea, ports, lanes, i, j, k);
    }
    PairHasLane(sea, ports, lanes, i, j);
    forall k: nat, l: nat | k < l < |lanes|
      ensures !(Joins(lanes[k], ports[i].id, ports[j].id) && Joins(lanes[l], ports[i].id, ports[j].id))
    {
      OnlyOneLane(sea, ports, lanes, ports[i].id, ports[j].id, k, l);
    }
    if k: nat :| k < |lanes| && Joins(lanes[k], ports[i].id, ports[j].id) {
      WantedLane(sea, ports, lanes[k], i, j);
    }
  }

  lemma LaneOfPair(sea: Sea, ports: seq<Port>, lanes: seq<Lane>, i: nat, j: nat, k: nat)
    requires sea.w > 0 && WholeNetwork(sea, ports, lanes) && DistinctIds(ports) && i < j < |ports|
    requires k < |lanes| && Joins(lanes[k], ports[i].id, ports[j].id)
    ensures LaneOf(sea, ports, lanes[k], i, j)
  {
    hide LanePath, Complete, Single, DistinctIds;
    assert FromPair(sea, ports, lanes[k], |ports|, 0);
    var x: nat, y: nat :| Before(x, y, |ports|, 0) && LaneOf(sea, ports, lanes[k], x, y);
    SamePair(ports, x, y, i, j);
  }

  lemma PairHasLane(sea: Sea, ports: seq<Port>, lanes: seq<Lane>, i: nat, j: nat)
    requires sea.w > 0 && WholeNetwork(sea, ports, lanes) && i < j < |ports|
    ensures LanePath(sea, ports[i], ports[j]).Some? ==>
              exists k: nat :: k < |lanes| && Joins(lanes[k], ports[i].id, ports[j].id)
  {
    hide LanePath, Joins, FromPair, Single;
    assert Before(i, j, |ports|, 0);
  }

  lemma OnlyOneLane(sea: Sea, ports: seq<Port>, lanes: seq<Lane>, x: nat, y: nat, k: nat, l: nat)
    requires sea.w > 0 && WholeNetwork(sea, ports, lanes) && k < l < |lanes|
    ensures !(Joins(lanes[k], x, y) && Joins(lanes[l], x, y))
  {
    hide LanePath, FromPair, Complete;
    assert !Joins(lanes[k], lanes[l].a, lanes[l].b);
  }

  lemma WantedLane(sea: Sea, ports: seq<Port>, lane: Lane, i: nat, j: nat)
    requires sea.w > 0 && LaneOf(sea, ports, lane, i, j)
    ensures LanePath(sea, ports[i], ports[j]).Some?
  {
    hide LanePath;
  }

  lemma SamePair(ports: seq<Port>, x: nat, y: nat, i: nat, j: nat)
    requires DistinctIds(ports) && x < y < |ports| && i < j < |ports|
    requires (ports[x].id == ports[i].id && ports[y].id == ports[j].id) ||
             (ports[x].id == ports[j].id && ports[y].id == ports[i].id)
    ensures x == i && y == j
  {
    Injective(ports, x, i);
    Injective(ports, x, j);
    Injective(ports, y, i);
    Injective(ports, y, j);
  }

  lemma Injective(ports: seq<Port>, x: nat, i: nat)
    requires DistinctIds(ports) && x < |ports| && i < |ports|
    ensures ports[x].id == ports[i].id ==> x == i
  {
  }

  /** The contract of the path finder: a connected way over open tiles from one tile to the other. */
  ghost predicate Finds(find: Finder, next: (nat, nat) -> bool, open: nat -> bool) {
    forall a: nat, b: nat :: find(a, b).Some? ==>
      var path := find(a, b).value;
      path != [] && path[0] == a && path[|path| - 1] == b && Steps(next, open, path)
  }

  // `entry` names the water tile at which each port is entered.
  ghost predicate Entries(sea: Sea, ports: seq<Port>, entry: nat -> nat)
    requires sea.w > 0
  {
    forall i: nat :: i < |ports| ==> WaterEntry(sea.w, sea.h, sea.land, ports[i].tile) == Some(entry(ports[i].id))
  }

  lemma LaneIsCharted(sea: Sea, next: (nat, nat) -> bool, open: nat -> bool, entry: nat -> nat,
                      ports: seq<Port>, lane: Lane, i: nat, j: nat)
    requires sea.w > 0 && Finds(sea.find, next, open) && Entries(sea, ports, entry) && LaneOf(sea, ports, lane, i, j)
    ensures Charted(next, open, entry, lane) && |lane.path| <= MAX_LANE_TILES
  {
    hide WaterEntry, SquaredDistance;
    var a, b := entry(ports[i].id), entry(ports[j].id);
    assert sea.find(a, b) == Some(lane.path);
  }

  /** On a published network of a realistic size every route search is right. */
  lemma PublishedIsHarmless(sea: Sea, ports: seq<Port>, lanes: seq<Lane>, src: nat, dst: nat)
    requires sea.w > 0 && WholeNetwork(sea, ports, lanes) && |lanes| <= 4_294_966
    ensures Harmless(lanes, src, dst)
  {
    hide LanePath, Complete, Single, Harmless;
    forall k: nat | k < |lanes|
      ensures |lanes[k].path| <= MAX_LANE_TILES
    {
      assert FromPair(sea, ports, lanes[k], |ports|, 0);
      var i: nat, j: nat :| Before(i, j, |ports|, 0) && LaneOf(sea, ports, lanes[k], i, j);
      LaneIsShort(sea, ports[i], ports[j]);
    }
    NetworkCostsFit(lanes);
    FittingIsHarmless(lanes, src, dst);
  }

  lemma LaneIsShort(sea: Sea, p: Port, q: Port)
    requires sea.w > 0
    ensures LanePath(sea, p, q).Some? ==> |LanePath(sea, p, q).value| <= MAX_LANE_TILES
  {
    hide WaterEntry, SquaredDistance;
  }

  lemma RouteHops(lanes: seq<Lane>, src: nat, dst: nat, path: seq<nat>, hops: seq<Hop>)
    requires RouteOver(lanes, src, dst, path, hops)
    ensures src != dst ==> hops != []
  {
  }

  /**
  A route over the published network is a connected water way from the source port's water tile to the
  destination's, without immediate repeats.
  */
  lemma RouteOverNetwork(sea: Sea, next: (nat, nat) -> bool, open: nat -> bool, entry: nat -> nat,
                         ports: seq<Port>, lanes: seq<Lane>, src: nat, dst: nat, path: seq<nat>)
    requires sea.w > 0 && Finds(sea.find, next, open) && Symmetric(next) && Entries(sea, ports, entry)
    requires WholeNetwork(sea, ports, lanes) && IsRoute(lanes, src, dst, path) && src != dst
    ensures path != [] && Way(next, open, path) && path[0] == entry(src) && path[|path| - 1] == entry(dst)
  {
    hide Charted, Way, Laid, LaneOf, Entries, Finds, Complete, Single, Cost;
    var hops :| RouteOver(lanes, src, dst, path, hops);
    RouteHops(lanes, src, dst, path, hops);
    forall k: nat | k < |lanes|
      ensures Charted(next, open, entry, lanes[k])
    {
      assert FromPair(sea, ports, lanes[k], |ports|, 0);
      var i: nat, j: nat :| Before(i, j, |ports|, 0) && LaneOf(sea, ports, lanes[k], i, j);
      LaneIsCharted(sea, next, open, entry, ports, lanes[k], i, j);
    }
    RouteIsWay(lanes, next, open, entry, src, dst, hops);
  }

  // ---- Building it ----

  predicate IsPort(b: Building) {
    !b.underConstruction && b.isCity && b.portLevel > 0
  }

  /** The finished ports, in the order of the buildings. */
  function PortBuildings(buildings: seq<Building>): seq<Building> {
    if buildings == [] then [] else
      var k := |buildings| - 1;
      PortBuildings(buildings[..k]) + (if IsPort(buildings[k]) then [buildings[k]] else [])
  }

  /** Those next to water, with their water body. */
  function Reachable(sea: Sea, water: Components, ports: seq<Building>): seq<Port>
    requires sea.w > 0
  {
    if ports == [] then [] else
      var k := |ports| - 1;
      Reachable(sea, water, ports[..k]) +
      (match WaterEntry(sea.w, sea.h, sea.land, ports[k].tile)
       case Some(tile) =>
         if ComponentOf(water, tile) > 0 then [Port(ports[k].id, ports[k].tile, ComponentOf(water, tile))] else []
       case None => [])
  }

  lemma {:induction false} ReachableOf(sea: Sea, water: Components, ports: seq<Building>)
    requires sea.w > 0
    ensures |Reachable(sea, water, ports)| <= |ports|
    ensures forall p :: p in Reachable(sea, water, ports) ==>
              p.component > 0 && WaterEntry(sea.w, sea.h, sea.land, p.tile).Some?
  {
    hide WaterEntry;
    if ports != [] {
      ReachableOf(sea, water, ports[..|ports| - 1]);
    }
  }

  /** The ports the network is built over. */
  function NetworkPorts(sea: Sea, water: Components, buildings: seq<Building>): seq<Port>
    requires sea.w > 0
  {
    Reachable(sea, water, PortBuildings(buildings))
  }

  lemma FewPorts(sea: Sea, water: Components, buildings: seq<Building>)
    requires sea.Valid() && |PortBuildings(buildings)| < 2
    ensures |NetworkPorts(sea, water, buildings)| < 2
    ensures WholeNetwork(sea, NetworkPorts(sea, water, buildings), [])
  {
    hide LanePath, WaterEntry;
    ReachableOf(sea, water, PortBuildings(buildings));
  }

  /** The part of `SowEngine` that concerns sea lanes. */
  class Engine {
    const sea: Sea
    const water: Components
    var buildings: seq<Building>
    var seaLanesDirty: bool
    var seaLaneCalc: Option<Calc>
    var seaLanes: seq<Lane>

    /** An unfinished network is right as far as it goes. */
    ghost predicate Valid()
      reads this
    {
      && sea.Valid()
      && (seaLaneCalc.Some? ==>
            var c := seaLaneCalc.value;
            c.next <= |c.ports| && Network(sea, c.ports, c.lanes, c.next, 0))
    }

    constructor (sea: Sea, water: Components, buildings: seq<Building>)
      requires sea.Valid()
      ensures Valid() && this.sea == sea && this.water == water && this.buildings == buildings && seaLanesDirty
    {
      this.sea, this.water, this.buildings := sea, water, buildings;
      seaLanesDirty, seaLaneCalc, seaLanes := true, None, [];
    }

    method AdjacentWaterTile(tile: nat) returns (r: Option<nat>)
      requires sea.Valid()
      ensures r == WaterEntry(sea.w, sea.h, sea.land, tile)
    {
      hide Around;
      var neighbours := Around(sea.w, sea.h, tile, WATER_ORDER);
      for k := 0 to |neighbours|
        invariant FirstWaterTile(sea.land, neighbours) == FirstWaterTile(sea.land, neighbours[k..])
      {
        if neighbours[k] < |sea.land| && !sea.land[neighbours[k]] {
          return Some(neighbours[k]);
        }
      }
      return None;
    }

    method CollectPorts() returns (ports: seq<Building>)
      ensures ports == PortBuildings(buildings)
    {
      ports := [];
      for k := 0 to |buildings|
        invariant ports == PortBuildings(buildings[..k])
      {
        assert buildings[..k + 1][..k] == buildings[..k];
        if IsPort(buildings[k]) {
          ports := ports + [buildings[k]];
        }
      }
      assert buildings[..|buildings|] == buildings;
    }

    method GroupPorts(ports: seq<Building>) returns (grouped: seq<Port>)
      requires sea.Valid()
      ensures grouped == Reachable(sea, water, ports)
    {
      hide WaterEntry;
      grouped := [];
      for k := 0 to |ports|
        invariant grouped == Reachable(sea, water, ports[..k])
      {
        assert ports[..k + 1][..k] == ports[..k];
        var tile := AdjacentWaterTile(ports[k].tile);
        if tile.Some? {
          var comp := ComponentOf(water, tile.value);
          if comp > 0 {
            grouped := grouped + [Port(ports[k].id, ports[k].tile, comp)];
          }
        }
      }
      assert ports[..|ports|] == ports;
    }

    method AlreadyConnected(lanes: seq<Lane>, x: nat, y: nat) returns (r: bool)
      ensures r <==> Connected(lanes, x, y)
    {
      hide Joins;
      for k := 0 to |lanes|
        invariant forall j: nat :: j < k ==> !Joins(lanes[j], x, y)
      {
        if Joins(lanes[k], x, y) {
          return true;
        }
      }
      return false;
    }

    method FindLane(p: Port, q: Port) returns (r: Option<seq<nat>>)
      requires sea.Valid() && p.component == q.component
      ensures r == LanePath(sea, p, q)
    {
      hide WaterEntry, SquaredDistance;
      if SquaredDistance(sea.w, p.tile, q.tile) > MAX_SQUARED_DISTANCE {
        return None;
      }
      var a := AdjacentWaterTile(p.tile);
      if a == None {
        return None;
      }
      var b := AdjacentWaterTile(q.tile);
      if b == None {
        return None;
      }
      var path := sea.find(a.value, b.value);
      return if path.Some? && |path.value| <= MAX_LANE_TILES then path else None;
    }

    /** The lanes from one port to all later ones. */
    method AddRow(c: Calc) returns (lanes: seq<Lane>)
      requires sea.Valid() && c.next < |c.ports| && Network(sea, c.ports, c.lanes, c.next, 0)
      ensures Network(sea, c.ports, lanes, c.next + 1, 0)
    {
      hide Network, LanePath, Connected;
      var ports, i := c.ports, c.next;
      lanes := c.lanes;
      NetworkRow(sea, ports, lanes, i);
      for j := i + 1 to |ports|
        invariant Network(sea, ports, lanes, i, j)
      {
        if ports[i].component != ports[j].component {
          OtherWater(sea, ports[i], ports[j]);
          NetworkSkip(sea, ports, lanes, i, j);
          continue;
        }
        var connected := AlreadyConnected(lanes, ports[i].id, ports[j].id);
        if connected {
          NetworkSkip(sea, ports, lanes, i, j);
          continue;
        }
        var path := FindLane(ports[i], ports[j]);
        if path == None {
          NetworkSkip(sea, ports, lanes, i, j);
        } else {
          var lane := Lane(|lanes|, ports[i].id, ports[j].id, path.value);
          NetworkPush(sea, ports, lanes, i, j, lane);
          lanes := lanes + [lane];
        }
      }
      NetworkRow(sea, ports, lanes, i);
    }

    // What a call starts from: a fresh network if something changed, else the unfinished one.
    ghost function Begun(): Option<Calc>
      reads this
      requires Valid()
    {
      if !seaLanesDirty then seaLaneCalc
      else if |PortBuildings(buildings)| < 2 then None
      else Some(Calc(0, [], NetworkPorts(sea, water, buildings)))
    }

    /** One tick: one more port of the unfinished network, or its publication. */
    method UpdateSeaLanes()
      requires Valid()
      modifies this`seaLanesDirty, this`seaLaneCalc, this`seaLanes
      ensures Valid() && !seaLanesDirty
      ensures match old(Begun())
              case None => seaLaneCalc == None && seaLanes == if old(seaLanesDirty) then [] else old(seaLanes)
              case Some(c) =>
                if c.next < |c.ports| then
                  && seaLaneCalc.Some? && seaLanes == old(seaLanes)
                  && seaLaneCalc.value.next == c.next + 1 && seaLaneCalc.value.ports == c.ports
                else seaLaneCalc == None && seaLanes == c.lanes
    {
      hide Network, PortBuildings, Reachable;
      if seaLanesDirty {
        var ports := CollectPorts();
        if |ports| < 2 {
          seaLanes, seaLaneCalc, seaLanesDirty := [], None, false;
          return;
        }
        var portComponents := GroupPorts(ports);
        NetworkStarts(sea, portComponents);
        seaLaneCalc, seaLanesDirty := Some(Calc(0, [], portComponents)), false;
      }
      if seaLaneCalc.Some? {
        var c := seaLaneCalc.value;
        if c.next < |c.ports| {
          var lanes := AddRow(c);
          seaLaneCalc := Some(Calc(c.next + 1, lanes, c.ports));
        } else {
          seaLanes, seaLaneCalc := c.lanes, None;
        }
      }
    }

    /** One call more than there are ports, undisturbed, publishes the whole network. */
    method RunTicks()
      requires Valid() && seaLanesDirty
      modifies this`seaLanesDirty, this`seaLaneCalc, this`seaLanes
      ensures Valid() && seaLaneCalc == None
      ensures WholeNetwork(sea, NetworkPorts(sea, water, buildings), seaLanes)
    {
      hide Network, PortBuildings, Reachable;
      ghost var ports := NetworkPorts(sea, water, buildings);
      ghost var few := |PortBuildings(buildings)| < 2;
      NetworkStarts(sea, ports);
      if few {
        FewPorts(sea, water, buildings);
      }
      var n := CountPorts();
      for k := 0 to n + 1
        invariant Valid() && (k == 0 <==> seaLanesDirty)
        invariant 0 < k && few ==> seaLaneCalc == None && seaLanes == []
        invariant 0 < k <= n && !few ==>
                    seaLaneCalc.Some? && seaLaneCalc.value.next == k && seaLaneCalc.value.ports == ports
        invariant k == n + 1 && !few ==> seaLaneCalc == None && Network(sea, ports, seaLanes, n, 0)
      {
        UpdateSeaLanes();
      }
    }

    method CountPorts() returns (n: nat)
      requires Valid()
      ensures n == |NetworkPorts(sea, water, buildings)|
    {
      var ports := CollectPorts();
      var grouped := GroupPorts(ports);
      return |grouped|;
    }
  }
}
