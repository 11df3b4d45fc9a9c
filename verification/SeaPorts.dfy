/**
The published sea lanes in terms of the buildings and the map alone
(sow-core/src/sea_lane.rs): which buildings become ports of the network, and
which pairs of them get a lane, by which way.
*/
module SeaPorts {
  import opened Wrappers
  import opened Grid
  import opened SeaLanes
  import opened SeaNetwork
  import opened WaterComponents

  // ---- The water in front of a building ----

  ghost predicate OpenWater(sea: Sea, x: int, y: int) {
    0 <= x < sea.w && 0 <= y < sea.h && 0 <= y * sea.w + x < |sea.land| && !sea.land[y * sea.w + x]
  }

  /** The water tile a building ships from: to the west, else to the east, the north, the south. */
  ghost function Pier(sea: Sea, tile: nat): Option<int>
    requires sea.w > 0
  {
    var x, y := tile % sea.w, tile / sea.w;
    if OpenWater(sea, x - 1, y) then Some(y * sea.w + x - 1)
    else if OpenWater(sea, x + 1, y) then Some(y * sea.w + x + 1)
    else if OpenWater(sea, x, y - 1) then Some((y - 1) * sea.w + x)
    else if OpenWater(sea, x, y + 1) then Some((y + 1) * sea.w + x)
    else None
  }

  lemma PierStep(sea: Sea, tile: nat, dx: int, dy: int, rest: Deltas)
    requires sea.Valid()
    ensures var x, y := tile % sea.w + dx, tile / sea.w + dy;
            FirstWaterTile(sea.land, Around(sea.w, sea.h, tile, [(dx, dy)] + rest)) ==
              if OpenWater(sea, x, y) then Some(y * sea.w + x)
              else FirstWaterTile(sea.land, Around(sea.w, sea.h, tile, rest))
  {
    hide Around, At;
    var x, y := X(sea.w, tile) + dx, Y(sea.w, tile) + dy;
    var later := Around(sea.w, sea.h, tile, rest);
    AroundStep(sea.w, sea.h, tile, dx, dy, rest);
    if 0 <= x < sea.w && 0 <= y < sea.h {
      AtRow(sea.w, x, y);
      assert ([At(sea.w, x, y)] + later)[1..] == later;
    } else {
      assert [] + later == later;
    }
  }

  lemma AroundStep(w: nat, h: nat, tile: nat, dx: int, dy: int, rest: Deltas)
    requires w > 0
    ensures var x, y := X(w, tile) + dx, Y(w, tile) + dy;
            Around(w, h, tile, [(dx, dy)] + rest) ==
              (if 0 <= x < w && 0 <= y < h then [At(w, x, y)] else []) + Around(w, h, tile, rest)
  {
    hide X, Y, At;
    var deltas: Deltas := [(dx, dy)] + rest;
    assert deltas[1..] == rest && deltas[0] == (dx, dy);
  }

  lemma AtRow(w: nat, x: nat, y: nat)
    ensures At(w, x, y) == y * w + x
  {
  }

  lemma PierIs(sea: Sea, tile: nat)
    requires sea.Valid()
    ensures WaterEntry(sea.w, sea.h, sea.land, tile) == Pier(sea, tile)
  {
    hide OpenWater, Around;
    var south: Deltas := [(0, 1)];
    var vertical: Deltas := [(0, -1), (0, 1)];
    var three: Deltas := [(1, 0), (0, -1), (0, 1)];
    PierStep(sea, tile, -1, 0, three);
    PierStep(sea, tile, 1, 0, vertical);
    PierStep(sea, tile, 0, -1, south);
    PierStep(sea, tile, 0, 1, []);
    NoTiles(sea, tile);
    assert [(-1, 0)] + three == WATER_ORDER && [(1, 0)] + vertical == three;
    assert [(0, -1)] + south == vertical && [(0, 1)] + [] == south;
  }

  lemma NoTiles(sea: Sea, tile: nat)
    requires sea.w > 0
    ensures FirstWaterTile(sea.land, Around(sea.w, sea.h, tile, [])) == None
  {
  }

  // ---- The ports ----

  /** A finished city with a port on water body `component`. */
  ghost predicate Berth(sea: Sea, water: Components, b: Building, component: nat)
    requires sea.w > 0
  {
    && !b.underConstruction && b.isCity && b.portLevel > 0 && component > 0
    && var pier := Pier(sea, b.tile);
       pier.Some? && 0 <= pier.value < |water.components| && water.components[pier.value] == component
  }

  lemma OneMoreBuilding(sea: Sea, water: Components, buildings: seq<Building>)
    requires sea.Valid() && buildings != []
    ensures var b, init := buildings[|buildings| - 1], buildings[..|buildings| - 1];
            && (forall component :: Berth(sea, water, b, component) ==>
                  NetworkPorts(sea, water, buildings) ==
                    NetworkPorts(sea, water, init) + [Port(b.id, b.tile, component)])
            && ((forall component :: !Berth(sea, water, b, component)) ==>
                  NetworkPorts(sea, water, buildings) == NetworkPorts(sea, water, init))
  {
    hide Pier, WaterEntry;
    var b, init := buildings[|buildings| - 1], buildings[..|buildings| - 1];
    PierIs(sea, b.tile);
    var ports := PortBuildings(init);
    if PortBuildings(buildings) != ports {
      assert PortBuildings(buildings) == ports + [b] && (ports + [b])[..|ports|] == ports;
      var pier := Pier(sea, b.tile);
      if pier.Some? && 0 <= pier.value < |water.components| && water.components[pier.value] > 0 {
        assert Berth(sea, water, b, water.components[pier.value]);
      }
    }
  }

  /**
  The ports of the network are exactly the finished cities with a port whose first water tile has a label, in the
  order of the buildings, each with its own id, tile and water body: `from[k]` is the building behind port `k`.
  */
  lemma {:induction false} PortsAre(sea: Sea, water: Components, buildings: seq<Building>) returns (from: seq<nat>)
    requires sea.Valid()
    ensures var ports := NetworkPorts(sea, water, buildings);
            && |from| == |ports|
            && (forall k: nat :: k < |from| ==> from[k] < |buildings|)
            && (forall k: nat, l: nat :: k < l < |from| ==> from[k] < from[l])
            && (forall k: nat :: k < |from| ==>
                  && Berth(sea, water, buildings[from[k]], ports[k].component)
                  && ports[k].id == buildings[from[k]].id && ports[k].tile == buildings[from[k]].tile)
            && (forall j: nat, component :: j < |buildings| && Berth(sea, water, buildings[j], component) ==>
                  j in from)
  {
    hide Berth, NetworkPorts;
    from := [];
    if buildings == [] {
      NoPorts(sea, water);
    } else {
      var last := |buildings| - 1;
      var init := PortsAre(sea, water, buildings[..last]);
      OneMoreBuilding(sea, water, buildings);
      from := init;
      if component: nat :| Berth(sea, water, buildings[last], component) {
        from := init + [last];
        assert from[|init|] == last;
      }
      forall j: nat, component | j < |buildings| && Berth(sea, water, buildings[j], component)
        ensures j in from
      {
        assert j < last ==> buildings[..last][j] == buildings[j] && j in init;
        assert forall k: nat :: k < |init| ==> from[k] == init[k];
      }
    }
  }

  lemma NoPorts(sea: Sea, water: Components)
    requires sea.w > 0
    ensures NetworkPorts(sea, water, []) == []
  {
  }

  // ---- The lanes ----

  /** Two ports on one water body, at most 500 tiles apart, get the way the path finder knows, up to 1000 tiles. */
  ghost predicate Wanted(sea: Sea, water: Components, b: Building, c: Building, path: seq<nat>)
    requires sea.w > 0
  {
    && (exists component :: Berth(sea, water, b, component) && Berth(sea, water, c, component))
    && (var dx, dy := b.tile % sea.w - c.tile % sea.w, b.tile / sea.w - c.tile / sea.w;
        dx * dx + dy * dy <= 250_000)
    && Pier(sea, b.tile).Some? && Pier(sea, c.tile).Some?
    && Pier(sea, b.tile).value >= 0 && Pier(sea, c.tile).value >= 0
    && sea.find(Pier(sea, b.tile).value, Pier(sea, c.tile).value) == Some(path) && |path| <= 1000
  }

  ghost predicate OwnIds(buildings: seq<Building>) {
    forall i: nat, j: nat :: i < j < |buildings| ==> buildings[i].id != buildings[j].id
  }

  lemma WayOf(sea: Sea, water: Components, p: Port, q: Port, b: Building, c: Building, path: seq<nat>)
    requires sea.Valid() && Berth(sea, water, b, p.component) && Berth(sea, water, c, q.component)
    requires p.tile == b.tile && q.tile == c.tile
    ensures Wanted(sea, water, b, c, path) <==> LanePath(sea, p, q) == Some(path)
  {
    hide WaterEntry, Pier;
    PierIs(sea, b.tile);
    PierIs(sea, c.tile);
    if p.component == q.component {
      assert Berth(sea, water, b, p.component) && Berth(sea, water, c, p.component);
    }
  }

  /**
  The published lanes in terms of the buildings: for two buildings there is a lane if and only if one is wanted, it
  runs from the earlier to the later by that way, and there is no second one.
  */
  lemma LaneBetween(sea: Sea, water: Components, buildings: seq<Building>, lanes: seq<Lane>, i: nat, j: nat)
    requires sea.Valid() && OwnIds(buildings) && i < j < |buildings|
    requires WholeNetwork(sea, NetworkPorts(sea, water, buildings), lanes)
    ensures forall path :: Wanted(sea, water, buildings[i], buildings[j], path) <==>
              exists k: nat :: k < |lanes| && lanes[k].path == path &&
                lanes[k].a == buildings[i].id && lanes[k].b == buildings[j].id
    ensures forall k: nat :: k < |lanes| ==> !(lanes[k].a == buildings[j].id && lanes[k].b == buildings[i].id)
    ensures forall k: nat, l: nat :: k < l < |lanes| ==>
              !(lanes[k].a == lanes[l].a == buildings[i].id && lanes[k].b == lanes[l].b == buildings[j].id)
  {
    hide Berth, Wanted, NetworkPorts, LanePath, WholeNetwork;
    var ports := NetworkPorts(sea, water, buildings);
    var from := PortsAre(sea, water, buildings);
    assert DistinctIds(ports) by {
      forall k: nat, l: nat | k < l < |ports|
        ensures ports[k].id != ports[l].id
      {
        assert from[k] < from[l];
      }
    }
    if i in from && j in from {
      var x: nat :| x < |from| && from[x] == i;
      var y: nat :| y < |from| && from[y] == j;
      InOrder(from, x, y);
      BothPorts(sea, water, buildings, lanes, ports, i, j, x, y);
    } else {
      NotBothPorts(sea, water, buildings, lanes, ports, from, i, j);
    }
  }

  lemma InOrder(from: seq<nat>, x: nat, y: nat)
    requires forall k: nat, l: nat :: k < l < |from| ==> from[k] < from[l]
    requires x < |from| && y < |from| && from[x] < from[y]
    ensures x < y
  {
  }

  lemma BothPorts(sea: Sea, water: Components, buildings: seq<Building>, lanes: seq<Lane>, ports: seq<Port>,
                  i: nat, j: nat, x: nat, y: nat)
    requires sea.Valid() && i < j < |buildings| && x < y < |ports| && DistinctIds(ports)
    requires WholeNetwork(sea, ports, lanes)
    requires Berth(sea, water, buildings[i], ports[x].component) && Berth(sea, water, buildings[j], ports[y].component)
    requires ports[x].id == buildings[i].id && ports[x].tile == buildings[i].tile
    requires ports[y].id == buildings[j].id && ports[y].tile == buildings[j].tile
    ensures forall path :: Wanted(sea, water, buildings[i], buildings[j], path) <==>
              exists k: nat :: k < |lanes| && lanes[k].path == path &&
                lanes[k].a == buildings[i].id && lanes[k].b == buildings[j].id
    ensures forall k: nat :: k < |lanes| ==> !(lanes[k].a == buildings[j].id && lanes[k].b == buildings[i].id)
    ensures forall k: nat, l: nat :: k < l < |lanes| ==>
              !(lanes[k].a == lanes[l].a == buildings[i].id && lanes[k].b == lanes[l].b == buildings[j].id)
  {
    hide Berth, Wanted, LanePath, WholeNetwork;
    OneLanePerPair(sea, ports, lanes, x, y);
    assert ports[x].id != ports[y].id;
    forall path
      ensures Wanted(sea, water, buildings[i], buildings[j], path) <==>
                exists k: nat :: k < |lanes| && lanes[k].path == path &&
                  lanes[k].a == buildings[i].id && lanes[k].b == buildings[j].id
    {
      WayOf(sea, water, ports[x], ports[y], buildings[i], buildings[j], path);
      if k: nat :| k < |lanes| && lanes[k].path == path &&
                   lanes[k].a == buildings[i].id && lanes[k].b == buildings[j].id {
        assert Joins(lanes[k], ports[x].id, ports[y].id);
      }
      if LanePath(sea, ports[x], ports[y]) == Some(path) {
        var k: nat :| k < |lanes| && Joins(lanes[k], ports[x].id, ports[y].id);
        assert LaneOf(sea, ports, lanes[k], x, y);
      }
    }
    forall k: nat | k < |lanes|
      ensures !(lanes[k].a == buildings[j].id && lanes[k].b == buildings[i].id)
    {
      assert Joins(lanes[k], ports[x].id, ports[y].id) ==> LaneOf(sea, ports, lanes[k], x, y);
    }
    forall k: nat, l: nat | k < l < |lanes|
      ensures !(lanes[k].a == lanes[l].a == buildings[i].id && lanes[k].b == lanes[l].b == buildings[j].id)
    {
      assert !(Joins(lanes[k], ports[x].id, ports[y].id) && Joins(lanes[l], ports[x].id, ports[y].id));
    }
  }

  // A lane joins two ports of the network, and ids belong to one building each.
  lemma NotBothPorts(sea: Sea, water: Components, buildings: seq<Building>, lanes: seq<Lane>, ports: seq<Port>,
                     from: seq<nat>, i: nat, j: nat)
    requires sea.Valid() && OwnIds(buildings) && i < j < |buildings| && WholeNetwork(sea, ports, lanes)
    requires |from| == |ports| && (forall k: nat :: k < |from| ==> from[k] < |buildings|)
    requires forall k: nat :: k < |from| ==> ports[k].id == buildings[from[k]].id
    requires forall l: nat, component :: l < |buildings| && Berth(sea, water, buildings[l], component) ==> l in from
    requires !(i in from && j in from)
    ensures forall path :: !Wanted(sea, water, buildings[i], buildings[j], path)
    ensures forall k: nat :: k < |lanes| ==>
              !(lanes[k].a == buildings[i].id && lanes[k].b == buildings[j].id)
              && !(lanes[k].a == buildings[j].id && lanes[k].b == buildings[i].id)
  {
    hide Berth, LanePath, Pier;
    forall k: nat | k < |lanes|
      ensures !(lanes[k].a == buildings[i].id && lanes[k].b == buildings[j].id)
      ensures !(lanes[k].a == buildings[j].id && lanes[k].b == buildings[i].id)
    {
      assert FromPair(sea, ports, lanes[k], |ports|, 0);
      var x: nat, y: nat :| Before(x, y, |ports|, 0) && LaneOf(sea, ports, lanes[k], x, y);
      SameBuilding(buildings, from[x], i);
      SameBuilding(buildings, from[x], j);
      SameBuilding(buildings, from[y], i);
      SameBuilding(buildings, from[y], j);
    }
  }

  lemma SameBuilding(buildings: seq<Building>, i: nat, j: nat)
    requires OwnIds(buildings) && i < |buildings| && j < |buildings|
    ensures buildings[i].id == buildings[j].id <==> i == j
  {
  }
}
