/**
Sea lanes between ports (sow-core/src/sea_lane.rs): walks over lanes, their
cost, and the tile path laid along them. SeaSearch holds the route search,
SeaNetwork the building of the lanes.
*/
module SeaLanes {
  datatype Lane = Lane(id: nat, a: nat, b: nat, path: seq<nat>)

  const U32_MAX: nat := 0xFFFF_FFFF

  // ---- Walks over lanes ----

  /** Sailing one lane, from its port `a` to its port `b` or the other way round. */
  datatype Hop = Hop(lane: nat, reversed: bool)

  function From(lanes: seq<Lane>, h: Hop): nat
    requires h.lane < |lanes|
  {
    if h.reversed then lanes[h.lane].b else lanes[h.lane].a
  }

  function To(lanes: seq<Lane>, h: Hop): nat
    requires h.lane < |lanes|
  {
    if h.reversed then lanes[h.lane].a else lanes[h.lane].b
  }

  function Length(lanes: seq<Lane>, h: Hop): nat
    requires h.lane < |lanes|
  {
    |lanes[h.lane].path|
  }

  ghost predicate OnLanes(lanes: seq<Lane>, hops: seq<Hop>) {
    forall k :: 0 <= k < |hops| ==> hops[k].lane < |lanes|
  }

  ghost predicate Walk(lanes: seq<Lane>, s: nat, t: nat, hops: seq<Hop>) {
    && OnLanes(lanes, hops)
    && (forall k :: 0 <= k < |hops| - 1 ==> To(lanes, hops[k]) == From(lanes, hops[k + 1]))
    && (if hops == [] then s == t else From(lanes, hops[0]) == s && To(lanes, hops[|hops| - 1]) == t)
  }

  ghost function Cost(lanes: seq<Lane>, hops: seq<Hop>): nat
    requires OnLanes(lanes, hops)
  {
    if hops == [] then 0 else Cost(lanes, hops[..|hops| - 1]) + Length(lanes, hops[|hops| - 1])
  }

  /** No walk between the same ports is shorter. */
  ghost predicate Shortest(lanes: seq<Lane>, s: nat, t: nat, hops: seq<Hop>) {
    && Walk(lanes, s, t, hops)
    && forall other :: Walk(lanes, s, t, other) ==> Cost(lanes, hops) <= Cost(lanes, other)
  }

  lemma WalkInit(lanes: seq<Lane>, s: nat, t: nat, hops: seq<Hop>)
    requires Walk(lanes, s, t, hops) && hops != []
    ensures var last := hops[|hops| - 1];
            && Walk(lanes, s, From(lanes, last), hops[..|hops| - 1])
            && To(lanes, last) == t
  {
    if |hops| > 1 {
      assert To(lanes, hops[|hops| - 2]) == From(lanes, hops[|hops| - 2 + 1]);
    }
  }

  lemma WalkAppend(lanes: seq<Lane>, s: nat, t: nat, hops: seq<Hop>, h: Hop)
    requires Walk(lanes, s, t, hops) && h.lane < |lanes| && From(lanes, h) == t
    ensures Walk(lanes, s, To(lanes, h), hops + [h])
    ensures Cost(lanes, hops + [h]) == Cost(lanes, hops) + Length(lanes, h)
  {
    assert (hops + [h])[..|hops|] == hops;
  }

  lemma {:induction false} CostJoin(lanes: seq<Lane>, a: seq<Hop>, b: seq<Hop>)
    requires OnLanes(lanes, a) && OnLanes(lanes, b)
    ensures Cost(lanes, a + b) == Cost(lanes, a) + Cost(lanes, b)
  {
    if b == [] {
      assert a + b == a;
    } else {
      var init := b[..|b| - 1];
      CostJoin(lanes, a, init);
      assert (a + b)[..|a + b| - 1] == a + init;
    }
  }

  // ---- Walks that repeat no lane are short ----

  ghost function TotalLength(lanes: seq<Lane>): nat {
    if lanes == [] then 0 else TotalLength(lanes[..|lanes| - 1]) + |lanes[|lanes| - 1].path|
  }

  ghost predicate NoRepeats(hops: seq<Hop>) {
    forall i, j :: 0 <= i < j < |hops| ==> hops[i].lane != hops[j].lane
  }

  lemma CostOut(lanes: seq<Lane>, hops: seq<Hop>, i: nat)
    requires OnLanes(lanes, hops) && i < |hops|
    ensures Cost(lanes, hops) == Cost(lanes, hops[..i] + hops[i + 1..]) + Length(lanes, hops[i])
  {
    hide Cost;
    var a, hop, b := hops[..i], hops[i], hops[i + 1..];
    assert hops == a + ([hop] + b);
    CostJoin(lanes, a, b);
    CostJoin(lanes, a, [hop] + b);
    CostJoin(lanes, [hop], b);
    CostOne(lanes, hop);
  }

  lemma CostOne(lanes: seq<Lane>, hop: Hop)
    requires hop.lane < |lanes|
    ensures Cost(lanes, [hop]) == Length(lanes, hop)
  {
    assert [hop][..0] == [];
  }

  lemma {:induction false} FewerLanes(lanes: seq<Lane>, hops: seq<Hop>)
    requires lanes != [] && OnLanes(lanes, hops) && forall k :: 0 <= k < |hops| ==> hops[k].lane != |lanes| - 1
    ensures OnLanes(lanes[..|lanes| - 1], hops) && Cost(lanes[..|lanes| - 1], hops) == Cost(lanes, hops)
  {
    if hops != [] {
      FewerLanes(lanes, hops[..|hops| - 1]);
    }
  }

  lemma {:induction false} NoRepeatsCost(lanes: seq<Lane>, hops: seq<Hop>)
    requires OnLanes(lanes, hops) && NoRepeats(hops)
    ensures Cost(lanes, hops) <= TotalLength(lanes)
  {
    if lanes == [] {
      assert hops == [];
    } else if i: nat :| i < |hops| && hops[i].lane == |lanes| - 1 {
      CostOut(lanes, hops, i);
      FewerLanes(lanes, hops[..i] + hops[i + 1..]);
      NoRepeatsCost(lanes[..|lanes| - 1], hops[..i] + hops[i + 1..]);
    } else {
      FewerLanes(lanes, hops);
      NoRepeatsCost(lanes[..|lanes| - 1], hops);
    }
  }

  // Leave out the part between two uses of the same lane.
  lemma Shortcut(lanes: seq<Lane>, s: nat, t: nat, hops: seq<Hop>, i: nat, j: nat) returns (r: seq<Hop>, from: nat)
    requires Walk(lanes, s, t, hops) && i < j < |hops| && hops[i].lane == hops[j].lane
    ensures Walk(lanes, s, t, r) && i < from <= |hops| && r == hops[..i] + hops[from..]
  {
    from := if hops[i].reversed == hops[j].reversed then j else j + 1;
    r := hops[..i] + hops[from..];
    assert From(lanes, hops[i]) == (if from == j then From(lanes, hops[j]) else To(lanes, hops[j]));
    if i > 0 {
      assert To(lanes, hops[i - 1]) == From(lanes, hops[i - 1 + 1]);
    }
    forall k | 0 <= k < |r| - 1
      ensures To(lanes, r[k]) == From(lanes, r[k + 1])
    {
      if k < i - 1 {
        assert r[k] == hops[k] && r[k + 1] == hops[k + 1];
      } else if k == i - 1 {
        assert r[k] == hops[i - 1] && r[k + 1] == hops[from];
        assert from == j + 1 ==> To(lanes, hops[j]) == From(lanes, hops[j + 1]);
      } else {
        assert r[k] == hops[k - i + from] && r[k + 1] == hops[k - i + from + 1];
      }
    }
    assert from == j + 1 < |hops| ==> To(lanes, hops[j]) == From(lanes, hops[j + 1]);
  }

  lemma ShortcutCost(lanes: seq<Lane>, hops: seq<Hop>, i: nat, from: nat)
    requires OnLanes(lanes, hops) && i < from <= |hops|
    ensures Cost(lanes, hops[..i] + hops[from..]) <= Cost(lanes, hops)
  {
    CostJoin(lanes, hops[..i], hops[from..]);
    CostJoin(lanes, hops[..i], hops[i..from]);
    CostJoin(lanes, hops[..i] + hops[i..from], hops[from..]);
    assert hops == hops[..i] + hops[i..from] + hops[from..];
  }

  /** Every walk can do without repeated lanes, and is then no longer than all lanes together. */
  lemma {:induction false} ShortWalk(lanes: seq<Lane>, s: nat, t: nat, hops: seq<Hop>) returns (r: seq<Hop>)
    requires Walk(lanes, s, t, hops)
    ensures Walk(lanes, s, t, r) && NoRepeats(r)
    ensures Cost(lanes, r) <= Cost(lanes, hops) && Cost(lanes, r) <= TotalLength(lanes)
    decreases |hops|
  {
    hide Cost;
    if i: nat, j: nat :| i < j < |hops| && hops[i].lane == hops[j].lane {
      var shorter, from := Shortcut(lanes, s, t, hops, i, j);
      ShortcutCost(lanes, hops, i, from);
      r := ShortWalk(lanes, s, t, shorter);
    } else {
      r := hops;
      NoRepeatsCost(lanes, r);
    }
  }

  // ---- Laying the tile path ----

  function Push(full: seq<nat>, tile: nat): seq<nat> {
    if full != [] && full[|full| - 1] == tile then full else full + [tile]
  }

  function PushAll(full: seq<nat>, tiles: seq<nat>): seq<nat> {
    if tiles == [] then full else Push(PushAll(full, tiles[..|tiles| - 1]), tiles[|tiles| - 1])
  }

  function Reversed<T>(s: seq<T>): (r: seq<T>)
    ensures |r| == |s| && forall k :: 0 <= k < |s| ==> r[k] == s[|s| - 1 - k]
  {
    seq(|s|, k requires 0 <= k < |s| => s[|s| - 1 - k])
  }

  function Sailed(lanes: seq<Lane>, h: Hop): seq<nat>
    requires h.lane < |lanes|
  {
    if h.reversed then Reversed(lanes[h.lane].path) else lanes[h.lane].path
  }

  /** The tiles of the lanes one after the other, without immediate repeats. */
  ghost function Laid(lanes: seq<Lane>, hops: seq<Hop>): seq<nat>
    requires OnLanes(lanes, hops)
  {
    if hops == [] then [] else
      PushAll(Laid(lanes, hops[..|hops| - 1]), Sailed(lanes, hops[|hops| - 1]))
  }

  lemma {:induction false} PushAllSize(full: seq<nat>, tiles: seq<nat>)
    ensures |PushAll(full, tiles)| <= |full| + |tiles|
  {
    if tiles != [] {
      PushAllSize(full, tiles[..|tiles| - 1]);
    }
  }

  /** The tile path is no longer than the lanes it follows. */
  lemma {:induction false} LaidSize(lanes: seq<Lane>, hops: seq<Hop>)
    requires OnLanes(lanes, hops)
    ensures |Laid(lanes, hops)| <= Cost(lanes, hops)
  {
    if hops != [] {
      LaidSize(lanes, hops[..|hops| - 1]);
      PushAllSize(Laid(lanes, hops[..|hops| - 1]), Sailed(lanes, hops[|hops| - 1]));
    }
  }

  /** A connected way over allowed tiles without immediate repeats. */
  ghost predicate Way(next: (nat, nat) -> bool, open: nat -> bool, path: seq<nat>) {
    && (forall k :: 0 <= k < |path| ==> open(path[k]))
    && (forall k :: 0 <= k < |path| - 1 ==> path[k] != path[k + 1] && next(path[k], path[k + 1]))
  }

  /** A lane as the path finder delivers it: open tiles, each next to or equal to the one before. */
  ghost predicate Charted(next: (nat, nat) -> bool, open: nat -> bool, entry: nat -> nat, lane: Lane) {
    && lane.path != []
    && lane.path[0] == entry(lane.a) && lane.path[|lane.path| - 1] == entry(lane.b)
    && (forall k :: 0 <= k < |lane.path| ==> open(lane.path[k]))
    && (forall k :: 0 <= k < |lane.path| - 1 ==>
          lane.path[k] == lane.path[k + 1] || next(lane.path[k], lane.path[k + 1]))
  }

  ghost predicate Symmetric(next: (nat, nat) -> bool) {
    forall i, j :: next(i, j) ==> next(j, i)
  }

  ghost predicate Steps(next: (nat, nat) -> bool, open: nat -> bool, tiles: seq<nat>) {
    && (forall k :: 0 <= k < |tiles| ==> open(tiles[k]))
    && (forall k :: 0 <= k < |tiles| - 1 ==> tiles[k] == tiles[k + 1] || next(tiles[k], tiles[k + 1]))
  }

  lemma SailedSteps(lanes: seq<Lane>, next: (nat, nat) -> bool, open: nat -> bool, entry: nat -> nat, h: Hop)
    requires h.lane < |lanes| && Charted(next, open, entry, lanes[h.lane]) && Symmetric(next)
    ensures var s := Sailed(lanes, h);
            && s != [] && Steps(next, open, s)
            && s[0] == entry(From(lanes, h)) && s[|s| - 1] == entry(To(lanes, h))
  {
    var path, s := lanes[h.lane].path, Sailed(lanes, h);
    if h.reversed {
      forall k | 0 <= k < |s| - 1
        ensures s[k] == s[k + 1] || next(s[k], s[k + 1])
      {
        var j := |s| - 2 - k;
        assert path[j] == path[j + 1] || next(path[j], path[j + 1]);
      }
    }
  }

  lemma WayNone(next: (nat, nat) -> bool, open: nat -> bool)
    ensures Way(next, open, [])
  {
  }

  lemma PushWay(next: (nat, nat) -> bool, open: nat -> bool, full: seq<nat>, tile: nat)
    requires Way(next, open, full) && open(tile)
    requires full != [] ==> full[|full| - 1] == tile || next(full[|full| - 1], tile)
    ensures var r := Push(full, tile);
            && Way(next, open, r) && r != [] && r[|r| - 1] == tile
            && r[0] == if full == [] then tile else full[0]
  {
  }

  lemma StepsInit(next: (nat, nat) -> bool, open: nat -> bool, tiles: seq<nat>)
    requires Steps(next, open, tiles) && tiles != []
    ensures var init, last := tiles[..|tiles| - 1], tiles[|tiles| - 1];
            && Steps(next, open, init) && open(last)
            && (init != [] ==> init[0] == tiles[0] && (init[|init| - 1] == last || next(init[|init| - 1], last)))
  {
    if |tiles| > 1 {
      var k := |tiles| - 2;
      assert tiles[k] == tiles[k + 1] || next(tiles[k], tiles[k + 1]);
    }
  }

  lemma {:induction false} PushAllWay(next: (nat, nat) -> bool, open: nat -> bool, full: seq<nat>, tiles: seq<nat>)
    requires Way(next, open, full) && Steps(next, open, tiles)
    requires full != [] && tiles != [] ==> full[|full| - 1] == tiles[0] || next(full[|full| - 1], tiles[0])
    ensures var r := PushAll(full, tiles);
            && Way(next, open, r)
            && (r == [] <==> full == [] && tiles == [])
            && (tiles != [] ==> r[|r| - 1] == tiles[|tiles| - 1])
            && (full != [] ==> r[0] == full[0])
            && (full == [] && tiles != [] ==> r[0] == tiles[0])
            && (tiles == [] ==> r == full)
  {
    hide Way, Steps, Push;
    if tiles != [] {
      var init := tiles[..|tiles| - 1];
      StepsInit(next, open, tiles);
      PushAllWay(next, open, full, init);
      PushWay(next, open, PushAll(full, init), tiles[|tiles| - 1]);
    }
  }

  /**
  The tile path of a nonempty walk is connected, stays on open tiles, leads from the source port's entry
  to the destination port's entry, and has no immediate repeats.
  */
  lemma {:induction false} RouteIsWay(lanes: seq<Lane>, next: (nat, nat) -> bool, open: nat -> bool, entry: nat -> nat,
                                      s: nat, t: nat, hops: seq<Hop>)
    requires Walk(lanes, s, t, hops) && hops != [] && Symmetric(next)
    requires forall k :: 0 <= k < |lanes| ==> Charted(next, open, entry, lanes[k])
    ensures var path := Laid(lanes, hops);
            && path != [] && Way(next, open, path)
            && path[0] == entry(s) && path[|path| - 1] == entry(t)
    decreases |hops|
  {
    hide Charted, Sailed, Way, Steps, PushAll;
    var init, last := hops[..|hops| - 1], hops[|hops| - 1];
    WalkInit(lanes, s, t, hops);
    SailedSteps(lanes, next, open, entry, last);
    if init != [] {
      RouteIsWay(lanes, next, open, entry, s, From(lanes, last), init);
    } else {
      WayNone(next, open);
    }
    PushAllWay(next, open, Laid(lanes, init), Sailed(lanes, last));
  }
}
