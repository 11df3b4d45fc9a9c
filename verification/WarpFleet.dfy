/**
Launch resolution for transport fleets (sow-core/src/warp_fleet.rs): which water
bodies a player can launch on, where the fleet lands, and where it starts.
*/
module WarpFleet {
  import opened Wrappers
  import opened Grid
  import opened TileMaps
  import opened WaterComponents
  import Bitset

  const U32: nat := 0x1_0000_0000

  // ---- Shores ----

  /** A shoreline land tile of the given owner. */
  predicate IsShore(m: TileMap, owner: nat, idx: nat)
    requires m.Valid()
  {
    idx < m.Size() && m.owner[idx] == owner && m.land[idx] && m.shoreline[idx]
  }

  /** The border tiles a player's bitset lists lie on the map. */
  ghost predicate BorderOnMap(m: TileMap, border: Bitset.Blocks) {
    forall i: nat :: Bitset.Has(border, i) ==> i < m.Size()
  }

  lemma OnesOnMap(m: TileMap, border: Bitset.Blocks)
    requires BorderOnMap(m, border)
    ensures forall k :: 0 <= k < |Bitset.Ones(border)| ==> Bitset.Ones(border)[k] < m.Size()
    ensures forall i: nat :: i in Bitset.Ones(border) <==> Bitset.Has(border, i)
  {
    hide Bitset.Has, Bitset.Ones;
    Bitset.OnesAre(border);
    forall k | 0 <= k < |Bitset.Ones(border)|
      ensures Bitset.Ones(border)[k] < m.Size()
    {
      assert Bitset.Ones(border)[k] in Bitset.Ones(border);
    }
  }

  // ---- Nearest candidate, ties to the smaller index ----

  ghost predicate NoFarther(w: nat, reference: nat, a: nat, b: nat)
    requires w > 0
  {
    var da, db := Manhattan(w, reference, a), Manhattan(w, reference, b);
    da < db || (da == db && a <= b)
  }

  ghost predicate Nearest(w: nat, reference: nat, candidates: set<nat>, r: Option<nat>)
    requires w > 0
  {
    match r
    case None => candidates == {}
    case Some(i) => i in candidates && forall c :: c in candidates ==> NoFarther(w, reference, i, c)
  }

  // The `match best` of the searches, with the distance kept beside the index.
  function Better(best: Option<(nat, nat)>, d: nat, idx: nat): Option<(nat, nat)> {
    match best
    case None => Some((d, idx))
    case Some((bd, bi)) => if d < bd || (d == bd && idx < bi) then Some((d, idx)) else best
  }

  ghost predicate Best(w: nat, reference: nat, candidates: set<nat>, best: Option<(nat, nat)>)
    requires w > 0
  {
    && (best.Some? ==> best.value.0 == Manhattan(w, reference, best.value.1))
    && Nearest(w, reference, candidates, IndexOf(best))
  }

  function IndexOf(best: Option<(nat, nat)>): Option<nat> {
    match best
    case None => None
    case Some((_, i)) => Some(i)
  }

  lemma BestStep(w: nat, reference: nat, candidates: set<nat>, best: Option<(nat, nat)>, idx: nat)
    requires w > 0 && Best(w, reference, candidates, best)
    ensures Best(w, reference, candidates + {idx}, Better(best, Manhattan(w, reference, idx), idx))
  {
    hide Manhattan;
  }

  // ---- The water bodies a player can launch on ----

  ghost predicate LaunchesOn(m: TileMap, c: Components, player: nat, border: Bitset.Blocks, comp: nat)
    requires m.Valid()
  {
    comp != 0 && exists i: nat :: Bitset.Has(border, i) && IsShore(m, player, i) && ComponentOf(c, i) == comp
  }

  function InsertSorted(s: seq<nat>, x: nat): seq<nat> {
    if s == [] || x < s[0] then [x] + s else [s[0]] + InsertSorted(s[1..], x)
  }

  // `sort_unstable` on a list without repetitions.
  function Sort(s: seq<nat>): seq<nat> {
    if s == [] then [] else InsertSorted(Sort(s[1..]), s[0])
  }

  lemma {:induction false} InsertSortedIs(s: seq<nat>, x: nat)
    requires Bitset.Ascending(s) && x !in s
    ensures Bitset.Ascending(InsertSorted(s, x)) && forall i: nat :: i in InsertSorted(s, x) <==> i == x || i in s
  {
    if s != [] && x >= s[0] {
      assert s[0] in s;
      var rest := InsertSorted(s[1..], x);
      InsertSortedIs(s[1..], x);
      assert s == [s[0]] + s[1..];
      forall i | 0 <= i < |rest|
        ensures s[0] < rest[i]
      {
        assert rest[i] in rest;
      }
    }
  }

  lemma {:induction false} SortIs(s: seq<nat>)
    requires Distinct(s)
    ensures Bitset.Ascending(Sort(s)) && forall i: nat :: i in Sort(s) <==> i in s
  {
    if s != [] {
      assert s == [s[0]] + s[1..];
      SortIs(s[1..]);
      InsertSortedIs(Sort(s[1..]), s[0]);
    }
  }

  /** Sorted, without repetitions, and exactly the nonzero components of the player's border shores. */
  method PlayerWaterComponents(m: TileMap, c: Components, player: nat, border: Bitset.Blocks) returns (out: seq<nat>)
    requires m.Valid() && BorderOnMap(m, border)
    ensures Bitset.Ascending(out)
    ensures forall comp: nat :: comp in out <==> LaunchesOn(m, c, player, border, comp)
  {
    hide Bitset.Has, Bitset.Ones, Sort;
    var ones := Bitset.Ones(border);
    OnesOnMap(m, border);
    out := [];
    for k := 0 to |ones|
      invariant Distinct(out)
      invariant forall comp: nat :: comp in out <==>
                  comp != 0 && exists j :: 0 <= j < k && IsShore(m, player, ones[j]) && ComponentOf(c, ones[j]) == comp
    {
      var idx := ones[k];
      if m.owner[idx] != player {
        continue;
      }
      if !m.land[idx] || !m.shoreline[idx] {
        continue;
      }
      var comp := ComponentOf(c, idx);
      if comp == 0 {
        continue;
      }
      if comp !in out {
        out := out + [comp];
      }
    }
    forall comp: nat
      ensures comp in out <==> LaunchesOn(m, c, player, border, comp)
    {
      if LaunchesOn(m, c, player, border, comp) {
        var i: nat :| Bitset.Has(border, i) && IsShore(m, player, i) && ComponentOf(c, i) == comp;
        assert i in ones;
      }
      if comp in out {
        var j :| 0 <= j < |ones| && IsShore(m, player, ones[j]) && ComponentOf(c, ones[j]) == comp;
        assert ones[j] in ones;
      }
    }
    SortIs(out);
    out := Sort(out);
  }

  // `binary_search` on a sorted list finds a value iff it is there.
  predicate ComponentsMatch(mine: seq<nat>, c: nat) {
    c != 0 && c in mine
  }

  // ---- Landing on a player's shore ----

  ghost function TargetShores(m: TileMap, c: Components, mine: seq<nat>, owner: nat, border: Bitset.Blocks): set<nat>
    requires m.Valid()
  {
    set i: nat | && i < m.Size() && Bitset.Has(border, i) && IsShore(m, owner, i)
                 && ComponentsMatch(mine, ComponentOf(c, i))
  }

  /** The target's own shore nearest to the click, among those on the launcher's water bodies. */
  method ClosestTargetShoreForPlayer(m: TileMap, c: Components, mine: seq<nat>, owner: nat, border: Bitset.Blocks,
                                     click: nat)
      returns (r: Option<nat>)
    requires m.Valid() && m.width > 0 && BorderOnMap(m, border)
    ensures Nearest(m.width, click, TargetShores(m, c, mine, owner, border), r)
  {
    hide Bitset.Has, Bitset.Ones, X, Y, Manhattan;
    if mine == [] {
      assert TargetShores(m, c, mine, owner, border) == {};
      return None;
    }
    var ones := Bitset.Ones(border);
    OnesOnMap(m, border);
    var best: Option<(nat, nat)> := None;
    ghost var seen: set<nat> := {};
    for k := 0 to |ones|
      invariant Best(m.width, click, seen, best)
      invariant forall i: nat :: i in seen <==>
                  i in ones[..k] && IsShore(m, owner, i) && ComponentsMatch(mine, ComponentOf(c, i))
    {
      var idx := ones[k];
      assert ones[..k + 1] == ones[..k] + [idx];
      if m.owner[idx] != owner {
        continue;
      }
      if !m.land[idx] || !m.shoreline[idx] {
        continue;
      }
      if !ComponentsMatch(mine, ComponentOf(c, idx)) {
        continue;
      }
      BestStep(m.width, click, seen, best, idx);
      best := Better(best, Manhattan(m.width, click, idx), idx);
      seen := seen + {idx};
    }
    assert ones[..|ones|] == ones;
    assert seen == TargetShores(m, c, mine, owner, border);
    return IndexOf(best);
  }

  // ---- Launching ----

  /** A launch must touch the landing's water body, or, without components, any water at all. */
  ghost predicate MayLaunch(m: TileMap, on: Option<(Components, nat)>, i: nat)
    requires m.Valid() && m.width > 0
  {
    match on
    case Some((c, comp)) => ComponentOf(c, i) == comp
    case None => exists j: nat :: j < m.Size() && Near8(m.width, i, j) && !m.land[j]
  }

  ghost function LaunchShores(m: TileMap, player: nat, border: Bitset.Blocks, on: Option<(Components, nat)>): set<nat>
    requires m.Valid() && m.width > 0
  {
    set i: nat | i < m.Size() && Bitset.Has(border, i) && IsShore(m, player, i) && MayLaunch(m, on, i)
  }

  method TouchesWater(m: TileMap, i: nat) returns (touches: bool)
    requires m.Valid() && m.width > 0 && i < m.Size()
    ensures touches <==> MayLaunch(m, None, i)
  {
    hide X, Y, At, Around, Near8;
    touches := false;
    var around := Around(m.width, m.height, i, ALL_AROUND);
    forall j: nat
      ensures j in around <==> j < m.Size() && Near8(m.width, i, j)
    {
      AllAroundHas(m.width, m.height, i, j);
    }
    assert forall k :: 0 <= k < |around| ==> around[k] in around;
    for k := 0 to |around|
      invariant forall j :: 0 <= j < |around| ==> around[j] < m.Size()
      invariant touches <==> exists j :: 0 <= j < k && !m.land[around[j]]
    {
      assert around[k] in around;
      if !m.land[around[k]] {
        touches := true;
      }
    }
  }

  /** The player's shore nearest to the reference tile among those it may launch from. */
  method BestShoreSpawnForTransport(m: TileMap, player: nat, border: Bitset.Blocks, reference: nat,
                                    on: Option<(Components, nat)>)
      returns (r: Option<nat>)
    requires m.Valid() && m.width > 0 && BorderOnMap(m, border)
    ensures Nearest(m.width, reference, LaunchShores(m, player, border, on), r)
  {
    hide Bitset.Has, Bitset.Ones, X, Y, Manhattan, Near8;
    var ones := Bitset.Ones(border);
    OnesOnMap(m, border);
    var best: Option<(nat, nat)> := None;
    ghost var seen: set<nat> := {};
    for k := 0 to |ones|
      invariant Best(m.width, reference, seen, best)
      invariant forall i: nat :: i in seen <==> i in ones[..k] && IsShore(m, player, i) && MayLaunch(m, on, i)
    {
      var idx := ones[k];
      assert ones[..k + 1] == ones[..k] + [idx];
      if m.owner[idx] != player {
        continue;
      }
      if !m.land[idx] || !m.shoreline[idx] {
        continue;
      }
      match on {
        case Some((c, comp)) =>
          if ComponentOf(c, idx) != comp {
            continue;
          }
        case None =>
          var touches := TouchesWater(m, idx);
          if !touches {
            continue;
          }
      }
      BestStep(m.width, reference, seen, best, idx);
      best := Better(best, Manhattan(m.width, reference, idx), idx);
      seen := seen + {idx};
    }
    assert ones[..|ones|] == ones;
    assert seen == LaunchShores(m, player, border, on);
    return IndexOf(best);
  }

  // ---- Landing on neutral shore: a bounded search around the click ----

  const EVEN_ROW: Deltas := [(1, 0), (-1, 0), (-1, -1), (0, -1), (-1, 1), (0, 1)]
  const ODD_ROW: Deltas := [(1, 0), (-1, 0), (0, -1), (1, -1), (0, 1), (1, 1)]

  function HexDeltas(w: nat, i: nat): Deltas
    requires w > 0
  {
    if Y(w, i) % 2 != 0 then ODD_ROW else EVEN_ROW
  }

  lemma HexHasCardinals(w: nat, h: nat, i: nat, j: nat)
    requires w > 0 && j < w * h && Next4(w, i, j)
    ensures j in Around(w, h, i, HexDeltas(w, i))
  {
    hide X, Y, At, Around;
    var d := (X(w, j) - X(w, i), Y(w, j) - Y(w, i));
    assert d == (1, 0) || d == (-1, 0) || d == (0, -1) || d == (0, 1);
    var deltas := HexDeltas(w, i);
    assert d in deltas;
    var k :| 0 <= k < |deltas| && deltas[k] == d;
    assert Offset(w, i, j, deltas[k]);
    AroundHas(w, h, i, deltas, j);
  }

  lemma HexInside(w: nat, h: nat, i: nat)
    requires w > 0
    ensures forall k :: 0 <= k < |Around(w, h, i, HexDeltas(w, i))| ==> Around(w, h, i, HexDeltas(w, i))[k] < w * h
  {
    hide Around, HexDeltas;
    var s := Around(w, h, i, HexDeltas(w, i));
    forall k | 0 <= k < |s|
      ensures s[k] < w * h
    {
      assert s[k] in s;
      AroundHas(w, h, i, HexDeltas(w, i), s[k]);
    }
  }

  /** The tiles the search may visit. */
  ghost predicate Within(w: nat, click: nat, maxDist: nat, i: nat)
    requires w > 0
  {
    Manhattan(w, click, i) <= maxDist
  }

  ghost predicate NeutralShore(m: TileMap, c: Components, mine: seq<nat>, i: nat)
    requires m.Valid()
  {
    IsShore(m, 0, i) && ComponentsMatch(mine, ComponentOf(c, i))
  }

  ghost function NeutralShores(m: TileMap, c: Components, mine: seq<nat>, click: nat, maxDist: nat): set<nat>
    requires m.Valid() && m.width > 0
  {
    set i: nat | i < m.Size() && Within(m.width, click, maxDist, i) && NeutralShore(m, c, mine, i)
  }

  /** A set with the click and, for each of its tiles, the hex neighbours within reach holds every tile within reach. */
  lemma {:induction false} ReachAll(w: nat, h: nat, click: nat, maxDist: nat, found: set<nat>, i: nat)
    requires w > 0 && click < w * h && click in found
    requires forall a, b: nat ::
               a in found && b in Around(w, h, a, HexDeltas(w, a)) && Within(w, click, maxDist, b) ==> b in found
    requires i < w * h && Within(w, click, maxDist, i)
    ensures i in found
    decreases Manhattan(w, click, i)
  {
    hide X, Y, At, Around, HexDeltas, Manhattan, Next4;
    if Manhattan(w, click, i) > 0 {
      ManhattanSym(w, click, i);
      var j := Toward(w, h, i, click);
      ManhattanSym(w, click, j);
      ReachAll(w, h, click, maxDist, found, j);
      Next4Sym(w, i, j);
      HexHasCardinals(w, h, j, i);
    } else {
      ZeroManhattan(w, h, click, i);
    }
  }

  // Tiles found by this call carry the stamp; the queued ones have not been looked at yet.
  ghost function Stamped(visited: seq<nat>, n: nat, stamp: nat): set<nat> {
    set i | 0 <= i < n && i < |visited| && visited[i] == stamp
  }

  // A step of the search: to an in-bounds hex neighbour within reach of the click.
  ghost predicate HexReach(m: TileMap, click: nat, maxDist: nat, a: nat, b: nat)
    requires m.width > 0
  {
    b in Around(m.width, m.height, a, HexDeltas(m.width, a)) && Within(m.width, click, maxDist, b)
  }

  ghost predicate Searching(m: TileMap, click: nat, maxDist: nat, found: set<nat>, queue: seq<nat>)
    requires m.width > 0
  {
    && click in found && Distinct(queue)
    && (forall i :: i in queue ==> i in found)
    && (forall i :: i in found ==> i < m.Size() && Within(m.width, click, maxDist, i))
    && (forall a, b: nat :: (a in found && a !in queue && HexReach(m, click, maxDist, a, b)) ==> b in found)
  }

  lemma SearchPush(m: TileMap, click: nat, maxDist: nat, found: set<nat>, queue: seq<nat>, i: nat)
    requires m.width > 0 && Searching(m, click, maxDist, found, queue)
    requires i < m.Size() && i !in found && Within(m.width, click, maxDist, i)
    ensures Searching(m, click, maxDist, found + {i}, queue + [i])
  {
    hide Around, HexDeltas, Within;
    var more := queue + [i];
    assert forall a {:trigger a in more} :: a in more <==> a in queue || a == i;
  }

  lemma SearchPop(m: TileMap, click: nat, maxDist: nat, found: set<nat>, queue: seq<nat>)
    requires m.width > 0 && Searching(m, click, maxDist, found, queue) && queue != []
    requires forall b: nat :: HexReach(m, click, maxDist, queue[0], b) ==> b in found
    ensures Searching(m, click, maxDist, found, queue[1..])
    ensures forall a: nat :: a in queue[1..] <==> a in queue && a != queue[0]
  {
    hide Around, HexDeltas, Within;
    var rest := queue[1..];
    assert queue == [queue[0]] + rest;
    assert forall a: nat {:trigger a in rest} :: a in queue <==> a in rest || a == queue[0];
  }

  lemma SearchEnd(m: TileMap, click: nat, maxDist: nat, found: set<nat>)
    requires m.width > 0 && Searching(m, click, maxDist, found, []) && click < m.Size()
    ensures forall i: nat :: i in found <==> i < m.Size() && Within(m.width, click, maxDist, i)
  {
    hide Around, HexDeltas, Within;
    forall i: nat | i < m.Size() && Within(m.width, click, maxDist, i)
      ensures i in found
    {
      ReachAll(m.width, m.height, click, maxDist, found, i);
    }
  }

  /** The tiles looked at so far that qualify. */
  ghost function Looked(m: TileMap, c: Components, mine: seq<nat>, found: set<nat>, queue: seq<nat>): set<nat>
    requires m.Valid()
  {
    set i | i in found && i !in queue && NeutralShore(m, c, mine, i)
  }

  lemma LookedPush(m: TileMap, c: Components, mine: seq<nat>, found: set<nat>, queue: seq<nat>, i: nat)
    requires m.Valid() && i !in found
    ensures Looked(m, c, mine, found + {i}, queue + [i]) == Looked(m, c, mine, found, queue)
  {
    hide NeutralShore;
    var more := queue + [i];
    assert forall a {:trigger a in more} :: a in more <==> a in queue || a == i;
  }

  lemma LookedPop(m: TileMap, c: Components, mine: seq<nat>, found: set<nat>, queue: seq<nat>)
    requires m.Valid() && queue != [] && Distinct(queue) && forall i :: i in queue ==> i in found
    ensures Looked(m, c, mine, found, queue[1..]) ==
              Looked(m, c, mine, found, queue) + (if NeutralShore(m, c, mine, queue[0]) then {queue[0]} else {})
  {
    hide NeutralShore;
    var rest := queue[1..];
    assert queue == [queue[0]] + rest;
    assert forall a: nat {:trigger a in rest} :: a in queue <==> a in rest || a == queue[0];
    assert queue[0] in queue;
  }

  lemma StampOne(visited: seq<nat>, n: nat, stamp: nat, i: nat)
    requires i < n <= |visited| && visited[i] != stamp
    ensures Stamped(visited[i := stamp], n, stamp) == Stamped(visited, n, stamp) + {i}
    ensures i !in Stamped(visited, n, stamp)
    ensures |Stamped(visited[i := stamp], n, stamp)| == |Stamped(visited, n, stamp)| + 1
  {
    assert Stamped(visited[i := stamp], n, stamp) == Stamped(visited, n, stamp) + {i};
  }

  lemma StampedAtMost(visited: seq<nat>, n: nat, stamp: nat)
    ensures |Stamped(visited, n, stamp)| <= n
  {
    SubsetSize(Stamped(visited, n, stamp), Below(n));
  }

  lemma StampedIs(visited: seq<nat>, n: nat, stamp: nat)
    requires n <= |visited|
    ensures forall i: nat :: i < n ==> (i in Stamped(visited, n, stamp) <==> visited[i] == stamp)
    ensures forall i: nat :: i in Stamped(visited, n, stamp) ==> i < n
  {
  }

  lemma StartSearch(m: TileMap, c: Components, mine: seq<nat>, click: nat, maxDist: nat, visited: seq<nat>, stamp: nat)
    requires m.Valid() && m.width > 0 && click < m.Size() <= |visited|
    requires forall i :: 0 <= i < |visited| ==> visited[i] != stamp
    ensures var found := Stamped(visited[click := stamp], m.Size(), stamp);
            && Searching(m, click, maxDist, found, [click])
            && Best(m.width, click, Looked(m, c, mine, found, [click]), None)
  {
    hide X, Y, Around, HexDeltas, NeutralShore;
    var found := Stamped(visited[click := stamp], m.Size(), stamp);
    assert found == {click};
    assert Looked(m, c, mine, found, [click]) == {};
  }

  lemma FinishSearch(m: TileMap, c: Components, mine: seq<nat>, click: nat, maxDist: nat, found: set<nat>,
                     best: Option<(nat, nat)>)
    requires m.Valid() && m.width > 0 && click < m.Size() && Searching(m, click, maxDist, found, [])
    requires Best(m.width, click, Looked(m, c, mine, found, []), best)
    ensures Nearest(m.width, click, NeutralShores(m, c, mine, click, maxDist), IndexOf(best))
    ensures forall i: nat :: i in found <==> i < m.Size() && Within(m.width, click, maxDist, i)
  {
    hide Around, HexDeltas, Within, NeutralShore, Nearest, Manhattan;
    SearchEnd(m, click, maxDist, found);
    assert Looked(m, c, mine, found, []) == NeutralShores(m, c, mine, click, maxDist);
  }

  lemma FrontTile(m: TileMap, click: nat, maxDist: nat, found: set<nat>, queue: seq<nat>)
    requires m.width > 0 && Searching(m, click, maxDist, found, queue) && queue != []
    ensures queue[0] < m.Size() && Distinct(queue) && forall i :: i in queue ==> i in found
  {
    hide Around, HexDeltas, Within;
    assert queue[0] in queue;
  }

  function Zeros(n: nat): (r: seq<nat>)
    ensures |r| == n && forall i :: 0 <= i < n ==> r[i] == 0
  {
    seq(n, i => 0)
  }

  /** The search buffers of `WaterPathfinderScratch`, shared by all calls. */
  class FleetScratch {
    var bfsQueue: seq<nat>
    var bfsVisited: seq<nat>
    var bfsStamp: nat

    /** No old mark can be mistaken for one of the next call. */
    ghost predicate Valid()
      reads this
    {
      bfsStamp < U32 && forall i :: 0 <= i < |bfsVisited| ==> bfsVisited[i] <= bfsStamp
    }

    constructor ()
      ensures Valid()
    {
      bfsQueue, bfsVisited, bfsStamp := [], [], 0;
    }

    // Grow the marks, advance the stamp, and start over when it wraps around.
    method NextStamp(need: nat)
      requires Valid()
      modifies this`bfsVisited, this`bfsStamp
      ensures Valid() && |bfsVisited| == if |old(bfsVisited)| < need then need else |old(bfsVisited)|
      ensures bfsStamp == if old(bfsStamp) == U32 - 1 then 1 else old(bfsStamp) + 1
      ensures forall i :: 0 <= i < |bfsVisited| ==> bfsVisited[i] != bfsStamp
    {
      if |bfsVisited| < need {
        bfsVisited := bfsVisited + Zeros(need - |bfsVisited|);
      }
      bfsStamp := (bfsStamp + 1) % U32;
      if bfsStamp == 0 {
        bfsVisited := Zeros(|bfsVisited|);
        bfsStamp := 1;
      }
    }

    /**
    Visits exactly the tiles within `maxDist` of the click, although it steps along hex offsets, and
    returns the nearest qualifying neutral shore among them.
    */
    method ClosestNeutralShoreOnComponents(m: TileMap, c: Components, mine: seq<nat>, click: nat, maxDist: nat)
        returns (r: Option<nat>)
      requires Valid() && m.Valid()
      modifies this
      ensures Valid()
      ensures mine == [] || m.Size() == 0 || click >= m.Size() ==> r == None
      ensures mine != [] && click < m.Size() ==>
                && m.width > 0
                && Nearest(m.width, click, NeutralShores(m, c, mine, click, maxDist), r)
                && |bfsVisited| >= m.Size()
                && forall i: nat :: i < m.Size() ==>
                     (bfsVisited[i] == bfsStamp <==> Within(m.width, click, maxDist, i))
    {
      hide X, Y, At, Around, HexDeltas, Manhattan, Within, Searching, Looked, NeutralShore, Stamped;
      hide Best, Better, NeutralShores;
      if mine == [] {
        return None;
      }
      if m.width == 0 || m.height == 0 {
        return None;
      }
      var area := m.width * m.height;
      if click >= area {
        return None;
      }
      NextStamp(area);
      var stamp := bfsStamp;
      StartSearch(m, c, mine, click, maxDist, bfsVisited, stamp);
      bfsVisited := bfsVisited[click := stamp];
      bfsQueue := [click];
      var best: Option<(nat, nat)> := None;
      while bfsQueue != []
        invariant Valid() && bfsStamp == stamp && |bfsVisited| >= area
        invariant Searching(m, click, maxDist, Stamped(bfsVisited, area, stamp), bfsQueue)
        invariant Best(m.width, click, Looked(m, c, mine, Stamped(bfsVisited, area, stamp), bfsQueue), best)
        decreases area - |Stamped(bfsVisited, area, stamp)| + |bfsQueue|
      {
        best := Visit(m, c, mine, click, maxDist, best);
        StampedAtMost(bfsVisited, area, stamp);
      }
      FinishSearch(m, c, mine, click, maxDist, Stamped(bfsVisited, area, stamp), best);
      StampedIs(bfsVisited, area, stamp);
      return IndexOf(best);
    }

    // Look at the front tile and queue its unmarked neighbours within reach.
    method Visit(m: TileMap, c: Components, mine: seq<nat>, click: nat, maxDist: nat, best: Option<(nat, nat)>)
        returns (best': Option<(nat, nat)>)
      requires Valid() && m.Valid() && m.width > 0 && |bfsVisited| >= m.Size() && bfsQueue != []
      requires Searching(m, click, maxDist, Stamped(bfsVisited, m.Size(), bfsStamp), bfsQueue)
      requires Best(m.width, click, Looked(m, c, mine, Stamped(bfsVisited, m.Size(), bfsStamp), bfsQueue), best)
      modifies this`bfsQueue, this`bfsVisited
      ensures Valid() && |bfsVisited| >= m.Size()
      ensures Searching(m, click, maxDist, Stamped(bfsVisited, m.Size(), bfsStamp), bfsQueue)
      ensures Best(m.width, click, Looked(m, c, mine, Stamped(bfsVisited, m.Size(), bfsStamp), bfsQueue), best')
      ensures m.Size() - |Stamped(bfsVisited, m.Size(), bfsStamp)| + |bfsQueue| <
              m.Size() - |Stamped(old(bfsVisited), m.Size(), bfsStamp)| + |old(bfsQueue)|
    {
      hide X, Y, At, Around, HexDeltas, Manhattan, Searching, Looked, Stamped, Best, Better, NeutralShore;
      var n, stamp := m.Size(), bfsStamp;
      FrontTile(m, click, maxDist, Stamped(bfsVisited, n, stamp), bfsQueue);
      var idx := bfsQueue[0];
      best' := Consider(m, c, mine, click, idx, best, Looked(m, c, mine, Stamped(bfsVisited, n, stamp), bfsQueue));
      bfsQueue := bfsQueue[1..];
      assert [idx] + bfsQueue == old(bfsQueue);
      ghost var looked := Looked(m, c, mine, Stamped(bfsVisited, n, stamp), old(bfsQueue));
      var around := Around(m.width, m.height, idx, HexDeltas(m.width, idx));
      HexInside(m.width, m.height, idx);
      for k := 0 to |around|
        invariant Valid() && |bfsVisited| >= n
        invariant Searching(m, click, maxDist, Stamped(bfsVisited, n, stamp), [idx] + bfsQueue)
        invariant Looked(m, c, mine, Stamped(bfsVisited, n, stamp), [idx] + bfsQueue) == looked
        invariant |bfsQueue| + 1 - |Stamped(bfsVisited, n, stamp)| ==
                    |old(bfsQueue)| - |Stamped(old(bfsVisited), n, stamp)|
        invariant forall j :: 0 <= j < k && Within(m.width, click, maxDist, around[j]) ==>
                    around[j] in Stamped(bfsVisited, n, stamp)
      {
        var ni := around[k];
        if Manhattan(m.width, click, ni) > maxDist {
          continue;
        }
        StampedIs(bfsVisited, n, stamp);
        if bfsVisited[ni] == stamp {
          continue;
        }
        StampOne(bfsVisited, n, stamp, ni);
        SearchPush(m, click, maxDist, Stamped(bfsVisited, n, stamp), [idx] + bfsQueue, ni);
        LookedPush(m, c, mine, Stamped(bfsVisited, n, stamp), [idx] + bfsQueue, ni);
        assert [idx] + bfsQueue + [ni] == [idx] + (bfsQueue + [ni]);
        bfsVisited := bfsVisited[ni := stamp];
        bfsQueue := bfsQueue + [ni];
      }
      FrontTile(m, click, maxDist, Stamped(bfsVisited, n, stamp), [idx] + bfsQueue);
      SearchPop(m, click, maxDist, Stamped(bfsVisited, n, stamp), [idx] + bfsQueue);
      LookedPop(m, c, mine, Stamped(bfsVisited, n, stamp), [idx] + bfsQueue);
      assert ([idx] + bfsQueue)[1..] == bfsQueue;
    }
  }

  method Consider(m: TileMap, c: Components, mine: seq<nat>, click: nat, idx: nat, best: Option<(nat, nat)>,
                  ghost looked: set<nat>)
      returns (best': Option<(nat, nat)>)
    requires m.Valid() && m.width > 0 && idx < m.Size() && Best(m.width, click, looked, best)
    ensures Best(m.width, click, looked + (if NeutralShore(m, c, mine, idx) then {idx} else {}), best')
  {
    hide X, Y, Manhattan, Better, Best;
    if m.land[idx] && m.shoreline[idx] && m.owner[idx] == 0 && ComponentsMatch(mine, ComponentOf(c, idx)) {
      BestStep(m.width, click, looked, best, idx);
      best' := Better(best, Manhattan(m.width, click, idx), idx);
    } else {
      assert looked + {} == looked;
      best' := best;
    }
  }

  // ---- The whole route ----

  datatype FleetLaunchError =
    | InvalidTile
    | SelfTarget
    | NoWaterAccess
    | TargetPlayerNotFound(targetOwner: nat)
    | NoLandingShore
    | NoLaunchShore(component: nat)
    | NoWaterPath

  datatype FleetRoute = FleetRoute(srcTile: nat, landingTile: nat, path: seq<nat>)

  const NEUTRAL_REACH: nat := 200

  /** The shores a fleet may land on, for the kind of target. */
  ghost function Landings(m: TileMap, c: Components, mine: seq<nat>, targetOwner: nat, click: nat,
                          targetBorder: Option<Bitset.Blocks>): set<nat>
    requires m.Valid() && m.width > 0 && (targetOwner != 0 ==> targetBorder.Some?)
  {
    if targetOwner != 0 then TargetShores(m, c, mine, targetOwner, targetBorder.value)
    else NeutralShores(m, c, mine, click, NEUTRAL_REACH)
  }

  /** The same shores, without the intermediate list of water bodies. */
  ghost predicate MayLand(m: TileMap, c: Components, player: nat, border: Bitset.Blocks, targetOwner: nat, click: nat,
                          targetBorder: Option<Bitset.Blocks>, i: nat)
    requires m.Valid() && m.width > 0
  {
    && IsShore(m, targetOwner, i) && LaunchesOn(m, c, player, border, ComponentOf(c, i))
    && (if targetOwner != 0 then targetBorder.Some? && Bitset.Has(targetBorder.value, i)
        else Within(m.width, click, NEUTRAL_REACH, i))
  }

  ghost function LandingChoices(m: TileMap, c: Components, player: nat, border: Bitset.Blocks, targetOwner: nat,
                                click: nat, targetBorder: Option<Bitset.Blocks>): set<nat>
    requires m.Valid() && m.width > 0
  {
    set i: nat | i < m.Size() && MayLand(m, c, player, border, targetOwner, click, targetBorder, i)
  }

  lemma LandingsAreChoices(m: TileMap, c: Components, mine: seq<nat>, player: nat, border: Bitset.Blocks,
                           targetOwner: nat, click: nat, targetBorder: Option<Bitset.Blocks>)
    requires m.Valid() && m.width > 0 && (targetOwner != 0 ==> targetBorder.Some?)
    requires forall comp: nat :: comp in mine <==> LaunchesOn(m, c, player, border, comp)
    ensures Landings(m, c, mine, targetOwner, click, targetBorder) ==
              LandingChoices(m, c, player, border, targetOwner, click, targetBorder)
  {
    hide Bitset.Has, Within;
    forall i: nat | LaunchesOn(m, c, player, border, ComponentOf(c, i))
      ensures ComponentOf(c, i) != 0
    {
    }
    hide LaunchesOn;
  }

  lemma ChoiceIs(m: TileMap, c: Components, player: nat, border: Bitset.Blocks, targetOwner: nat, click: nat,
                 targetBorder: Option<Bitset.Blocks>, i: nat)
    requires m.Valid() && m.width > 0
    requires i in LandingChoices(m, c, player, border, targetOwner, click, targetBorder)
    ensures IsShore(m, targetOwner, i) && LaunchesOn(m, c, player, border, ComponentOf(c, i)) && ComponentOf(c, i) != 0
  {
    hide Bitset.Has, Within;
  }

  /** A landing lies on a water body that the launcher's own border reaches, so there is a launch shore on it. */
  lemma LandingHasLaunch(m: TileMap, c: Components, player: nat, border: Bitset.Blocks, landing: nat)
    requires m.Valid() && m.width > 0 && BorderOnMap(m, border)
    requires LaunchesOn(m, c, player, border, ComponentOf(c, landing))
    ensures LaunchShores(m, player, border, Some((c, ComponentOf(c, landing)))) != {}
  {
    hide Bitset.Has;
    var i: nat :| Bitset.Has(border, i) && IsShore(m, player, i) && ComponentOf(c, i) == ComponentOf(c, landing);
    assert i in LaunchShores(m, player, border, Some((c, ComponentOf(c, landing))));
  }

  lemma LaunchIs(m: TileMap, c: Components, player: nat, border: Bitset.Blocks, comp: nat, i: nat)
    requires m.Valid() && m.width > 0 && i in LaunchShores(m, player, border, Some((c, comp)))
    ensures IsShore(m, player, i) && Bitset.Has(border, i) && ComponentOf(c, i) == comp
  {
    hide Bitset.Has;
  }

  method FindLanding(scratch: FleetScratch, m: TileMap, c: Components, mine: seq<nat>, ghost player: nat,
                     ghost border: Bitset.Blocks, targetOwner: nat, targetTile: nat,
                     targetBorder: Option<Bitset.Blocks>)
      returns (landing: Option<nat>)
    requires scratch.Valid() && m.Valid() && targetTile < m.Size() && m.width > 0 && mine != []
    requires targetBorder.Some? ==> BorderOnMap(m, targetBorder.value)
    requires targetOwner != 0 ==> targetBorder.Some?
    requires forall comp: nat :: comp in mine <==> LaunchesOn(m, c, player, border, comp)
    modifies scratch
    ensures scratch.Valid()
    ensures Nearest(m.width, targetTile,
                    LandingChoices(m, c, player, border, targetOwner, targetTile, targetBorder), landing)
  {
    hide Bitset.Has, Nearest, LaunchesOn, LandingChoices, TargetShores, NeutralShores, Within;
    LandingsAreChoices(m, c, mine, player, border, targetOwner, targetTile, targetBorder);
    if targetOwner != 0 {
      landing := ClosestTargetShoreForPlayer(m, c, mine, targetOwner, targetBorder.value, targetTile);
    } else {
      landing := scratch.ClosestNeutralShoreOnComponents(m, c, mine, targetTile, NEUTRAL_REACH);
    }
  }

  lemma HasWidth(m: TileMap, i: nat)
    requires i < m.Size()
    ensures m.width > 0
  {
  }

  ghost predicate HasWater(m: TileMap, c: Components, player: nat, border: Bitset.Blocks)
    requires m.Valid()
  {
    exists comp: nat :: LaunchesOn(m, c, player, border, comp)
  }

  /**
  `resolve_fleet_route`. The `NoLaunchShore` branch is dead. On success the landing is the target's shore
  nearest to the click among those on the launcher's water bodies, and the source is the launcher's own
  shore nearest to the landing, on the same water body.
  */
  method ResolveFleetRoute(scratch: FleetScratch, m: TileMap, c: Components, findPath: (nat, nat) -> Option<seq<nat>>,
                           player: nat, targetOwner: nat, targetTile: nat, border: Bitset.Blocks,
                           targetBorder: Option<Bitset.Blocks>)
      returns (r: Result<FleetRoute, FleetLaunchError>)
    requires scratch.Valid() && m.Valid() && BorderOnMap(m, border)
    requires targetBorder.Some? ==> BorderOnMap(m, targetBorder.value)
    modifies scratch
    ensures scratch.Valid()
    ensures r.Err? ==> !r.error.NoLaunchShore?
    ensures r == Err(InvalidTile) <==> targetTile >= m.Size()
    ensures r == Err(SelfTarget) <==> targetTile < m.Size() && targetOwner == player
    ensures r.Err? && r.error.NoWaterAccess? <==>
              targetTile < m.Size() && targetOwner != player && !HasWater(m, c, player, border)
    ensures r.Err? && r.error.TargetPlayerNotFound? <==>
              targetTile < m.Size() && targetOwner != player && HasWater(m, c, player, border) &&
              targetOwner != 0 && targetBorder.None?
    ensures targetTile < m.Size() && targetOwner != player && (targetOwner != 0 ==> targetBorder.Some?) ==>
              && m.width > 0
              && var choices := LandingChoices(m, c, player, border, targetOwner, targetTile, targetBorder);
                 && (r == Err(NoLandingShore) <==> HasWater(m, c, player, border) && choices == {})
                 && (r.Ok? ==> Nearest(m.width, targetTile, choices, Some(r.value.landingTile)))
    ensures r.Err? && r.error.TargetPlayerNotFound? ==> r.error.targetOwner == targetOwner
    ensures r == Err(NoWaterPath) ==>
              && m.width > 0
              && exists landing: nat, src: nat ::
                   && Nearest(m.width, targetTile,
                              LandingChoices(m, c, player, border, targetOwner, targetTile, targetBorder),
                              Some(landing))
                   && Nearest(m.width, landing,
                              LaunchShores(m, player, border, Some((c, ComponentOf(c, landing)))), Some(src))
                   && findPath(src, landing) == None
    ensures r.Ok? ==>
              var route := r.value;
              && IsShore(m, player, route.srcTile) && Bitset.Has(border, route.srcTile)
              && IsShore(m, targetOwner, route.landingTile)
              && ComponentOf(c, route.srcTile) == ComponentOf(c, route.landingTile) != 0
              && findPath(route.srcTile, route.landingTile) == Some(route.path)
    ensures r.Ok? ==>
              && m.width > 0
              && Nearest(m.width, r.value.landingTile,
                         LaunchShores(m, player, border, Some((c, ComponentOf(c, r.value.landingTile)))),
                         Some(r.value.srcTile))
  {
    hide Bitset.Has, Nearest, LaunchesOn, LandingChoices, LaunchShores, IsShore, HasWater, BorderOnMap;
    if m.width * m.height == 0 || targetTile >= m.width * m.height {
      return Err(InvalidTile);
    }
    HasWidth(m, targetTile);
    if targetOwner == player {
      return Err(SelfTarget);
    }
    var mine := PlayerWaterComponents(m, c, player, border);
    NoneOrSome(m, c, player, border, mine);
    if mine == [] {
      return Err(NoWaterAccess);
    }
    if targetOwner != 0 && targetBorder.None? {
      return Err(TargetPlayerNotFound(targetOwner));
    }
    ghost var choices := LandingChoices(m, c, player, border, targetOwner, targetTile, targetBorder);
    var landing := FindLanding(scratch, m, c, mine, player, border, targetOwner, targetTile, targetBorder);
    NearestNone(m.width, targetTile, choices, landing);
    if landing.None? {
      return Err(NoLandingShore);
    }
    NearestIn(m.width, targetTile, choices, landing.value);
    ChoiceIs(m, c, player, border, targetOwner, targetTile, targetBorder, landing.value);
    var comp := ComponentOf(c, landing.value);
    LandingHasLaunch(m, c, player, border, landing.value);
    var src := BestShoreSpawnForTransport(m, player, border, landing.value, Some((c, comp)));
    NearestNone(m.width, landing.value, LaunchShores(m, player, border, Some((c, comp))), src);
    if src.None? {
      assert false;  // NoLaunchShore cannot happen
    }
    NearestIn(m.width, landing.value, LaunchShores(m, player, border, Some((c, comp))), src.value);
    LaunchIs(m, c, player, border, comp, src.value);
    var path := findPath(src.value, landing.value);
    if path.None? {
      return Err(NoWaterPath);
    }
    return Ok(FleetRoute(src.value, landing.value, path.value));
  }

  lemma NoneOrSome(m: TileMap, c: Components, player: nat, border: Bitset.Blocks, mine: seq<nat>)
    requires m.Valid()
    requires forall comp: nat :: comp in mine <==> LaunchesOn(m, c, player, border, comp)
    ensures mine == [] <==> !HasWater(m, c, player, border)
  {
    hide LaunchesOn;
    if mine != [] {
      assert mine[0] in mine;
    }
  }

  lemma NearestIn(w: nat, reference: nat, candidates: set<nat>, i: nat)
    requires w > 0 && Nearest(w, reference, candidates, Some(i))
    ensures i in candidates
  {
  }

  lemma NearestNone(w: nat, reference: nat, candidates: set<nat>, r: Option<nat>)
    requires w > 0 && Nearest(w, reference, candidates, r)
    ensures r.None? <==> candidates == {}
  {
    hide X, Y, Manhattan;
  }
}
