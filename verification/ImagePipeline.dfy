/**
The clean-up passes of sow-map/src/image_pipeline.rs over a classified terrain
grid: small islands and lakes are removed, the ocean is marked, shores are
flagged and every water tile gets its distance to land. Magnitudes are integers
here (the source stores them as `f32`).
*/
module ImagePipeline {
  import opened Grid

  const MIN_ISLAND_SIZE: nat := 30
  const MIN_LAKE_SIZE: nat := 16

  /** `neighbors`: west, east, north, south. */
  const SIDES: Deltas := [(-1, 0), (1, 0), (0, -1), (0, 1)]

  lemma SidesHas(w: nat, h: nat, i: nat, j: nat)
    requires w > 0
    ensures j in Around(w, h, i, SIDES) <==> j < w * h && Next4(w, i, j)
  {
    CardinalHas(w, h, i, SIDES, j);
  }

  // ---- Masks ----

  /** The tiles of one kind: land (`true`) or water (`false`). */
  function Kind(land: seq<bool>, want: bool): (r: seq<bool>)
    ensures |r| == |land| && forall i :: 0 <= i < |land| ==> r[i] == (land[i] == want)
  {
    seq(|land|, i requires 0 <= i < |land| => land[i] == want)
  }

  /** Where a flood from `start` may go: tiles of the kind not visited before. */
  function Fresh(col: seq<bool>, visited: seq<bool>, start: nat): (r: seq<bool>)
    requires |visited| == |col|
    ensures |r| == |col| && forall i :: 0 <= i < |col| ==> r[i] == (col[i] && (!visited[i] || i == start))
  {
    seq(|col|, i requires 0 <= i < |col| => col[i] && (!visited[i] || i == start))
  }

  // ---- One flood: the tiles found so far, in order; those before `done` have been expanded ----

  ghost predicate Flooding(w: nat, open: seq<bool>, start: nat, found: seq<nat>, done: nat)
    requires w > 0
  {
    && start < |open| && open[start] && done <= |found| && start in found
    && Distinct(found)
    && (forall i :: i in found ==> i < |open| && open[i] && Conn(w, open, start, i))
    && (forall k, j: nat :: 0 <= k < done && j < |open| && open[j] && Next4(w, found[k], j) ==> j in found)
  }

  lemma FloodStart(w: nat, open: seq<bool>, start: nat)
    requires w > 0 && start < |open| && open[start]
    ensures Flooding(w, open, start, [start], 0)
  {
    ConnSelf(w, open, start);
  }

  lemma FloodFind(w: nat, open: seq<bool>, start: nat, found: seq<nat>, done: nat, j: nat)
    requires w > 0 && Flooding(w, open, start, found, done) && done < |found|
    requires j < |open| && open[j] && Next4(w, found[done], j) && j !in found
    ensures Flooding(w, open, start, found + [j], done)
  {
    hide Next4, Conn;
    assert found[done] in found;
    ConnStep(w, open, start, found[done], j);
  }

  lemma FloodNext(w: nat, open: seq<bool>, start: nat, found: seq<nat>, done: nat)
    requires w > 0 && Flooding(w, open, start, found, done) && done < |found|
    requires forall j: nat :: j < |open| && open[j] && Next4(w, found[done], j) ==> j in found
    ensures Flooding(w, open, start, found, done + 1)
  {
    hide Next4, Conn;
  }

  lemma FloodEnd(w: nat, open: seq<bool>, start: nat, found: seq<nat>)
    requires w > 0 && Flooding(w, open, start, found, |found|)
    ensures Distinct(found) && forall i: nat :: i in found <==> Conn(w, open, start, i)
  {
    hide Next4, Conn;
    var s := set i | i in found;
    assert Closed(w, open, s) by {
      forall i: nat, j: nat | i in s && j < |open| && open[j] && Next4(w, i, j)
        ensures j in s
      {
        var k :| 0 <= k < |found| && found[k] == i;
        assert Next4(w, found[k], j);
      }
    }
    forall i: nat | Conn(w, open, start, i)
      ensures i in found
    {
      ConnClosed(w, open, s, start, i);
    }
  }

  lemma FloodBound(w: nat, open: seq<bool>, start: nat, found: seq<nat>, done: nat)
    requires w > 0 && Flooding(w, open, start, found, done)
    ensures |found| <= |open| && start in found && forall i :: i in found ==> i < |open| && open[i]
  {
    hide Next4, Conn;
    DistinctBound(found, |open|);
  }

  lemma SidesAre(w: nat, h: nat, i: nat, sides: seq<nat>)
    requires w > 0 && sides == Around(w, h, i, SIDES)
    ensures forall k :: 0 <= k < |sides| ==> sides[k] < w * h && Next4(w, i, sides[k])
    ensures forall j: nat :: j < w * h && Next4(w, i, j) ==> j in sides
  {
    hide Around, Next4;
    forall k | 0 <= k < |sides|
      ensures sides[k] < w * h && Next4(w, i, sides[k])
    {
      assert sides[k] in sides;
      SidesHas(w, h, i, sides[k]);
    }
    forall j: nat | j < w * h && Next4(w, i, j)
      ensures j in sides
    {
      SidesHas(w, h, i, j);
    }
  }

  /** Visited now: what was visited before and what was found. */
  ghost predicate Marks(visited: seq<bool>, before: seq<bool>, found: seq<nat>) {
    |visited| == |before| && forall i :: 0 <= i < |before| ==> (visited[i] <==> before[i] || i in found)
  }

  lemma MarkOne(visited: seq<bool>, before: seq<bool>, found: seq<nat>, i: nat)
    requires Marks(visited, before, found) && i < |before|
    ensures Marks(visited[i := true], before, found + [i])
  {
  }

  lemma MarksOpen(col: seq<bool>, visited: seq<bool>, before: seq<bool>, start: nat, found: seq<nat>, i: nat)
    requires |before| == |col| && Marks(visited, before, found) && start in found && i < |col|
    ensures |visited| == |col|
    ensures col[i] && !visited[i] ==> Fresh(col, before, start)[i] && i !in found
    ensures Fresh(col, before, start)[i] ==> col[i] && (visited[i] <==> i in found)
  {
  }

  // ---- A scan that floods every body of one kind once ----

  /** `visited` is a union of whole bodies that covers every tile of the kind below `next`. */
  ghost predicate Scanned(w: nat, col: seq<bool>, visited: seq<bool>, next: nat)
    requires w > 0
  {
    && |visited| == |col|
    && (forall i :: 0 <= i < |col| && visited[i] ==> col[i])
    && (forall i, j :: 0 <= i < |col| && 0 <= j < |col| && visited[i] && col[j] && Next4(w, i, j) ==> visited[j])
    && (forall i :: 0 <= i < |col| && i < next && col[i] ==> visited[i])
  }

  lemma VisitedBody(w: nat, col: seq<bool>, visited: seq<bool>, next: nat, a: nat, b: nat)
    requires w > 0 && Scanned(w, col, visited, next) && Conn(w, col, a, b)
    ensures a < |col| && b < |col| && col[a] && col[b] && visited[a] == visited[b]
  {
    hide Next4, Conn;
    ConnOpen(w, col, a, b);
    ConnSym(w, col, a, b);
    var s := set i: nat | i < |col| && visited[i];
    if visited[a] {
      ConnClosed(w, col, s, a, b);
    }
    if visited[b] {
      ConnClosed(w, col, s, b, a);
    }
  }

  // A flood from an unvisited tile finds exactly its body.
  lemma FreshBody(w: nat, col: seq<bool>, visited: seq<bool>, next: nat, start: nat)
    requires w > 0 && |visited| == |col| && Scanned(w, col, visited, next)
    requires start < |col| && col[start] && !visited[start]
    ensures forall i: nat :: Conn(w, Fresh(col, visited, start), start, i) <==> Conn(w, col, start, i)
  {
    hide Next4, Conn, Scanned;
    var open := Fresh(col, visited, start);
    forall i: nat
      ensures Conn(w, open, start, i) <==> Conn(w, col, start, i)
    {
      if Conn(w, open, start, i) {
        ConnMono(w, open, col, start, i);
      }
      if Conn(w, col, start, i) {
        forall j: nat | Conn(w, col, start, j)
          ensures j < |open| && open[j]
        {
          VisitedBody(w, col, visited, next, start, j);
        }
        ConnWithin(w, col, open, start, i);
      }
    }
  }

  lemma ScanFlood(w: nat, col: seq<bool>, visited: seq<bool>, start: nat, region: seq<nat>, visited': seq<bool>)
    requires w > 0 && Scanned(w, col, visited, start) && start < |col| && col[start] && !visited[start]
    requires Distinct(region) && Marks(visited', visited, region)
    requires forall i: nat :: i in region <==> Conn(w, Fresh(col, visited, start), start, i)
    ensures Scanned(w, col, visited', start + 1)
    ensures Lists(region, Body(w, col, start))
    ensures |region| == |Body(w, col, start)|
    ensures forall i: nat :: i in region ==>
              i < |col| && col[i] && !visited[i] && Body(w, col, i) == Body(w, col, start)
    ensures start in region
  {
    hide Next4, Conn;
    FreshBody(w, col, visited, start, start);
    ConnSelf(w, col, start);
    forall i: nat | i in region
      ensures i < |col| && col[i] && !visited[i] && Body(w, col, i) == Body(w, col, start)
    {
      VisitedBody(w, col, visited, start, start, i);
      BodyShared(w, col, start, i);
    }
    DistinctSize(region, Body(w, col, start));
    forall i, j: nat | i in region && j < |col| && col[j] && Next4(w, i, j)
      ensures j in region
    {
      ConnStep(w, col, start, i, j);
    }
  }

  // ---- Removing the small bodies of one kind ----

  ghost predicate Small(w: nat, col: seq<bool>, min: nat, i: nat)
    requires w > 0
  {
    i < |col| && col[i] && |Body(w, col, i)| < min
  }

  /** Of the bodies visited so far, exactly the small ones have been turned into the other kind. */
  ghost predicate Cleaned(w: nat, land: seq<bool>, mag: seq<nat>, want: bool, min: nat, visited: seq<bool>,
                          land': seq<bool>, mag': seq<nat>)
    requires w > 0 && |land| == |mag| == |visited|
  {
    && |land'| == |mag'| == |land|
    && forall i :: 0 <= i < |land| ==>
         var gone := visited[i] && Small(w, Kind(land, want), min, i);
         land'[i] == (if gone then !want else land[i]) && mag'[i] == (if gone then 0 else mag[i])
  }

  // The mask a flood sees in the edited array is the one it would see in the original.
  lemma SameFresh(w: nat, land: seq<bool>, mag: seq<nat>, want: bool, min: nat, visited: seq<bool>,
                  land': seq<bool>, mag': seq<nat>, start: nat)
    requires w > 0 && |land| == |mag| == |visited| && start < |land| && !visited[start]
    requires Cleaned(w, land, mag, want, min, visited, land', mag')
    ensures Fresh(Kind(land', want), visited, start) == Fresh(Kind(land, want), visited, start)
    ensures land'[start] == land[start]
  {
    hide Small;
  }

  lemma CleanBody(w: nat, land: seq<bool>, mag: seq<nat>, want: bool, min: nat, visited: seq<bool>,
                  land': seq<bool>, mag': seq<nat>, start: nat, region: seq<nat>, visited': seq<bool>,
                  land'': seq<bool>, mag'': seq<nat>)
    requires w > 0 && |land| == |mag| == |visited| == |visited'|
    requires Cleaned(w, land, mag, want, min, visited, land', mag') && Marks(visited', visited, region)
    requires forall i: nat :: i in region ==>
               i < |land| && !visited[i] && land[i] == want && |Body(w, Kind(land, want), i)| == |region|
    requires |land''| == |mag''| == |land|
    requires forall i :: 0 <= i < |land| ==>
               land''[i] == (if i in region && |region| < min then !want else land'[i]) &&
               mag''[i] == (if i in region && |region| < min then 0 else mag'[i])
    ensures Cleaned(w, land, mag, want, min, visited', land'', mag'')
  {
    hide Body;
  }

  lemma KindOfLand(land: seq<bool>)
    ensures Kind(land, true) == land
  {
  }

  lemma ScanStart(w: nat, land: seq<bool>, mag: seq<nat>, want: bool, min: nat, visited: seq<bool>)
    requires w > 0 && |land| == |mag| == |visited| && forall i :: 0 <= i < |visited| ==> !visited[i]
    ensures Scanned(w, Kind(land, want), visited, 0)
    ensures Cleaned(w, land, mag, want, min, visited, land, mag)
  {
    hide Small, Next4;
  }

  lemma ScanSkip(w: nat, land: seq<bool>, mag: seq<nat>, want: bool, min: nat, visited: seq<bool>,
                 land': seq<bool>, mag': seq<nat>, start: nat)
    requires w > 0 && |land| == |mag| == |visited| && start < |land|
    requires Scanned(w, Kind(land, want), visited, start)
    requires Cleaned(w, land, mag, want, min, visited, land', mag')
    requires visited[start] || land'[start] != want
    ensures Scanned(w, Kind(land, want), visited, start + 1)
  {
    hide Small, Next4;
  }

  lemma ScanEnd(w: nat, land: seq<bool>, mag: seq<nat>, want: bool, min: nat, visited: seq<bool>,
                land': seq<bool>, mag': seq<nat>)
    requires w > 0 && |land| == |mag| == |visited|
    requires Scanned(w, Kind(land, want), visited, |land|)
    requires Cleaned(w, land, mag, want, min, visited, land', mag')
    ensures |land'| == |mag'| == |land|
    ensures forall i :: 0 <= i < |land| ==>
              var gone := Small(w, Kind(land, want), min, i);
              land'[i] == (if gone then !want else land[i]) && mag'[i] == (if gone then 0 else mag[i])
  {
    hide Next4, Body;
  }

  /** What is left of the kind keeps its bodies, and they are all large enough. */
  lemma KeptBodies(w: nat, col: seq<bool>, col': seq<bool>, min: nat, i: nat)
    requires w > 0 && |col| == |col'|
    requires forall j :: 0 <= j < |col| ==> (col'[j] <==> col[j] && !Small(w, col, min, j))
    requires i < |col| && col'[i]
    ensures Body(w, col', i) == Body(w, col, i) && |Body(w, col', i)| >= min
  {
    hide Next4, Conn;
    forall j: nat
      ensures Conn(w, col', i, j) <==> Conn(w, col, i, j)
    {
      if Conn(w, col', i, j) {
        ConnMono(w, col', col, i, j);
      }
      if Conn(w, col, i, j) {
        forall k: nat | Conn(w, col, i, k)
          ensures k < |col'| && col'[k]
        {
          BodyShared(w, col, i, k);
          ConnOpen(w, col, i, k);
        }
        ConnWithin(w, col, col', i, j);
      }
    }
  }

  // ---- The ocean ----

  /** Among the seen tiles `f` is the first one whose body is of greatest size. */
  ghost predicate IsSeed(w: nat, col: seq<bool>, seen: seq<bool>, f: nat)
    requires w > 0 && |seen| == |col|
  {
    && f < |col| && seen[f]
    && forall j :: 0 <= j < |col| && seen[j] ==>
         |Body(w, col, j)| < |Body(w, col, f)| || (|Body(w, col, j)| == |Body(w, col, f)| && f <= j)
  }

  ghost predicate InGreatest(w: nat, col: seq<bool>, i: nat)
    requires w > 0
  {
    exists f: nat :: IsSeed(w, col, col, f) && i in Body(w, col, f)
  }

  ghost predicate IsBody(w: nat, col: seq<bool>, f: nat, region: seq<nat>)
    requires w > 0
  {
    |region| == |Body(w, col, f)| && Lists(region, Body(w, col, f))
  }

  ghost predicate Greatest(w: nat, col: seq<bool>, seen: seq<bool>, next: nat, largest: seq<nat>)
    requires w > 0 && |seen| == |col|
  {
    if largest == [] then forall j :: 0 <= j < |col| ==> !seen[j]
    else exists f: nat :: f < next && IsSeed(w, col, seen, f) && IsBody(w, col, f, largest)
  }

  ghost predicate Lists(s: seq<nat>, t: set<nat>) {
    forall i: nat :: i in s <==> i in t
  }

  lemma SeedUnique(w: nat, col: seq<bool>, f: nat, g: nat)
    requires w > 0 && IsSeed(w, col, col, f) && IsSeed(w, col, col, g)
    ensures f == g
  {
    hide Body;
  }

  lemma GreatestStep(w: nat, col: seq<bool>, seen: seq<bool>, start: nat, largest: seq<nat>,
                     region: seq<nat>, seen': seq<bool>)
    requires w > 0 && Scanned(w, col, seen, start) && start < |col| && Marks(seen', seen, region)
    requires Greatest(w, col, seen, start, largest)
    requires start in region && |region| == |Body(w, col, start)| && Lists(region, Body(w, col, start))
    requires forall i: nat :: i in region ==> i < |col| && col[i] && !seen[i] && Body(w, col, i) == Body(w, col, start)
    ensures |seen'| == |col|
    ensures Greatest(w, col, seen', start + 1, if |region| > |largest| then region else largest)
  {
    hide Body, Next4, Lists;
    if |region| > |largest| {
      assert IsSeed(w, col, seen', start);
    } else {
      var f: nat :| f < start && IsSeed(w, col, seen, f) && IsBody(w, col, f, largest);
      assert IsSeed(w, col, seen', f);
    }
  }

  lemma GreatestSkip(w: nat, col: seq<bool>, seen: seq<bool>, start: nat, largest: seq<nat>)
    requires w > 0 && Scanned(w, col, seen, start) && start < |col| && (seen[start] || !col[start])
    requires Greatest(w, col, seen, start, largest)
    ensures Scanned(w, col, seen, start + 1) && Greatest(w, col, seen, start + 1, largest)
  {
    hide Body, Next4, IsSeed;
  }

  lemma GreatestStart(w: nat, col: seq<bool>, seen: seq<bool>)
    requires w > 0 && |seen| == |col| && forall i :: 0 <= i < |seen| ==> !seen[i]
    ensures Greatest(w, col, seen, 0, [])
  {
  }

  lemma GreatestEnd(w: nat, col: seq<bool>, seen: seq<bool>, largest: seq<nat>)
    requires w > 0 && Scanned(w, col, seen, |col|) && Greatest(w, col, seen, |col|, largest)
    ensures forall i: nat :: i in largest <==> InGreatest(w, col, i)
    ensures forall i :: i in largest ==> i < |col|
    ensures largest == [] <==> forall i :: 0 <= i < |col| ==> !col[i]
  {
    hide Body, Next4, IsSeed, Lists;
    assert seen == col;
    if largest != [] {
      var f: nat :| f < |col| && IsSeed(w, col, seen, f) && IsBody(w, col, f, largest);
      GreatestIs(w, col, f, largest);
      SeedSeen(w, col, seen, f);
    } else {
      NoSeed(w, col);
    }
  }

  lemma SeedSeen(w: nat, col: seq<bool>, seen: seq<bool>, f: nat)
    requires w > 0 && |seen| == |col| && IsSeed(w, col, seen, f)
    ensures f < |col| && seen[f]
  {
    hide Body;
  }

  lemma NoSeed(w: nat, col: seq<bool>)
    requires w > 0 && forall j :: 0 <= j < |col| ==> !col[j]
    ensures forall i: nat :: !InGreatest(w, col, i)
  {
    hide Body;
  }

  lemma GreatestIs(w: nat, col: seq<bool>, f: nat, largest: seq<nat>)
    requires w > 0 && IsSeed(w, col, col, f) && Lists(largest, Body(w, col, f))
    ensures forall i: nat :: i in largest <==> InGreatest(w, col, i)
    ensures forall i :: i in largest ==> i < |col|
  {
    hide Conn, IsSeed;
    forall i: nat
      ensures i in largest <==> InGreatest(w, col, i)
    {
      if InGreatest(w, col, i) {
        var g: nat :| IsSeed(w, col, col, g) && i in Body(w, col, g);
        SeedUnique(w, col, f, g);
      }
    }
  }

  // ---- Distance to land ----

  /** `d` is the Manhattan distance from `i` to the nearest land tile. */
  ghost predicate IsLandDist(w: nat, land: seq<bool>, i: nat, d: nat)
    requires w > 0
  {
    && (exists j: nat :: j < |land| && land[j] && Manhattan(w, i, j) == d)
    && (forall j: nat :: j < |land| && land[j] ==> d <= Manhattan(w, i, j))
  }

  lemma {:induction false} LandDistExists(w: nat, land: seq<bool>, i: nat, j: nat)
    requires w > 0 && j < |land| && land[j]
    ensures exists d: nat :: IsLandDist(w, land, i, d)
    decreases Manhattan(w, i, j)
  {
    hide Manhattan;
    if k: nat :| k < |land| && land[k] && Manhattan(w, i, k) < Manhattan(w, i, j) {
      LandDistExists(w, land, i, k);
    } else {
      assert IsLandDist(w, land, i, Manhattan(w, i, j));
    }
  }

  ghost predicate HasLand(land: seq<bool>) {
    exists j: nat :: j < |land| && land[j]
  }

  ghost function LandDist(w: nat, land: seq<bool>, i: nat): (d: nat)
    requires w > 0 && HasLand(land)
    ensures IsLandDist(w, land, i, d)
  {
    var j: nat :| j < |land| && land[j];
    LandDistExists(w, land, i, j);
    var d: nat :| IsLandDist(w, land, i, d);
    d
  }

  lemma Triangle(w: nat, i: nat, j: nat, l: nat)
    requires w > 0 && Next4(w, i, j)
    ensures Manhattan(w, j, l) <= Manhattan(w, i, l) + 1
  {
    hide X, Y;
  }

  // Neighbouring tiles differ by at most one in their distance to land.
  lemma Lipschitz(w: nat, land: seq<bool>, i: nat, j: nat)
    requires w > 0 && HasLand(land) && Next4(w, i, j)
    ensures LandDist(w, land, j) <= LandDist(w, land, i) + 1
  {
    hide Manhattan, Next4, LandDist;
    var l: nat :| l < |land| && land[l] && Manhattan(w, i, l) == LandDist(w, land, i);
    Triangle(w, i, j, l);
    assert IsLandDist(w, land, j, LandDist(w, land, j));
  }

  lemma OnLand(w: nat, h: nat, land: seq<bool>, i: nat)
    requires w > 0 && |land| == w * h && HasLand(land) && i < |land|
    ensures land[i] <==> LandDist(w, land, i) == 0
  {
    hide X, Y, LandDist;
    assert IsLandDist(w, land, i, LandDist(w, land, i));
    if LandDist(w, land, i) == 0 {
      var j: nat :| j < |land| && land[j] && Manhattan(w, i, j) == 0;
      SameCoords(w, h, i, j);
    }
  }

  // A water tile farther than one step from land has a water neighbour one step closer; a tile one
  // step away has a land neighbour.
  lemma Closer(w: nat, h: nat, land: seq<bool>, i: nat) returns (j: nat)
    requires w > 0 && |land| == w * h && HasLand(land) && i < |land| && !land[i]
    ensures j < |land| && Next4(w, i, j) && LandDist(w, land, j) == LandDist(w, land, i) - 1
  {
    hide X, Y, Manhattan, Next4, LandDist;
    OnLand(w, h, land, i);
    var d := LandDist(w, land, i);
    assert IsLandDist(w, land, i, d);
    var l: nat :| l < |land| && land[l] && Manhattan(w, i, l) == d;
    j := Toward(w, h, i, l);
    assert IsLandDist(w, land, j, LandDist(w, land, j));
    Next4Sym(w, i, j);
    Lipschitz(w, land, j, i);
  }

  /** A shore tile touches a tile of the other kind. */
  ghost predicate Shore(w: nat, land: seq<bool>, i: nat)
    requires w > 0
  {
    i < |land| && exists j: nat :: j < |land| && Next4(w, i, j) && land[j] != land[i]
  }

  lemma ShoreIsDistOne(w: nat, h: nat, land: seq<bool>, i: nat)
    requires w > 0 && |land| == w * h && HasLand(land) && i < |land| && !land[i]
    ensures Shore(w, land, i) <==> LandDist(w, land, i) == 1
  {
    hide Next4, LandDist;
    if LandDist(w, land, i) == 1 {
      var j := Closer(w, h, land, i);
      OnLand(w, h, land, j);
    }
    if Shore(w, land, i) {
      var j: nat :| j < |land| && Next4(w, i, j) && land[j] != land[i];
      OnLand(w, h, land, j);
      OnLand(w, h, land, i);
      Next4Sym(w, i, j);
      Lipschitz(w, land, j, i);
    }
  }

  // ---- The breadth-first distance pass ----

  type Wave = seq<(nat, nat)>

  /** Visited tiles carry the right value; the queue is sorted and spans at most two distances. */
  ghost predicate Values(w: nat, land: seq<bool>, visited: seq<bool>, mag: seq<nat>, queue: Wave)
    requires w > 0 && HasLand(land)
  {
    && |visited| == |mag| == |land|
    && (forall i :: 0 <= i < |land| && visited[i] ==> !land[i] && mag[i] + 1 == LandDist(w, land, i))
    && (forall k :: 0 <= k < |queue| ==>
          queue[k].0 < |land| && visited[queue[k].0] && queue[k].1 + 1 == LandDist(w, land, queue[k].0))
    && (forall k, l :: 0 <= k < l < |queue| ==> queue[k].1 <= queue[l].1 <= queue[k].1 + 1)
  }

  ghost predicate Queued(queue: Wave, i: nat) {
    exists k :: 0 <= k < |queue| && queue[k].0 == i
  }

  /** The shore is visited, and so are the water neighbours of every visited tile that left the queue. */
  ghost predicate Spreads(w: nat, land: seq<bool>, visited: seq<bool>, queue: Wave)
    requires w > 0 && HasLand(land) && |visited| == |land|
  {
    && (forall i :: 0 <= i < |land| && !land[i] && LandDist(w, land, i) == 1 ==> visited[i])
    && (forall i, j :: (&& 0 <= i < |land| && 0 <= j < |land| && visited[i]
                        && !Queued(queue, i) && !land[j] && Next4(w, i, j)) ==> visited[j])
  }

  // Everything at most as far as the front of the queue has been visited.
  lemma {:induction false} BehindFront(w: nat, h: nat, land: seq<bool>, visited: seq<bool>, mag: seq<nat>, queue: Wave,
                                       d: nat, i: nat)
    requires w > 0 && |land| == w * h && HasLand(land) && |visited| == |land|
    requires Values(w, land, visited, mag, queue) && Spreads(w, land, visited, queue)
    requires forall k :: 0 <= k < |queue| ==> d <= queue[k].1
    requires i < |land| && !land[i] && LandDist(w, land, i) <= d + 1
    ensures visited[i]
    decreases LandDist(w, land, i)
  {
    hide LandDist, Next4, IsLandDist;
    OnLand(w, h, land, i);
    if LandDist(w, land, i) > 1 {
      var j := Closer(w, h, land, i);
      OnLand(w, h, land, j);
      BehindFront(w, h, land, visited, mag, queue, d, j);
      Next4Sym(w, i, j);
      assert !Queued(queue, j);
    }
  }

  // An unvisited water neighbour of the front is exactly one step farther.
  lemma FrontNeighbour(w: nat, h: nat, land: seq<bool>, visited: seq<bool>, mag: seq<nat>, queue: Wave, i: nat)
    requires w > 0 && |land| == w * h && HasLand(land) && |visited| == |land|
    requires Values(w, land, visited, mag, queue) && Spreads(w, land, visited, queue) && queue != []
    requires i < |land| && !land[i] && !visited[i] && Next4(w, queue[0].0, i)
    ensures LandDist(w, land, i) == queue[0].1 + 2
  {
    hide LandDist, Next4, IsLandDist, Spreads;
    Lipschitz(w, land, queue[0].0, i);
    if LandDist(w, land, i) <= queue[0].1 + 1 {
      BehindFront(w, h, land, visited, mag, queue, queue[0].1, i);
    }
  }

  lemma QueuedMore(queue: Wave, i: nat, d: nat)
    ensures forall j: nat :: Queued(queue + [(i, d)], j) <==> Queued(queue, j) || j == i
  {
    var more := queue + [(i, d)];
    assert forall k :: 0 <= k < |queue| ==> more[k] == queue[k];
    assert more[|queue|].0 == i;
  }

  lemma VisitSpreads(w: nat, land: seq<bool>, visited: seq<bool>, queue: Wave, i: nat, d: nat)
    requires w > 0 && HasLand(land) && |visited| == |land| && Spreads(w, land, visited, queue) && i < |land|
    ensures Spreads(w, land, visited[i := true], queue + [(i, d)])
  {
    hide LandDist, Next4, Queued;
    QueuedMore(queue, i, d);
  }

  lemma VisitNext(w: nat, h: nat, land: seq<bool>, visited: seq<bool>, mag: seq<nat>, queue: Wave, i: nat)
    requires w > 0 && |land| == w * h && HasLand(land) && |visited| == |land|
    requires Values(w, land, visited, mag, queue) && Spreads(w, land, visited, queue) && queue != []
    requires i < |land| && !land[i] && !visited[i] && Next4(w, queue[0].0, i)
    ensures Values(w, land, visited[i := true], mag[i := queue[0].1 + 1], queue + [(i, queue[0].1 + 1)])
    ensures Spreads(w, land, visited[i := true], queue + [(i, queue[0].1 + 1)])
  {
    hide LandDist, Next4, IsLandDist, Spreads;
    FrontNeighbour(w, h, land, visited, mag, queue, i);
    VisitSpreads(w, land, visited, queue, i, queue[0].1 + 1);
  }

  lemma LeaveFront(w: nat, land: seq<bool>, visited: seq<bool>, mag: seq<nat>, queue: Wave)
    requires w > 0 && HasLand(land) && |visited| == |land|
    requires Values(w, land, visited, mag, queue) && Spreads(w, land, visited, queue) && queue != []
    requires forall j :: 0 <= j < |land| && !land[j] && Next4(w, queue[0].0, j) ==> visited[j]
    ensures Values(w, land, visited, mag, queue[1..]) && Spreads(w, land, visited, queue[1..])
  {
    hide LandDist, Next4, IsLandDist;
    forall j | Queued(queue, j) && j != queue[0].0
      ensures Queued(queue[1..], j)
    {
      var k :| 0 <= k < |queue| && queue[k].0 == j;
      assert queue[1..][k - 1].0 == j;
    }
  }

  lemma FrontInside(w: nat, land: seq<bool>, visited: seq<bool>, mag: seq<nat>, queue: Wave)
    requires w > 0 && HasLand(land) && Values(w, land, visited, mag, queue) && queue != []
    ensures queue[0].0 < |land|
  {
  }

  lemma ShoreHasLand(w: nat, land: seq<bool>, i: nat)
    requires w > 0 && i < |land| && !land[i] && Shore(w, land, i)
    ensures HasLand(land)
  {
  }

  lemma SeedsOk(w: nat, h: nat, land: seq<bool>, shore: seq<nat>, visited: seq<bool>, mag: seq<nat>, queue: Wave)
    requires w > 0 && |land| == w * h && |visited| == |mag| == |land| && |queue| == |shore|
    requires forall i: nat :: i in shore <==> i < |land| && !land[i] && Shore(w, land, i)
    requires forall j :: 0 <= j < |shore| ==> queue[j] == (shore[j], 0)
    requires forall i :: 0 <= i < |land| ==> (visited[i] <==> i in shore) && (i in shore ==> mag[i] == 0)
    ensures HasLand(land) ==> Values(w, land, visited, mag, queue) && Spreads(w, land, visited, queue)
    ensures !HasLand(land) ==> queue == []
  {
    hide LandDist, Next4;
    assert forall k :: 0 <= k < |shore| ==> shore[k] in shore;
    if shore != [] {
      ShoreHasLand(w, land, shore[0]);
    }
    if HasLand(land) {
      forall i: nat | i < |land| && !land[i]
        ensures Shore(w, land, i) <==> LandDist(w, land, i) == 1
      {
        ShoreIsDistOne(w, h, land, i);
      }
      forall i: nat | i in shore
        ensures Queued(queue, i)
      {
        var k :| 0 <= k < |shore| && shore[k] == i;
        assert queue[k].0 == i;
      }
    }
  }

  lemma AllVisited(w: nat, h: nat, land: seq<bool>, visited: seq<bool>, mag: seq<nat>)
    requires w > 0 && |land| == w * h && HasLand(land) && |visited| == |land|
    requires Values(w, land, visited, mag, []) && Spreads(w, land, visited, [])
    ensures forall i :: 0 <= i < |land| && !land[i] ==> mag[i] + 1 == LandDist(w, land, i)
  {
    hide LandDist, Spreads;
    forall i | 0 <= i < |land| && !land[i]
      ensures visited[i]
    {
      BehindFront(w, h, land, visited, mag, [], LandDist(w, land, i), i);
    }
  }

  ghost function Unseen(visited: seq<bool>): set<nat> {
    set i | 0 <= i < |visited| && !visited[i]
  }

  lemma UnseenOne(visited: seq<bool>, i: nat)
    requires i < |visited| && !visited[i]
    ensures |Unseen(visited[i := true])| == |Unseen(visited)| - 1
  {
    assert Unseen(visited[i := true]) == Unseen(visited) - {i};
  }

  class Terrain {
    const width: nat
    const height: nat
    var isLand: seq<bool>
    var isOcean: seq<bool>
    var isShore: seq<bool>
    var magnitude: seq<nat>

    ghost predicate Valid()
      reads this
    {
      |isLand| == |isOcean| == |isShore| == |magnitude| == width * height
    }

    /**
    `flood_region`: the tiles of the wanted kind reached from `start` through unvisited ones, each once,
    all of them marked visited.
    */
    method FloodRegion(start: nat, wantLand: bool, visited: seq<bool>)
        returns (region: seq<nat>, visited': seq<bool>)
      requires Valid() && start < |isLand| && |visited| == |isLand| && width > 0
      ensures isLand[start] != wantLand ==> region == [] && visited' == visited[start := true]
      ensures isLand[start] == wantLand ==>
                && Distinct(region) && Marks(visited', visited, region)
                && (forall i: nat :: i in region <==>
                      Conn(width, Fresh(Kind(isLand, wantLand), visited, start), start, i))
    {
      if isLand[start] != wantLand {
        return [], visited[start := true];  // the only queued tile is skipped
      }
      region, visited' := Spread(start, wantLand, visited);
    }

    // The breadth-first loop of `flood_region`, from a tile of the wanted kind.
    method Spread(start: nat, wantLand: bool, visited: seq<bool>)
        returns (region: seq<nat>, visited': seq<bool>)
      requires Valid() && start < |isLand| && |visited| == |isLand| && width > 0 && isLand[start] == wantLand
      ensures Distinct(region) && Marks(visited', visited, region)
      ensures forall i: nat :: i in region <==> Conn(width, Fresh(Kind(isLand, wantLand), visited, start), start, i)
    {
      hide X, Y, At, Around, Next4, Conn, Flooding, Marks;
      ghost var open := Fresh(Kind(isLand, wantLand), visited, start);
      region := [];
      var queue := [start];
      visited' := visited[start := true];
      FloodStart(width, open, start);
      MarkOne(visited, visited, [], start);
      assert [] + [start] == [start];
      while queue != []
        invariant Flooding(width, open, start, region + queue, |region|)
        invariant Marks(visited', visited, region + queue)
        decreases |isLand| - |region|
      {
        var cur := queue[0];
        ghost var found := region + queue;
        FloodBound(width, open, start, found, |region|);
        assert found[|region|] == cur && cur in found;
        region, queue := region + [cur], queue[1..];
        assert region + queue == found;
        visited', queue := Expand(cur, wantLand, visited', queue, start, region, visited);
      }
      assert region + [] == region;
      FloodEnd(width, open, start, region);
    }

    // Queue the unvisited neighbours of the tile that was just moved to the region.
    method Expand(cur: nat, wantLand: bool, visited: seq<bool>, queue: seq<nat>,
                  ghost start: nat, ghost region: seq<nat>, ghost before: seq<bool>)
        returns (visited': seq<bool>, queue': seq<nat>)
      requires Valid() && width > 0 && |before| == |isLand| && cur < |isLand|
      requires region != [] && region[|region| - 1] == cur
      requires Flooding(width, Fresh(Kind(isLand, wantLand), before, start), start, region + queue, |region| - 1)
      requires Marks(visited, before, region + queue)
      ensures Flooding(width, Fresh(Kind(isLand, wantLand), before, start), start, region + queue', |region|)
      ensures Marks(visited', before, region + queue')
    {
      hide X, Y, At, Around, Next4, Conn, Flooding, Marks, Distinct;
      ghost var open := Fresh(Kind(isLand, wantLand), before, start);
      visited', queue' := visited, queue;
      var sides := Around(width, height, cur, SIDES);
      SidesAre(width, height, cur, sides);
      for k := 0 to |sides|
        invariant Flooding(width, open, start, region + queue', |region| - 1)
        invariant Marks(visited', before, region + queue')
        invariant forall j :: 0 <= j < k && open[sides[j]] ==> sides[j] in region + queue'
      {
        var ni := sides[k];
        FloodBound(width, open, start, region + queue', |region| - 1);
        MarksOpen(Kind(isLand, wantLand), visited', before, start, region + queue', ni);
        if !visited'[ni] && isLand[ni] == wantLand {
          assert (region + queue')[|region| - 1] == cur;
          FloodFind(width, open, start, region + queue', |region| - 1, ni);
          MarkOne(visited', before, region + queue', ni);
          visited' := visited'[ni := true];
          assert region + queue' + [ni] == region + (queue' + [ni]);
          queue' := queue' + [ni];
        }
      }
      assert (region + queue')[|region| - 1] == cur;
      forall j: nat | j < |open| && open[j] && Next4(width, cur, j)
        ensures j in region + queue'
      {
        assert j in sides;
      }
      FloodNext(width, open, start, region + queue', |region| - 1);
    }

    // The inner loops of the two clean-up passes.
    method Turn(region: seq<nat>, toLand: bool)
      requires Valid() && forall i :: i in region ==> i < |isLand|
      modifies this`isLand, this`magnitude
      ensures Valid()
      ensures forall i :: 0 <= i < |isLand| ==>
                isLand[i] == (if i in region then toLand else old(isLand)[i]) &&
                magnitude[i] == (if i in region then 0 else old(magnitude)[i])
    {
      for k := 0 to |region|
        invariant Valid()
        invariant forall i :: 0 <= i < |isLand| ==>
                    isLand[i] == (if i in region[..k] then toLand else old(isLand)[i]) &&
                    magnitude[i] == (if i in region[..k] then 0 else old(magnitude)[i])
      {
        assert region[k] in region;
        isLand := isLand[region[k] := toLand];
        magnitude := magnitude[region[k] := 0];
        assert region[..k + 1] == region[..k] + [region[k]];
      }
      assert region[..|region|] == region;
    }

    /** Exactly the land of bodies of at least `MIN_ISLAND_SIZE` tiles stays. */
    method RemoveSmallIslands()
      requires Valid()
      modifies this`isLand, this`magnitude
      ensures Valid()
      ensures forall i :: 0 <= i < |isLand| ==>
                var sunk := width > 0 && Small(width, old(isLand), MIN_ISLAND_SIZE, i);
                && (isLand[i] <==> old(isLand)[i] && !sunk)
                && magnitude[i] == (if sunk then 0 else old(magnitude)[i])
      ensures width > 0 ==> forall i :: 0 <= i < |isLand| && isLand[i] ==>
                Body(width, isLand, i) == Body(width, old(isLand), i) && |Body(width, isLand, i)| >= MIN_ISLAND_SIZE
    {
      hide X, Y, At, Conn, Body, Next4, Scanned, Small, Cleaned, Marks, Distinct, Fresh;
      ghost var land, mag := isLand, magnitude;
      KindOfLand(land);
      var visited := seq(|isLand|, i => false);
      if width == 0 {
        return;
      }
      ScanStart(width, land, mag, true, MIN_ISLAND_SIZE, visited);
      for start := 0 to |isLand|
        invariant Valid() && |visited| == |land|
        invariant Scanned(width, land, visited, start)
        invariant Cleaned(width, land, mag, true, MIN_ISLAND_SIZE, visited, isLand, magnitude)
      {
        if visited[start] || !isLand[start] {
          ScanSkip(width, land, mag, true, MIN_ISLAND_SIZE, visited, isLand, magnitude, start);
          continue;
        }
        SameFresh(width, land, mag, true, MIN_ISLAND_SIZE, visited, isLand, magnitude, start);
        ghost var before := visited;
        label flood:
        var region;
        region, visited := FloodRegion(start, true, visited);
        ScanFlood(width, land, before, start, region, visited);
        if |region| < MIN_ISLAND_SIZE {
          Turn(region, false);
        }
        CleanBody(width, land, mag, true, MIN_ISLAND_SIZE, before, old@flood(isLand), old@flood(magnitude),
                  start, region, visited, isLand, magnitude);
      }
      ScanEnd(width, land, mag, true, MIN_ISLAND_SIZE, visited, isLand, magnitude);
      forall i | 0 <= i < |isLand| && isLand[i]
        ensures Body(width, isLand, i) == Body(width, land, i) && |Body(width, isLand, i)| >= MIN_ISLAND_SIZE
      {
        KeptBodies(width, land, isLand, MIN_ISLAND_SIZE, i);
      }
    }

    /** Exactly the water of bodies of at least `MIN_LAKE_SIZE` tiles stays; the rest becomes flat land. */
    method RemoveSmallLakes()
      requires Valid()
      modifies this`isLand, this`magnitude
      ensures Valid()
      ensures forall i :: 0 <= i < |isLand| ==>
                var filled := width > 0 && Small(width, Kind(old(isLand), false), MIN_LAKE_SIZE, i);
                && (isLand[i] <==> old(isLand)[i] || filled)
                && magnitude[i] == (if filled then 0 else old(magnitude)[i])
      ensures width > 0 ==> forall i :: 0 <= i < |isLand| && !isLand[i] ==>
                |Body(width, Kind(isLand, false), i)| >= MIN_LAKE_SIZE
    {
      hide X, Y, At, Conn, Body, Next4, Scanned, Small, Cleaned, Marks, Distinct, Fresh;
      ghost var land, mag := isLand, magnitude;
      var visited := seq(|isLand|, i => false);
      if width == 0 {
        return;
      }
      ScanStart(width, land, mag, false, MIN_LAKE_SIZE, visited);
      for start := 0 to |isLand|
        invariant Valid() && |visited| == |land|
        invariant Scanned(width, Kind(land, false), visited, start)
        invariant Cleaned(width, land, mag, false, MIN_LAKE_SIZE, visited, isLand, magnitude)
      {
        if visited[start] || isLand[start] {
          ScanSkip(width, land, mag, false, MIN_LAKE_SIZE, visited, isLand, magnitude, start);
          continue;
        }
        SameFresh(width, land, mag, false, MIN_LAKE_SIZE, visited, isLand, magnitude, start);
        ghost var before := visited;
        label flood:
        var region;
        region, visited := FloodRegion(start, false, visited);
        ScanFlood(width, Kind(land, false), before, start, region, visited);
        if |region| >= MIN_LAKE_SIZE {
          CleanBody(width, land, mag, false, MIN_LAKE_SIZE, before, isLand, magnitude,
                    start, region, visited, isLand, magnitude);
          continue;
        }
        Turn(region, true);
        CleanBody(width, land, mag, false, MIN_LAKE_SIZE, before, old@flood(isLand), old@flood(magnitude),
                  start, region, visited, isLand, magnitude);
      }
      ScanEnd(width, land, mag, false, MIN_LAKE_SIZE, visited, isLand, magnitude);
      forall i | 0 <= i < |isLand| && !isLand[i]
        ensures |Body(width, Kind(isLand, false), i)| >= MIN_LAKE_SIZE
      {
        KeptBodies(width, Kind(land, false), Kind(isLand, false), MIN_LAKE_SIZE, i);
      }
    }

    /**
    The ocean is one whole water body, the one holding the first tile, in scan order, of a body of
    greatest size. There is one whenever there is water; without water nothing is marked.
    */
    method MarkOcean()
      requires Valid()
      modifies this`isOcean
      ensures Valid()
      ensures forall i :: 0 <= i < |isOcean| ==>
                (isOcean[i] <==> old(isOcean)[i] ||
                                 (width > 0 && InGreatest(width, Kind(isLand, false), i)))
      ensures width > 0 && (exists i :: 0 <= i < |isLand| && !isLand[i]) ==>
                exists i: nat :: i < |isOcean| && isOcean[i] && InGreatest(width, Kind(isLand, false), i)
    {
      hide X, Y, At, Conn, Body, Next4, Scanned, Marks, Distinct, Fresh, InGreatest, Greatest;
      var visited := seq(|isLand|, i => false);
      if width == 0 {
        return;
      }
      ghost var col := Kind(isLand, false);
      ScanStart(width, isLand, magnitude, false, 0, visited);
      var largest: seq<nat> := [];
      GreatestStart(width, col, visited);
      for start := 0 to |isLand|
        invariant Valid() && |visited| == |col| == |isLand| && isOcean == old(isOcean)
        invariant Scanned(width, col, visited, start)
        invariant Greatest(width, col, visited, start, largest)
      {
        if visited[start] || isLand[start] {
          GreatestSkip(width, col, visited, start, largest);
          continue;
        }
        ghost var before := visited;
        var region;
        region, visited := FloodRegion(start, false, visited);
        ScanFlood(width, col, before, start, region, visited);
        GreatestStep(width, col, before, start, largest, region, visited);
        if |region| > |largest| {
          largest := region;
        }
      }
      GreatestEnd(width, col, visited, largest);
      for k := 0 to |largest|
        invariant Valid()
        invariant forall i :: 0 <= i < |isOcean| ==> (isOcean[i] <==> old(isOcean)[i] || i in largest[..k])
      {
        assert largest[k] in largest;
        isOcean := isOcean[largest[k] := true];
        assert largest[..k + 1] == largest[..k] + [largest[k]];
      }
      assert largest[..|largest|] == largest;
      if i :| 0 <= i < |isLand| && !isLand[i] {
        assert col[i] && largest[0] in largest;
        assert InGreatest(width, col, largest[0]);
      }
    }

    /** Flags every shore tile and lists the water ones in scan order. */
    method ProcessShore() returns (shorelineWaters: seq<nat>)
      requires Valid()
      modifies this`isShore
      ensures Valid()
      ensures forall i :: 0 <= i < |isShore| ==>
                (isShore[i] <==> old(isShore)[i] || (width > 0 && Shore(width, isLand, i)))
      ensures forall a, b :: 0 <= a < b < |shorelineWaters| ==> shorelineWaters[a] < shorelineWaters[b]
      ensures forall i: nat :: i in shorelineWaters <==>
                i < |isLand| && !isLand[i] && width > 0 && Shore(width, isLand, i)
    {
      hide Shore;
      shorelineWaters := [];
      for i := 0 to |isLand|
        invariant Valid()
        invariant forall j :: 0 <= j < |isShore| ==>
                    (isShore[j] <==> old(isShore)[j] || (j < i && width > 0 && Shore(width, isLand, j)))
        invariant forall a, b :: 0 <= a < b < |shorelineWaters| ==> shorelineWaters[a] < shorelineWaters[b]
        invariant forall j: nat :: j in shorelineWaters <==> j < i && !isLand[j] && width > 0 && Shore(width, isLand, j)
      {
        CoordsOf(width, height, i);
        var shore := TouchesOther(i);
        if shore {
          isShore := isShore[i := true];
          if !isLand[i] {
            assert forall a :: 0 <= a < |shorelineWaters| ==> shorelineWaters[a] in shorelineWaters;
            shorelineWaters := shorelineWaters + [i];
          }
        }
      }
    }

    method TouchesOther(i: nat) returns (shore: bool)
      requires Valid() && i < |isLand| && width > 0
      ensures shore <==> Shore(width, isLand, i)
    {
      hide X, Y, At, Around, Next4;
      shore := false;
      var sides := Around(width, height, i, SIDES);
      SidesAre(width, height, i, sides);
      for k := 0 to |sides|
        invariant !shore && forall j :: 0 <= j < k ==> isLand[sides[j]] == isLand[i]
      {
        if isLand[sides[k]] != isLand[i] {
          shore := true;
          break;
        }
      }
    }

    /**
    The distance theorem: if there is any land, every water tile ends with its Manhattan distance to the
    nearest land tile, minus one, although the search only walks through water.
    */
    method ProcessDistToLand(shorelineWaters: seq<nat>)
      requires Valid()
      requires forall i: nat :: i in shorelineWaters <==>
                 i < |isLand| && !isLand[i] && width > 0 && Shore(width, isLand, i)
      modifies this`magnitude
      ensures Valid()
      ensures forall i :: 0 <= i < |isLand| && (isLand[i] || !HasLand(isLand)) ==> magnitude[i] == old(magnitude)[i]
      ensures HasLand(isLand) ==> forall i :: 0 <= i < |isLand| && !isLand[i] ==>
                width > 0 && magnitude[i] + 1 == LandDist(width, isLand, i)
    {
      hide X, Y, At, Around, Next4, LandDist, Manhattan, Values, Spreads, HasLand;
      if width == 0 {
        return;
      }
      var visited, queue := Seeds(shorelineWaters);
      while queue != []
        invariant Valid() && |visited| == |isLand|
        invariant HasLand(isLand) ==>
                    Values(width, isLand, visited, magnitude, queue) && Spreads(width, isLand, visited, queue)
        invariant !HasLand(isLand) ==> queue == []
        invariant forall i :: 0 <= i < |isLand| && (isLand[i] || !HasLand(isLand)) ==> magnitude[i] == old(magnitude)[i]
        decreases |Unseen(visited)| + |queue|
      {
        visited, queue := Advance(visited, queue);
      }
      if HasLand(isLand) {
        AllVisited(width, height, isLand, visited, magnitude);
      }
    }

    // Shore water is at distance zero; it starts the queue.
    method Seeds(shorelineWaters: seq<nat>) returns (visited: seq<bool>, queue: Wave)
      requires Valid() && width > 0
      requires forall i: nat :: i in shorelineWaters <==> i < |isLand| && !isLand[i] && Shore(width, isLand, i)
      modifies this`magnitude
      ensures Valid() && |visited| == |isLand|
      ensures HasLand(isLand) ==>
                Values(width, isLand, visited, magnitude, queue) && Spreads(width, isLand, visited, queue)
      ensures !HasLand(isLand) ==> queue == []
      ensures forall i :: 0 <= i < |isLand| && (isLand[i] || !HasLand(isLand)) ==> magnitude[i] == old(magnitude)[i]
    {
      hide Shore, LandDist, HasLand, Next4;
      visited := seq(|isLand|, i => false);
      queue := [];
      for k := 0 to |shorelineWaters|
        invariant Valid() && |visited| == |isLand| && |queue| == k
        invariant forall j :: 0 <= j < k ==> queue[j] == (shorelineWaters[j], 0)
        invariant forall i :: 0 <= i < |isLand| ==> (visited[i] <==> i in shorelineWaters[..k])
        invariant forall i :: 0 <= i < |isLand| ==>
                    magnitude[i] == (if i in shorelineWaters[..k] then 0 else old(magnitude)[i])
      {
        var i := shorelineWaters[k];
        assert i in shorelineWaters;
        visited := visited[i := true];
        magnitude := magnitude[i := 0];
        queue := queue + [(i, 0)];
        assert shorelineWaters[..k + 1] == shorelineWaters[..k] + [i];
      }
      assert shorelineWaters[..|shorelineWaters|] == shorelineWaters;
      SeedsOk(width, height, isLand, shorelineWaters, visited, magnitude, queue);
    }

    // Expand the tile at the front of the queue.
    method Advance(visited: seq<bool>, queue: Wave) returns (visited': seq<bool>, queue': Wave)
      requires Valid() && width > 0 && |visited| == |isLand| && queue != [] && HasLand(isLand)
      requires Values(width, isLand, visited, magnitude, queue) && Spreads(width, isLand, visited, queue)
      modifies this`magnitude
      ensures Valid() && |visited'| == |isLand|
      ensures Values(width, isLand, visited', magnitude, queue') && Spreads(width, isLand, visited', queue')
      ensures |Unseen(visited')| + |queue'| < |Unseen(visited)| + |queue|
      ensures forall i :: 0 <= i < |isLand| && isLand[i] ==> magnitude[i] == old(magnitude)[i]
    {
      hide X, Y, At, Around, Next4, LandDist, Manhattan, Values, Spreads, HasLand, Unseen;
      var (cur, dist) := queue[0];
      FrontInside(width, isLand, visited, magnitude, queue);
      visited', queue' := visited, queue[1..];
      assert [queue[0]] + queue' == queue;
      var sides := Around(width, height, cur, SIDES);
      SidesAre(width, height, cur, sides);
      for k := 0 to |sides|
        invariant Valid() && |visited'| == |isLand|
        invariant Values(width, isLand, visited', magnitude, [queue[0]] + queue')
        invariant Spreads(width, isLand, visited', [queue[0]] + queue')
        invariant |Unseen(visited')| + |queue'| + 1 == |Unseen(visited)| + |queue|
        invariant forall j :: 0 <= j < k && !isLand[sides[j]] ==> visited'[sides[j]]
        invariant forall i :: 0 <= i < |isLand| && isLand[i] ==> magnitude[i] == old(magnitude)[i]
      {
        var ni := sides[k];
        if !visited'[ni] && !isLand[ni] {
          VisitNext(width, height, isLand, visited', magnitude, [queue[0]] + queue', ni);
          UnseenOne(visited', ni);
          visited' := visited'[ni := true];
          magnitude := magnitude[ni := dist + 1];
          assert [queue[0]] + queue' + [(ni, dist + 1)] == [queue[0]] + (queue' + [(ni, dist + 1)]);
          queue' := queue' + [(ni, dist + 1)];
        }
      }
      forall j | 0 <= j < |isLand| && !isLand[j] && Next4(width, cur, j)
        ensures visited'[j]
      {
        assert j in sides;
      }
      LeaveFront(width, isLand, visited', magnitude, [queue[0]] + queue');
      assert ([queue[0]] + queue')[1..] == queue';
    }
  }
}
