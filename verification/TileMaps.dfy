/** The parts of `GameMap` (sow-core/src/map.rs) that the map queries read. */
module TileMaps {
  import opened Grid

  datatype TileMap = TileMap(width: nat, height: nat, land: seq<bool>, shoreline: seq<bool>, owner: seq<nat>) {
    predicate Valid() {
      |land| == |shoreline| == |owner| == width * height
    }

    function Size(): nat {
      width * height
    }
  }

  /** Water tiles are open to ships. */
  function Water(land: seq<bool>): (r: seq<bool>)
    ensures |r| == |land| && forall i :: 0 <= i < |land| ==> r[i] == !land[i]
  {
    seq(|land|, i requires 0 <= i < |land| => !land[i])
  }

  /** The in-bounds cardinal neighbours of a tile: east, west, north, south. */
  function Cardinals(w: nat, h: nat, i: nat): seq<nat>
    requires w > 0
  {
    Around(w, h, i, CARDINAL)
  }

  lemma CardinalsAre(w: nat, h: nat, i: nat)
    requires w > 0
    ensures forall k :: 0 <= k < |Cardinals(w, h, i)| ==>
              Cardinals(w, h, i)[k] < w * h && Next4(w, i, Cardinals(w, h, i)[k])
    ensures forall j: nat :: j < w * h && Next4(w, i, j) ==> j in Cardinals(w, h, i)
  {
    hide Around, Next4;
    var s := Cardinals(w, h, i);
    forall k | 0 <= k < |s|
      ensures s[k] < w * h && Next4(w, i, s[k])
    {
      assert s[k] in s;
      CardinalHas(w, h, i, CARDINAL, s[k]);
    }
    forall j: nat | j < w * h && Next4(w, i, j)
      ensures j in s
    {
      CardinalHas(w, h, i, CARDINAL, j);
    }
  }
}
