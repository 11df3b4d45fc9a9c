/**
Rectangular tile grids, shared by the map modules: linear tile indices
`y * width + x`, adjacency, and connectivity through a set of open tiles.
*/
module Grid {
  // ---- Coordinates ----

  function X(w: nat, i: nat): nat
    requires w > 0
  {
    i % w
  }

  function Y(w: nat, i: nat): nat
    requires w > 0
  {
    i / w
  }

  function At(w: nat, x: nat, y: nat): nat {
    y * w + x
  }

  lemma DivMod(w: nat, x: nat, y: nat)
    requires x < w
    ensures (y * w + x) / w == y && (y * w + x) % w == x
  {
    var q, r := (y * w + x) / w, (y * w + x) % w;
    assert y * w + x == q * w + r;
    if q < y {
      Less(w, q, y);
    } else if y < q {
      Less(w, y, q);
    }
  }

  lemma Less(w: nat, a: nat, b: nat)
    requires a < b
    ensures a * w + w <= b * w
  {
    assert (b - a - 1) * w >= 0;
    assert b * w == a * w + w + (b - a - 1) * w;
  }

  /** Coordinates inside the grid name a tile, and the tile gives them back. */
  lemma AtIs(w: nat, h: nat, x: nat, y: nat)
    requires x < w && y < h
    ensures At(w, x, y) < w * h && X(w, At(w, x, y)) == x && Y(w, At(w, x, y)) == y
  {
    DivMod(w, x, y);
    Less(w, y, h);
  }

  /** Every tile has coordinates inside the grid. */
  lemma CoordsOf(w: nat, h: nat, i: nat)
    requires i < w * h
    ensures w > 0 && X(w, i) < w && Y(w, i) < h && At(w, X(w, i), Y(w, i)) == i
  {
    assert i == i / w * w + i % w;
    if i / w >= h {
      Scale(w, h, i / w);
    }
  }

  lemma Scale(w: nat, a: nat, b: nat)
    requires a <= b
    ensures a * w <= b * w
  {
    assert (b - a) * w >= 0;
    assert b * w == a * w + (b - a) * w;
  }

  lemma SameCoords(w: nat, h: nat, i: nat, j: nat)
    requires i < w * h && j < w * h && w > 0
    requires X(w, i) == X(w, j) && Y(w, i) == Y(w, j)
    ensures i == j
  {
    CoordsOf(w, h, i);
    CoordsOf(w, h, j);
  }

  // ---- Distance and adjacency ----

  function Diff(a: nat, b: nat): nat {
    if a >= b then a - b else b - a
  }

  function Manhattan(w: nat, i: nat, j: nat): nat
    requires w > 0
  {
    Diff(X(w, i), X(w, j)) + Diff(Y(w, i), Y(w, j))
  }

  predicate Next4(w: nat, i: nat, j: nat)
    requires w > 0
  {
    Manhattan(w, i, j) == 1
  }

  predicate Near8(w: nat, i: nat, j: nat)
    requires w > 0
  {
    i != j && Diff(X(w, i), X(w, j)) <= 1 && Diff(Y(w, i), Y(w, j)) <= 1
  }

  lemma Next4Sym(w: nat, i: nat, j: nat)
    requires w > 0 && Next4(w, i, j)
    ensures Next4(w, j, i)
  {
    hide X, Y;
  }

  lemma Near8Sym(w: nat, i: nat, j: nat)
    requires w > 0 && Near8(w, i, j)
    ensures Near8(w, j, i)
  {
    hide X, Y;
  }

  // One step towards another tile.
  lemma Toward(w: nat, h: nat, i: nat, l: nat) returns (j: nat)
    requires i < w * h && l < w * h && w > 0 && Manhattan(w, i, l) > 0
    ensures j < w * h && Next4(w, i, j) && Manhattan(w, j, l) == Manhattan(w, i, l) - 1
  {
    hide X, Y, At;
    CoordsOf(w, h, i);
    CoordsOf(w, h, l);
    var x, y := X(w, i), Y(w, i);
    if x != X(w, l) {
      x := if x < X(w, l) then x + 1 else x - 1;
    } else {
      y := if y < Y(w, l) then y + 1 else y - 1;
    }
    j := At(w, x, y);
    AtIs(w, h, x, y);
  }

  lemma ManhattanSym(w: nat, i: nat, j: nat)
    requires w > 0
    ensures Manhattan(w, i, j) == Manhattan(w, j, i)
  {
    hide X, Y;
  }

  lemma ZeroManhattan(w: nat, h: nat, i: nat, j: nat)
    requires w > 0 && i < w * h && j < w * h && Manhattan(w, i, j) == 0
    ensures i == j
  {
    hide X, Y;
    SameCoords(w, h, i, j);
  }

  type Deltas = seq<(int, int)>

  // The in-bounds tiles at the given offsets from a tile, in the order of the offsets.
  function Around(w: nat, h: nat, i: nat, deltas: Deltas): seq<nat>
    requires w > 0
  {
    if deltas == [] then [] else
      var x, y := X(w, i) + deltas[0].0, Y(w, i) + deltas[0].1;
      (if 0 <= x < w && 0 <= y < h then [At(w, x, y)] else []) + Around(w, h, i, deltas[1..])
  }

  ghost predicate Offset(w: nat, i: nat, j: nat, d: (int, int))
    requires w > 0
  {
    X(w, j) == X(w, i) + d.0 && Y(w, j) == Y(w, i) + d.1
  }

  lemma {:induction false} AroundHas(w: nat, h: nat, i: nat, deltas: Deltas, j: nat)
    requires w > 0
    ensures j in Around(w, h, i, deltas) <==> j < w * h && exists k :: 0 <= k < |deltas| && Offset(w, i, j, deltas[k])
  {
    hide X, Y, At;
    if deltas != [] {
      AroundHas(w, h, i, deltas[1..], j);
      HeadHas(w, h, i, deltas[0], j);
      assert deltas == [deltas[0]] + deltas[1..];
    }
  }

  lemma HeadHas(w: nat, h: nat, i: nat, d: (int, int), j: nat)
    requires w > 0
    ensures var x, y := X(w, i) + d.0, Y(w, i) + d.1;
            0 <= x < w && 0 <= y < h && j == At(w, x, y) <==> j < w * h && Offset(w, i, j, d)
  {
    hide X, Y, At;
    var x, y := X(w, i) + d.0, Y(w, i) + d.1;
    if 0 <= x < w && 0 <= y < h {
      AtIs(w, h, x, y);
    }
    if j < w * h {
      CoordsOf(w, h, j);
    }
  }

  predicate DistinctDeltas(deltas: Deltas) {
    forall j, k :: 0 <= j < k < |deltas| ==> deltas[j] != deltas[k]
  }

  // A tile at one offset is not among those at other offsets.
  lemma NotAround(w: nat, h: nat, i: nat, d: (int, int), deltas: Deltas, j: nat)
    requires w > 0 && Offset(w, i, j, d) && d !in deltas
    ensures j !in Around(w, h, i, deltas)
  {
    hide X, Y, At, Around;
    AroundHas(w, h, i, deltas, j);
    forall k | 0 <= k < |deltas|
      ensures !Offset(w, i, j, deltas[k])
    {
      assert deltas[k] in deltas;
    }
  }

  lemma PrependDistinct(j: nat, rest: seq<nat>)
    requires Distinct(rest) && j !in rest
    ensures Distinct([j] + rest)
  {
    assert forall k :: 0 <= k < |rest| ==> rest[k] in rest;
  }

  lemma {:induction false} AroundDistinct(w: nat, h: nat, i: nat, deltas: Deltas)
    requires w > 0 && DistinctDeltas(deltas)
    ensures Distinct(Around(w, h, i, deltas)) && |Around(w, h, i, deltas)| <= |deltas|
  {
    hide X, Y, At, Offset, Distinct;
    if deltas == [] {
      DistinctNone();
    } else {
      var rest := Around(w, h, i, deltas[1..]);
      AroundDistinct(w, h, i, deltas[1..]);
      var x, y := X(w, i) + deltas[0].0, Y(w, i) + deltas[0].1;
      if 0 <= x < w && 0 <= y < h {
        HeadHas(w, h, i, deltas[0], At(w, x, y));
        NotAround(w, h, i, deltas[0], deltas[1..], At(w, x, y));
        PrependDistinct(At(w, x, y), rest);
      } else {
        assert Around(w, h, i, deltas) == rest;
      }
    }
  }

  lemma DistinctNone()
    ensures Distinct([])
  {
  }

  // ---- The neighbourhoods in use ----

  /** East, west, north, south. */
  const CARDINAL: Deltas := [(1, 0), (-1, 0), (0, -1), (0, 1)]

  /** The cardinals, then the diagonals. */
  const ALL_AROUND: Deltas := CARDINAL + [(1, -1), (-1, -1), (1, 1), (-1, 1)]

  ghost predicate IsCardinal(deltas: Deltas) {
    forall d :: d in deltas <==> d == (1, 0) || d == (-1, 0) || d == (0, -1) || d == (0, 1)
  }

  /** Any ordering of the four cardinal offsets yields exactly the tiles at Manhattan distance one. */
  lemma CardinalHas(w: nat, h: nat, i: nat, deltas: Deltas, j: nat)
    requires w > 0 && IsCardinal(deltas)
    ensures j in Around(w, h, i, deltas) <==> j < w * h && Next4(w, i, j)
  {
    hide X, Y, At, Around;
    AroundHas(w, h, i, deltas, j);
    if Next4(w, i, j) {
      var d := (X(w, j) - X(w, i), Y(w, j) - Y(w, i));
      assert d in deltas;
      var k :| 0 <= k < |deltas| && deltas[k] == d;
      assert Offset(w, i, j, deltas[k]);
    }
    forall k | 0 <= k < |deltas| && Offset(w, i, j, deltas[k])
      ensures Next4(w, i, j)
    {
      assert deltas[k] in deltas;
    }
  }

  lemma AllAroundHas(w: nat, h: nat, i: nat, j: nat)
    requires w > 0 && i < w * h
    ensures j in Around(w, h, i, ALL_AROUND) <==> j < w * h && Near8(w, i, j)
  {
    hide X, Y, At, Around;
    AroundHas(w, h, i, ALL_AROUND, j);
    var d := (X(w, j) - X(w, i), Y(w, j) - Y(w, i));
    if j < w * h && Near8(w, i, j) {
      if d == (0, 0) {
        SameCoords(w, h, i, j);
      }
      assert d in ALL_AROUND;
      var k :| 0 <= k < |ALL_AROUND| && ALL_AROUND[k] == d;
      assert Offset(w, i, j, ALL_AROUND[k]);
    }
    forall k | 0 <= k < |ALL_AROUND| && Offset(w, i, j, ALL_AROUND[k])
      ensures Near8(w, i, j)
    {
      assert ALL_AROUND[k] in ALL_AROUND;
    }
  }

  // ---- Connectivity through open tiles ----

  ghost predicate Path(w: nat, open: seq<bool>, p: seq<nat>)
    requires w > 0
  {
    && p != []
    && (forall k :: 0 <= k < |p| ==> p[k] < |open| && open[p[k]])
    && (forall k :: 0 <= k < |p| - 1 ==> Next4(w, p[k], p[k + 1]))
  }

  /** Two open tiles of the same body. */
  ghost predicate Conn(w: nat, open: seq<bool>, a: nat, b: nat)
    requires w > 0
  {
    exists p :: Path(w, open, p) && p[0] == a && p[|p| - 1] == b
  }

  lemma ConnSelf(w: nat, open: seq<bool>, a: nat)
    requires w > 0 && a < |open| && open[a]
    ensures Conn(w, open, a, a)
  {
    assert Path(w, open, [a]);
  }

  lemma ConnOpen(w: nat, open: seq<bool>, a: nat, b: nat)
    requires w > 0 && Conn(w, open, a, b)
    ensures a < |open| && open[a] && b < |open| && open[b]
  {
  }

  lemma ConnStep(w: nat, open: seq<bool>, a: nat, b: nat, c: nat)
    requires w > 0 && Conn(w, open, a, b) && Next4(w, b, c) && c < |open| && open[c]
    ensures Conn(w, open, a, c)
  {
    hide Next4;
    var p :| Path(w, open, p) && p[0] == a && p[|p| - 1] == b;
    assert Path(w, open, p + [c]);
  }

  lemma ConnTrans(w: nat, open: seq<bool>, a: nat, b: nat, c: nat)
    requires w > 0 && Conn(w, open, a, b) && Conn(w, open, b, c)
    ensures Conn(w, open, a, c)
  {
    hide Next4;
    var p :| Path(w, open, p) && p[0] == a && p[|p| - 1] == b;
    var q :| Path(w, open, q) && q[0] == b && q[|q| - 1] == c;
    var r := p + q[1..];
    forall k | 0 <= k < |r| - 1
      ensures Next4(w, r[k], r[k + 1])
    {
      if k == |p| - 1 {
        assert r[k] == q[0] && r[k + 1] == q[1];
      } else if k >= |p| {
        assert r[k] == q[k - |p| + 1] && r[k + 1] == q[k - |p| + 2];
      }
    }
    assert Path(w, open, r);
    assert r[|r| - 1] == c;
  }

  lemma ConnSym(w: nat, open: seq<bool>, a: nat, b: nat)
    requires w > 0 && Conn(w, open, a, b)
    ensures Conn(w, open, b, a)
  {
    hide X, Y;
    var p :| Path(w, open, p) && p[0] == a && p[|p| - 1] == b;
    var r := seq(|p|, k requires 0 <= k < |p| => p[|p| - 1 - k]);
    forall k | 0 <= k < |r| - 1
      ensures Next4(w, r[k], r[k + 1])
    {
      assert Next4(w, p[|p| - 2 - k], p[|p| - 2 - k + 1]);
    }
    assert Path(w, open, r);
  }

  ghost predicate Closed(w: nat, open: seq<bool>, s: set<nat>)
    requires w > 0
  {
    forall i: nat, j: nat :: i in s && j < |open| && open[j] && Next4(w, i, j) ==> j in s
  }

  /** A set closed under open neighbours holds the whole body of each of its tiles. */
  lemma ConnClosed(w: nat, open: seq<bool>, s: set<nat>, a: nat, b: nat)
    requires w > 0 && a in s && Conn(w, open, a, b) && Closed(w, open, s)
    ensures b in s
  {
    var p :| Path(w, open, p) && p[0] == a && p[|p| - 1] == b;
    PathClosed(w, open, s, p, |p| - 1);
  }

  lemma {:induction false} PathClosed(w: nat, open: seq<bool>, s: set<nat>, p: seq<nat>, k: nat)
    requires w > 0 && Path(w, open, p) && p[0] in s && k < |p| && Closed(w, open, s)
    ensures p[k] in s
  {
    hide Next4;
    if k > 0 {
      PathClosed(w, open, s, p, k - 1);
      assert Next4(w, p[k - 1], p[k - 1 + 1]);
    }
  }

  /** Connectivity only depends on the open tiles of the body itself. */
  lemma ConnWithin(w: nat, open: seq<bool>, open': seq<bool>, a: nat, b: nat)
    requires w > 0 && Conn(w, open, a, b)
    requires forall i: nat :: Conn(w, open, a, i) ==> i < |open'| && open'[i]
    ensures Conn(w, open', a, b)
  {
    hide Next4;
    var p :| Path(w, open, p) && p[0] == a && p[|p| - 1] == b;
    forall k | 0 <= k < |p|
      ensures p[k] < |open'| && open'[p[k]]
    {
      assert Path(w, open, p[..k + 1]);
      assert Conn(w, open, a, p[k]);
    }
    assert Path(w, open', p);
  }

  /** The body of an open tile. */
  ghost function Body(w: nat, open: seq<bool>, a: nat): set<nat>
    requires w > 0
  {
    set i | 0 <= i < |open| && Conn(w, open, a, i)
  }

  lemma ConnMono(w: nat, open: seq<bool>, open': seq<bool>, a: nat, b: nat)
    requires w > 0 && Conn(w, open, a, b) && |open| <= |open'|
    requires forall i :: 0 <= i < |open| && open[i] ==> open'[i]
    ensures Conn(w, open', a, b)
  {
    var p :| Path(w, open, p) && p[0] == a && p[|p| - 1] == b;
    assert Path(w, open', p);
  }

  lemma BodyShared(w: nat, open: seq<bool>, a: nat, b: nat)
    requires w > 0 && Conn(w, open, a, b)
    ensures Body(w, open, a) == Body(w, open, b)
  {
    hide Conn;
    ConnSym(w, open, a, b);
    forall i: nat
      ensures Conn(w, open, a, i) <==> Conn(w, open, b, i)
    {
      if Conn(w, open, a, i) {
        ConnTrans(w, open, b, a, i);
      }
      if Conn(w, open, b, i) {
        ConnTrans(w, open, a, b, i);
      }
    }
  }

  // ---- Lists without repetitions ----

  predicate Distinct(s: seq<nat>) {
    forall i, j :: 0 <= i < j < |s| ==> s[i] != s[j]
  }

  lemma {:induction false} DistinctSize(s: seq<nat>, t: set<nat>)
    requires Distinct(s) && forall i: nat :: i in s <==> i in t
    ensures |s| == |t|
  {
    if s == [] {
      assert forall i: nat :: i !in t;
      assert t == {};
    } else {
      var x, rest := s[0], s[1..];
      assert s == [x] + rest;
      assert forall i: nat :: i in rest <==> i in t - {x} by {
        forall i: nat
          ensures i in rest <==> i in t - {x}
        {
          assert i in s <==> i == x || i in rest;
        }
      }
      DistinctSize(rest, t - {x});
    }
  }

  ghost function Below(n: nat): (s: set<nat>)
    ensures |s| == n && forall i: nat :: i in s <==> i < n
  {
    if n == 0 then {} else Below(n - 1) + {n - 1}
  }

  lemma DistinctBound(s: seq<nat>, n: nat)
    requires Distinct(s) && forall i :: i in s ==> i < n
    ensures |s| <= n
  {
    var t := set i | i in s;
    DistinctSize(s, t);
    SubsetSize(t, Below(n));
  }

  lemma {:induction false} SubsetSize(a: set<nat>, b: set<nat>)
    requires a <= b
    ensures |a| <= |b|
    decreases |a|
  {
    if a != {} {
      var x :| x in a;
      SubsetSize(a - {x}, b - {x});
    }
  }
}
