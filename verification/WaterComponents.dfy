/**
Labelling of the water bodies of a map (sow-core/src/water_components.rs): the
one-shot flood fill and its incremental form, which must agree for every budget.
*/
module WaterComponents {
  import opened Wrappers
  import opened Grid
  import opened TileMaps

  /** Labels by tile index, and the number of water bodies. */
  datatype Components = Components(components: seq<nat>, count: nat)

  /** `component_of`: zero outside the map. */
  function ComponentOf(c: Components, idx: nat): nat {
    if idx < |c.components| then c.components[idx] else 0
  }

  // ---- What a labelling is ----

  /** `f` is the least tile of its body. */
  ghost predicate First(w: nat, water: seq<bool>, f: nat)
    requires w > 0
  {
    f < |water| && water[f] && forall j: nat :: Conn(w, water, f, j) ==> f <= j
  }

  /**
  Two water tiles share a label iff they are connected through water; the labels are exactly `1..count`,
  in the order of the bodies' least tiles.
  */
  ghost predicate IsLabelling(w: nat, water: seq<bool>, labels: seq<nat>, count: nat)
    requires w > 0
  {
    && |labels| == |water|
    && (forall i :: 0 <= i < |water| && water[i] ==> 1 <= labels[i] <= count)
    && (forall i, j :: 0 <= i < |water| && 0 <= j < |water| && water[i] && water[j] ==>
          (labels[i] == labels[j] <==> Conn(w, water, i, j)))
    && (forall c :: 1 <= c <= count ==> Attained(w, water, labels, c))
    && (forall f, g :: 0 <= f < g < |water| && First(w, water, f) && First(w, water, g) ==> labels[f] < labels[g])
  }

  // Label `c` is that of some body's least tile.
  ghost predicate Attained(w: nat, water: seq<bool>, labels: seq<nat>, c: nat)
    requires w > 0 && |labels| == |water|
  {
    exists f: nat :: f < |water| && First(w, water, f) && labels[f] == c
  }

  /** `v` is the least label among the cardinal water neighbours of `i`, or zero if there are none. */
  ghost predicate IsShoreLabel(w: nat, land: seq<bool>, labels: seq<nat>, i: nat, v: nat)
    requires w > 0 && |labels| == |land|
  {
    && (forall j :: 0 <= j < |land| && !land[j] && Next4(w, i, j) ==> v <= labels[j])
    && (v != 0 ==> exists j :: 0 <= j < |land| && !land[j] && Next4(w, i, j) && labels[j] == v)
    && (v == 0 ==> forall j :: 0 <= j < |land| && !land[j] ==> !Next4(w, i, j))
  }

  /** The whole result: water labels, shoreline land inherits, other land has none. */
  ghost predicate IsResult(m: TileMap, r: Components)
    requires m.Valid()
  {
    && |r.components| == |m.land|
    && if m.width == 0 then r.count == 0 else
         && IsLabelling(m.width, Water(m.land), r.components, r.count)
         && ShoresDone(m, r.components, |m.land|)
  }

  ghost predicate ShoresDone(m: TileMap, labels: seq<nat>, upto: nat)
    requires m.Valid() && m.width > 0 && |labels| == |m.land|
  {
    forall i :: 0 <= i < |m.land| && m.land[i] ==>
      if i < upto && m.shoreline[i] then IsShoreLabel(m.width, m.land, labels, i, labels[i]) else labels[i] == 0
  }

  // ---- The labelling is unique ----

  lemma {:induction false} FirstOf(w: nat, water: seq<bool>, i: nat) returns (f: nat)
    requires w > 0 && i < |water| && water[i]
    ensures f < |water| && First(w, water, f) && Conn(w, water, i, f)
    decreases i
  {
    hide Conn;
    ConnSelf(w, water, i);
    if j: nat :| Conn(w, water, i, j) && j < i {
      ConnOpen(w, water, i, j);
      f := FirstOf(w, water, j);
      ConnTrans(w, water, i, j, f);
    } else {
      f := i;
    }
  }

  lemma FirstUnique(w: nat, water: seq<bool>, f: nat, g: nat)
    requires w > 0 && First(w, water, f) && First(w, water, g) && Conn(w, water, f, g)
    ensures f == g
  {
    hide Conn;
    ConnSym(w, water, f, g);
  }

  // A smaller label belongs to an earlier first tile.
  lemma EarlierFirst(w: nat, water: seq<bool>, b: seq<nat>, n: nat, f: nat, c: nat) returns (g: nat)
    requires w > 0 && IsLabelling(w, water, b, n) && First(w, water, f) && 1 <= c < b[f]
    ensures g < f && First(w, water, g) && b[g] == c
  {
    hide Conn, First;
    FirstWater(w, water, f);
    assert Attained(w, water, b, c);
    g :| g < |water| && First(w, water, g) && b[g] == c;
  }

  lemma FirstWater(w: nat, water: seq<bool>, f: nat)
    requires w > 0 && First(w, water, f)
    ensures f < |water| && water[f]
  {
  }

  lemma {:induction false} SameFirstLabels(w: nat, water: seq<bool>, a: seq<nat>, m: nat, b: seq<nat>, n: nat, f: nat)
    requires w > 0 && IsLabelling(w, water, a, m) && IsLabelling(w, water, b, n)
    requires First(w, water, f)
    ensures a[f] == b[f]
    decreases f
  {
    hide Conn, First;
    FirstWater(w, water, f);
    if a[f] < b[f] {
      var g := EarlierFirst(w, water, b, n, f, a[f]);
      SameFirstLabels(w, water, a, m, b, n, g);
      FirstWater(w, water, g);
      FirstUnique(w, water, f, g);
    } else if b[f] < a[f] {
      var g := EarlierFirst(w, water, a, m, f, b[f]);
      SameFirstLabels(w, water, a, m, b, n, g);
      FirstWater(w, water, g);
      FirstUnique(w, water, f, g);
    }
  }

  lemma SameLabels(w: nat, water: seq<bool>, a: seq<nat>, m: nat, b: seq<nat>, n: nat, i: nat)
    requires w > 0 && IsLabelling(w, water, a, m) && IsLabelling(w, water, b, n)
    requires i < |water| && water[i]
    ensures a[i] == b[i]
  {
    hide Conn, First;
    var f := FirstOf(w, water, i);
    FirstWater(w, water, f);
    SameFirstLabels(w, water, a, m, b, n, f);
  }

  lemma CountAtMost(w: nat, water: seq<bool>, a: seq<nat>, m: nat, b: seq<nat>, n: nat)
    requires w > 0 && IsLabelling(w, water, a, m) && IsLabelling(w, water, b, n)
    ensures m <= n
  {
    hide Conn, First;
    if m > 0 {
      assert Attained(w, water, a, m);
      var f: nat :| f < |water| && First(w, water, f) && a[f] == m;
      FirstWater(w, water, f);
      SameFirstLabels(w, water, a, m, b, n, f);
    }
  }

  /** There is only one correct result: any two agree on every label and on the count. */
  lemma ResultUnique(m: TileMap, r: Components, s: Components)
    requires m.Valid() && IsResult(m, r) && IsResult(m, s)
    ensures r == s
  {
    hide Next4, IsLabelling;
    if m.width > 0 {
      var water := Water(m.land);
      CountAtMost(m.width, water, r.components, r.count, s.components, s.count);
      CountAtMost(m.width, water, s.components, s.count, r.components, r.count);
      forall i | 0 <= i < |m.land| && !m.land[i]
        ensures r.components[i] == s.components[i]
      {
        SameLabels(m.width, water, r.components, r.count, s.components, s.count, i);
      }
      forall i | 0 <= i < |m.land| && m.land[i]
        ensures r.components[i] == s.components[i]
      {
      }
    }
    assert r.components == s.components;
  }

  // ---- Labelling in progress ----

  /** `starts[k]` is the least tile of body `k + 1`; every water tile below `scan` is labelled. */
  ghost predicate Started(w: nat, water: seq<bool>, labels: seq<nat>, count: nat, scan: nat, starts: seq<nat>)
    requires w > 0
  {
    && |labels| == |water| && scan <= |water| && |starts| == count
    && (forall k, l :: 0 <= k < l < count ==> starts[k] < starts[l])
    && (forall k :: 0 <= k < count ==>
          starts[k] < scan && First(w, water, starts[k]) && labels[starts[k]] == k + 1)
    && (forall i :: 0 <= i < |water| ==>
          labels[i] <= count && (labels[i] > 0 ==> water[i] && Conn(w, water, starts[labels[i] - 1], i)))
    && (forall i :: 0 <= i < scan && water[i] ==> labels[i] > 0)
  }

  /** Queued tiles carry the newest label; the neighbours of any other labelled tile share its label. */
  ghost predicate Spreading(w: nat, water: seq<bool>, labels: seq<nat>, count: nat, queue: seq<nat>)
    requires w > 0 && |labels| == |water|
  {
    && (forall k :: 0 <= k < |queue| ==> queue[k] < |water| && labels[queue[k]] == count > 0)
    && Distinct(queue)
    && (forall i, j :: (&& 0 <= i < |water| && 0 <= j < |water| && labels[i] > 0
                        && i !in queue && water[j] && Next4(w, i, j)) ==> labels[j] == labels[i])
  }

  ghost predicate Labelling(w: nat, water: seq<bool>, labels: seq<nat>, count: nat, queue: seq<nat>, scan: nat,
                            starts: seq<nat>)
    requires w > 0
  {
    Started(w, water, labels, count, scan, starts) && Spreading(w, water, labels, count, queue)
  }

  lemma LabelStart(w: nat, water: seq<bool>, labels: seq<nat>)
    requires w > 0 && |labels| == |water| && forall i :: 0 <= i < |labels| ==> labels[i] == 0
    ensures Labelling(w, water, labels, 0, [], 0, [])
  {
  }

  lemma LabelSkip(w: nat, water: seq<bool>, labels: seq<nat>, count: nat, queue: seq<nat>, scan: nat, starts: seq<nat>)
    requires w > 0 && Labelling(w, water, labels, count, queue, scan, starts)
    requires scan < |water| && (!water[scan] || labels[scan] > 0)
    ensures Labelling(w, water, labels, count, queue, scan + 1, starts)
  {
    hide Next4, Conn, First, Spreading;
  }

  // With an empty queue the labelled tiles are whole bodies.
  lemma LabelledWhole(w: nat, water: seq<bool>, labels: seq<nat>, count: nat, i: nat, j: nat)
    requires w > 0 && |labels| == |water| && Spreading(w, water, labels, count, [])
    requires Conn(w, water, i, j) && i < |water| && labels[i] > 0
    ensures j < |water| && labels[j] == labels[i]
  {
    hide Next4, Conn;
    var s := set k: nat | k < |water| && labels[k] == labels[i];
    assert Closed(w, water, s);
    ConnClosed(w, water, s, i, j);
  }

  // The first unlabelled water tile of the scan is the least of its body.
  lemma NewIsFirst(w: nat, water: seq<bool>, labels: seq<nat>, count: nat, scan: nat, starts: seq<nat>)
    requires w > 0 && Labelling(w, water, labels, count, [], scan, starts)
    requires scan < |water| && water[scan] && labels[scan] == 0
    ensures First(w, water, scan) && Conn(w, water, scan, scan)
  {
    hide Next4, Conn, Spreading;
    forall j: nat | Conn(w, water, scan, j)
      ensures scan <= j
    {
      ConnOpen(w, water, scan, j);
      if j < scan {
        ConnSym(w, water, scan, j);
        LabelledWhole(w, water, labels, count, j, scan);
      }
    }
    ConnSelf(w, water, scan);
  }

  lemma NewStarted(w: nat, water: seq<bool>, labels: seq<nat>, count: nat, scan: nat, starts: seq<nat>)
    requires w > 0 && Started(w, water, labels, count, scan, starts)
    requires scan < |water| && water[scan] && labels[scan] == 0 && First(w, water, scan) && Conn(w, water, scan, scan)
    ensures Started(w, water, labels[scan := count + 1], count + 1, scan + 1, starts + [scan])
  {
    hide Conn, First;
  }

  lemma NewSpreading(w: nat, water: seq<bool>, labels: seq<nat>, count: nat, i: nat)
    requires w > 0 && |labels| == |water| && Spreading(w, water, labels, count, [])
    requires i < |water| && water[i] && labels[i] == 0
    ensures Spreading(w, water, labels[i := count + 1], count + 1, [i])
  {
    hide Next4;
  }

  lemma LabelNew(w: nat, water: seq<bool>, labels: seq<nat>, count: nat, scan: nat, starts: seq<nat>)
    requires w > 0 && |labels| == |water| && Labelling(w, water, labels, count, [], scan, starts)
    requires scan < |water| && water[scan] && labels[scan] == 0
    ensures Labelling(w, water, labels[scan := count + 1], count + 1, [scan], scan + 1, starts + [scan])
  {
    hide Spreading, Started;
    NewIsFirst(w, water, labels, count, scan, starts);
    NewStarted(w, water, labels, count, scan, starts);
    NewSpreading(w, water, labels, count, scan);
  }

  lemma VisitStarted(w: nat, water: seq<bool>, labels: seq<nat>, count: nat, scan: nat, starts: seq<nat>, i: nat,
                     j: nat)
    requires w > 0 && Started(w, water, labels, count, scan, starts)
    requires i < |water| && labels[i] == count > 0 && j < |water| && water[j] && labels[j] == 0 && Next4(w, i, j)
    ensures Started(w, water, labels[j := count], count, scan, starts)
  {
    hide Conn, First, Next4;
    ConnStep(w, water, starts[count - 1], i, j);
  }

  lemma VisitSpreading(w: nat, water: seq<bool>, labels: seq<nat>, count: nat, queue: seq<nat>, j: nat)
    requires w > 0 && |labels| == |water| && Spreading(w, water, labels, count, queue)
    requires j < |water| && water[j] && labels[j] == 0 && queue != []
    ensures Spreading(w, water, labels[j := count], count, queue + [j])
  {
    hide Next4;
    var more := queue + [j];
    assert forall i {:trigger i in more} :: i in more <==> i in queue || i == j;
    assert labels[queue[0]] == count > 0;
    assert forall k :: 0 <= k < |queue| ==> more[k] == queue[k] && queue[k] != j;
    var labels' := labels[j := count];
    forall a, b | 0 <= a < |water| && 0 <= b < |water| && labels'[a] > 0 && a !in more && water[b] && Next4(w, a, b)
      ensures labels'[b] == labels'[a]
    {
      assert a !in queue && a != j;
    }
  }

  // An unlabelled water neighbour of the queue's front joins its body.
  lemma LabelVisit(w: nat, water: seq<bool>, labels: seq<nat>, count: nat, queue: seq<nat>, scan: nat, starts: seq<nat>,
                   j: nat)
    requires w > 0 && |labels| == |water| && Labelling(w, water, labels, count, queue, scan, starts) && queue != []
    requires j < |water| && water[j] && labels[j] == 0 && Next4(w, queue[0], j)
    ensures Labelling(w, water, labels[j := count], count, queue + [j], scan, starts)
  {
    hide Next4, Started;
    VisitStarted(w, water, labels, count, scan, starts, queue[0], j);
    VisitSpreading(w, water, labels, count, queue, j);
  }

  // The front of the queue leaves once all its water neighbours are labelled.
  lemma LabelPop(w: nat, water: seq<bool>, labels: seq<nat>, count: nat, queue: seq<nat>, scan: nat, starts: seq<nat>)
    requires w > 0 && |labels| == |water| && Labelling(w, water, labels, count, queue, scan, starts) && queue != []
    requires forall i :: 0 <= i < |water| && labels[i] > 0 ==> water[i]
    requires forall j :: 0 <= j < |water| && water[j] && Next4(w, queue[0], j) ==> labels[j] > 0
    ensures Labelling(w, water, labels, count, queue[1..], scan, starts)
  {
    hide Next4, Started;
    var t := queue[0];
    forall j: nat | j < |water| && water[j] && Next4(w, t, j)
      ensures labels[j] == labels[t]
    {
      Next4Sym(w, t, j);
      assert t in queue;
      if j in queue {
        var k :| 0 <= k < |queue| && queue[k] == j;
      } else {
        assert labels[t] == labels[j];
      }
    }
    forall i | i in queue && i != t
      ensures i in queue[1..]
    {
      var k :| 0 <= k < |queue| && queue[k] == i;
      assert queue[1..][k - 1] == i;
    }
  }

  lemma LabelEnd(w: nat, water: seq<bool>, labels: seq<nat>, count: nat, starts: seq<nat>)
    requires w > 0 && Labelling(w, water, labels, count, [], |water|, starts)
    ensures IsLabelling(w, water, labels, count)
  {
    hide Next4, Conn, First, Spreading;
    forall i, j | 0 <= i < |water| && 0 <= j < |water| && water[i] && water[j]
      ensures labels[i] == labels[j] <==> Conn(w, water, i, j)
    {
      if Conn(w, water, i, j) {
        LabelledWhole(w, water, labels, count, i, j);
      }
      if labels[i] == labels[j] {
        ConnSym(w, water, starts[labels[i] - 1], i);
        ConnTrans(w, water, i, starts[labels[i] - 1], j);
      }
    }
    forall c | 1 <= c <= count
      ensures Attained(w, water, labels, c)
    {
      assert First(w, water, starts[c - 1]) && labels[starts[c - 1]] == c;
    }
    forall f, g | 0 <= f < g < |water| && First(w, water, f) && First(w, water, g)
      ensures labels[f] < labels[g]
    {
      FirstWater(w, water, f);
      FirstWater(w, water, g);
      FirstUnique(w, water, starts[labels[f] - 1], f);
      FirstUnique(w, water, starts[labels[g] - 1], g);
    }
  }

  // ---- Shores ----

  lemma LandOnly(w: nat, land: seq<bool>, labels: seq<nat>, labels': seq<nat>, count: nat)
    requires w > 0 && |labels| == |labels'| == |land|
    requires forall i :: 0 <= i < |land| && !land[i] ==> labels'[i] == labels[i]
    requires IsLabelling(w, Water(land), labels, count)
    ensures IsLabelling(w, Water(land), labels', count)
    ensures forall i: nat, v: nat {:trigger IsShoreLabel(w, land, labels', i, v)} ::
              IsShoreLabel(w, land, labels, i, v) <==> IsShoreLabel(w, land, labels', i, v)
  {
    hide Next4, Conn;
    var water := Water(land);
    forall c | 1 <= c <= count
      ensures Attained(w, water, labels', c)
    {
      assert Attained(w, water, labels, c);
      var f: nat :| f < |water| && First(w, water, f) && labels[f] == c;
      FirstWater(w, water, f);
    }
    forall f | 0 <= f < |water| && First(w, water, f)
      ensures labels'[f] == labels[f]
    {
      FirstWater(w, water, f);
    }
    hide First, Attained;
  }

  lemma ShoreStep(m: TileMap, labels: seq<nat>, count: nat, idx: nat, best: nat)
    requires m.Valid() && m.width > 0 && |labels| == |m.land| && idx < |m.land|
    requires IsLabelling(m.width, Water(m.land), labels, count) && ShoresDone(m, labels, idx)
    requires m.land[idx] && m.shoreline[idx] && IsShoreLabel(m.width, m.land, labels, idx, best)
    ensures IsLabelling(m.width, Water(m.land), labels[idx := best], count)
    ensures ShoresDone(m, labels[idx := best], idx + 1)
  {
    hide IsLabelling, IsShoreLabel;
    LandOnly(m.width, m.land, labels, labels[idx := best], count);
  }

  lemma ShoreSkip(m: TileMap, labels: seq<nat>, idx: nat)
    requires m.Valid() && m.width > 0 && |labels| == |m.land| && idx < |m.land|
    requires ShoresDone(m, labels, idx) && !(m.land[idx] && m.shoreline[idx])
    ensures ShoresDone(m, labels, idx + 1)
  {
    hide IsShoreLabel;
  }

  lemma ShoresStart(m: TileMap, labels: seq<nat>, count: nat, starts: seq<nat>)
    requires m.Valid() && m.width > 0
    requires Labelling(m.width, Water(m.land), labels, count, [], |m.land|, starts)
    ensures |labels| == |m.land| && ShoresDone(m, labels, 0) && IsLabelling(m.width, Water(m.land), labels, count)
  {
    hide Spreading, Conn, First;
    LabelEnd(m.width, Water(m.land), labels, count, starts);
  }

  // ---- Work left ----

  ghost function Unlabelled(land: seq<bool>, labels: seq<nat>): set<nat>
    requires |labels| == |land|
  {
    set i | 0 <= i < |land| && !land[i] && labels[i] == 0
  }

  lemma LabelOne(land: seq<bool>, labels: seq<nat>, i: nat, c: nat)
    requires |labels| == |land| && i < |land| && !land[i] && labels[i] == 0 && c > 0
    ensures |Unlabelled(land, labels[i := c])| == |Unlabelled(land, labels)| - 1
  {
    assert Unlabelled(land, labels[i := c]) == Unlabelled(land, labels) - {i};
  }

  lemma NoneUnlabelled(land: seq<bool>, labels: seq<nat>)
    requires |labels| == |land| && forall i :: 0 <= i < |land| && !land[i] ==> labels[i] > 0
    ensures |Unlabelled(land, labels)| == 0
  {
    assert Unlabelled(land, labels) == {};
  }

  lemma QueueFront(w: nat, water: seq<bool>, labels: seq<nat>, count: nat, queue: seq<nat>, scan: nat, starts: seq<nat>)
    requires w > 0 && Labelling(w, water, labels, count, queue, scan, starts)
    ensures |labels| == |water| && scan <= |water|
    ensures forall i :: 0 <= i < |water| && labels[i] > 0 ==> water[i]
    ensures queue != [] ==> queue[0] < |water| && count > 0
    ensures forall i :: 0 <= i < scan && water[i] ==> labels[i] > 0
  {
    hide Conn, First, Next4;
  }

  // ---- The loop bodies both forms share ----

  /** Labels and queues the unlabelled water neighbours of the tile just taken from the queue. */
  method VisitWaterTile(w: nat, h: nat, land: seq<bool>, labels: seq<nat>, count: nat, t: nat, queue: seq<nat>,
                        ghost scan: nat, ghost starts: seq<nat>)
      returns (labels': seq<nat>, queue': seq<nat>)
    requires w > 0 && |land| == w * h && |labels| == |land|
    requires Labelling(w, Water(land), labels, count, [t] + queue, scan, starts)
    ensures |labels'| == |land| && Labelling(w, Water(land), labels', count, queue', scan, starts)
    ensures |Unlabelled(land, labels')| + |queue'| == |Unlabelled(land, labels)| + |queue|
  {
    hide X, Y, At, Cardinals, Next4, Labelling, Unlabelled;
    ghost var water := Water(land);
    labels', queue' := labels, queue;
    QueueFront(w, water, labels, count, [t] + queue, scan, starts);
    var around := Cardinals(w, h, t);
    CardinalsAre(w, h, t);
    for k := 0 to |around|
      invariant |labels'| == |land| && Labelling(w, water, labels', count, [t] + queue', scan, starts)
      invariant |Unlabelled(land, labels')| + |queue'| == |Unlabelled(land, labels)| + |queue|
      invariant forall j :: 0 <= j < k && !land[around[j]] ==> labels'[around[j]] > 0
    {
      var ni := around[k];
      if !land[ni] && labels'[ni] == 0 {
        LabelVisit(w, water, labels', count, [t] + queue', scan, starts, ni);
        LabelOne(land, labels', ni, count);
        labels' := labels'[ni := count];
        assert [t] + queue' + [ni] == [t] + (queue' + [ni]);
        queue' := queue' + [ni];
      }
    }
    QueueFront(w, water, labels', count, [t] + queue', scan, starts);
    forall j | 0 <= j < |water| && water[j] && Next4(w, t, j)
      ensures labels'[j] > 0
    {
      assert j in around;
    }
    LabelPop(w, water, labels', count, [t] + queue', scan, starts);
    assert ([t] + queue')[1..] == queue';
  }

  /** The least label among the water neighbours, for a shoreline land tile. */
  method InheritShore(m: TileMap, labels: seq<nat>, idx: nat, ghost count: nat) returns (labels': seq<nat>)
    requires m.Valid() && m.width > 0 && |labels| == |m.land| && idx < |m.land|
    requires IsLabelling(m.width, Water(m.land), labels, count) && ShoresDone(m, labels, idx)
    ensures |labels'| == |m.land|
    ensures IsLabelling(m.width, Water(m.land), labels', count) && ShoresDone(m, labels', idx + 1)
  {
    hide X, Y, At, Cardinals, Next4, IsLabelling, ShoresDone;
    if !m.land[idx] || !m.shoreline[idx] {
      ShoreSkip(m, labels, idx);
      return labels;
    }
    var best := 0;
    var around := Cardinals(m.width, m.height, idx);
    CardinalsAre(m.width, m.height, idx);
    WaterLabelled(m.width, m.land, labels, count);
    for k := 0 to |around|
      invariant forall j :: 0 <= j < k && !m.land[around[j]] ==> 0 < best <= labels[around[j]]
      invariant best > 0 ==> exists j :: 0 <= j < k && !m.land[around[j]] && labels[around[j]] == best
    {
      var ni := around[k];
      if !m.land[ni] {
        var c := labels[ni];
        if c > 0 && (best == 0 || c < best) {
          best := c;
        }
      }
    }
    assert IsShoreLabel(m.width, m.land, labels, idx, best);
    ShoreStep(m, labels, count, idx, best);
    return labels[idx := best];
  }

  lemma WaterLabelled(w: nat, land: seq<bool>, labels: seq<nat>, count: nat)
    requires w > 0 && IsLabelling(w, Water(land), labels, count)
    ensures |labels| == |land| && forall i :: 0 <= i < |land| && !land[i] ==> labels[i] > 0
  {
    hide Conn, First, Attained;
  }

  lemma EmptyResult(m: TileMap)
    requires m.Valid() && m.width * m.height == 0
    ensures IsResult(m, Components([], 0))
  {
  }

  // ---- One shot ----

  /** `WaterComponents::compute`. */
  method Compute(m: TileMap) returns (r: Components)
    requires m.Valid()
    ensures IsResult(m, r)
  {
    hide X, Y, At, Next4, Labelling, Unlabelled, IsLabelling, ShoresDone;
    var n := m.width * m.height;
    if n == 0 {
      EmptyResult(m);
      return Components([], 0);
    }
    var w, h := m.width, m.height;
    ghost var water := Water(m.land);
    var labels := seq(n, i => 0);
    var count := 0;
    ghost var starts: seq<nat> := [];
    var queue: seq<nat> := [];
    LabelStart(w, water, labels);
    for start := 0 to n
      invariant |labels| == n && |starts| == count
      invariant Labelling(w, water, labels, count, [], start, starts)
    {
      if m.land[start] || labels[start] != 0 {
        LabelSkip(w, water, labels, count, [], start, starts);
        continue;
      }
      LabelNew(w, water, labels, count, start, starts);
      count := count + 1;
      labels := labels[start := count];
      starts := starts + [start];
      queue := [start];
      while queue != []
        invariant |labels| == n && Labelling(w, water, labels, count, queue, start + 1, starts)
        decreases |Unlabelled(m.land, labels)| + |queue|
      {
        var t := queue[0];
        assert [t] + queue[1..] == queue;
        labels, queue := VisitWaterTile(w, h, m.land, labels, count, t, queue[1..], start + 1, starts);
      }
    }
    ShoresStart(m, labels, count, starts);
    for idx := 0 to n
      invariant |labels| == n && IsLabelling(w, water, labels, count) && ShoresDone(m, labels, idx)
    {
      labels := InheritShore(m, labels, idx, count);
    }
    return Components(labels, count);
  }

  // ---- Incremental ----

  datatype BuildPhase = LabelWater | InheritShores | Complete

  ghost function WaterCount(m: TileMap): nat
    requires m.Valid()
  {
    |Unlabelled(m.land, seq(|m.land|, i => 0))|
  }

  class WaterComponentsBuilder {
    const m: TileMap
    var components: seq<nat>
    var count: nat
    var queue: seq<nat>
    var scanIndex: nat
    var shoreIndex: nat
    var phase: BuildPhase
    var resultTaken: bool
    ghost var starts: seq<nat>

    ghost predicate Valid()
      reads this
    {
      && m.Valid()
      && (!resultTaken ==> |components| == |m.land|)
      && (resultTaken ==> phase == Complete)
      && (phase != Complete ==> m.width > 0)
      && (phase == LabelWater ==> Labelling(m.width, Water(m.land), components, count, queue, scanIndex, starts))
      && (phase == InheritShores ==>
            shoreIndex <= |m.land| && ShoresDone(m, components, shoreIndex)
            && IsLabelling(m.width, Water(m.land), components, count))
      && (phase == Complete && !resultTaken ==> IsResult(m, Components(components, count)))
    }

    /** The units of work until the result is ready. */
    ghost function WorkLeft(): nat
      requires Valid()
      reads this
    {
      match phase
      case LabelWater =>
        QueueFront(m.width, Water(m.land), components, count, queue, scanIndex, starts);
        |Unlabelled(m.land, components)| + |queue| + (|m.land| - scanIndex) + |m.land|
      case InheritShores => |m.land| - shoreIndex
      case Complete => 0
    }

    constructor (tiles: TileMap)
      requires tiles.Valid()
      ensures Valid() && m == tiles && !resultTaken
      ensures WorkLeft() == (if |tiles.land| == 0 then 0 else WaterCount(tiles) + 2 * |tiles.land|)
      ensures phase == (if |tiles.land| == 0 then Complete else LabelWater)
    {
      var n := tiles.width * tiles.height;
      if tiles.width > 0 {
        LabelStart(tiles.width, Water(tiles.land), seq(n, i => 0));
      }
      m := tiles;
      components := seq(n, i => 0);
      count, queue, scanIndex, shoreIndex := 0, [], 0, 0;
      phase := if n == 0 then Complete else LabelWater;
      resultTaken := false;
      starts := [];
      new;
      assert components == seq(|m.land|, i => 0);
    }

    // One unit of work, or a change of phase.
    method Unit() returns (worked: bool)
      requires Valid() && phase != Complete
      modifies this
      ensures Valid() && (!resultTaken <==> !old(resultTaken))
      ensures WorkLeft() == old(WorkLeft()) - (if worked then 1 else 0)
      ensures !worked ==> (old(phase) == LabelWater && phase == InheritShores) ||
                          (old(phase) == InheritShores && phase == Complete)
      ensures worked ==> phase == old(phase)
    {
      hide X, Y, At, Next4, Labelling, Unlabelled, IsLabelling, ShoresDone;
      var n := |m.land|;
      if phase == LabelWater {
        QueueFront(m.width, Water(m.land), components, count, queue, scanIndex, starts);
        if queue != [] {
          var t := queue[0];
          assert [t] + queue[1..] == queue;
          components, queue :=
            VisitWaterTile(m.width, m.height, m.land, components, count, t, queue[1..], scanIndex, starts);
          return true;
        } else if scanIndex < n {
          Scan();
          return true;
        } else {
          NoneUnlabelled(m.land, components);
          ShoresStart(m, components, count, starts);
          phase := InheritShores;
          shoreIndex := 0;
          return false;
        }
      } else {
        if shoreIndex < n {
          components := InheritShore(m, components, shoreIndex, count);
          shoreIndex := shoreIndex + 1;
          return true;
        } else {
          phase := Complete;
          return false;
        }
      }
    }

    method Scan()
      requires Valid() && phase == LabelWater && queue == [] && scanIndex < |m.land|
      modifies this
      ensures Valid() && phase == LabelWater && resultTaken == old(resultTaken)
      ensures WorkLeft() == old(WorkLeft()) - 1
    {
      hide X, Y, At, Next4, Labelling, Unlabelled, IsLabelling, ShoresDone;
      var start := scanIndex;
      QueueFront(m.width, Water(m.land), components, count, queue, scanIndex, starts);
      if !m.land[start] && components[start] == 0 {
        LabelNew(m.width, Water(m.land), components, count, start, starts);
        LabelOne(m.land, components, start, count + 1);
        count := count + 1;
        components := components[start := count];
        assert queue + [start] == [start];
        queue := queue + [start];
        starts := starts + [start];
      } else {
        LabelSkip(m.width, Water(m.land), components, count, [], start, starts);
      }
      scanIndex := scanIndex + 1;
    }

    /**
    `step`: at most `max(budget, 1)` units of work. The result comes exactly once, in the call whose
    budget exceeds the work left, and it is the one correct result.
    */
    method Step(budget: nat) returns (r: Option<Components>)
      requires Valid()
      modifies this
      ensures Valid()
      ensures old(phase) != Complete ==>
                && (r.Some? <==> old(WorkLeft()) < budget || (budget == 0 && old(WorkLeft()) == 0))
                && (r.None? ==> WorkLeft() == old(WorkLeft()) - (if budget == 0 then 1 else budget)
                                && phase != Complete && !resultTaken)
      ensures old(phase) == Complete ==> (r.Some? <==> !old(resultTaken)) && phase == Complete
      ensures r.Some? ==> IsResult(m, r.value) && resultTaken && components == []
      ensures old(resultTaken) ==> resultTaken && r.None?
    {
      hide Labelling, IsLabelling, ShoresDone, IsResult;
      if phase == Complete {
        if resultTaken {
          return None;
        }
        resultTaken := true;
        r := Some(Components(components, count));
        components := [];
        return;
      }
      var allowed := if budget >= 1 then budget else 1;
      var work := 0;
      while work < allowed && phase != Complete
        invariant Valid() && !resultTaken && work <= allowed
        invariant WorkLeft() + work == old(WorkLeft())
        invariant phase == Complete ==> work < allowed
        decreases WorkLeft(), (match phase case LabelWater => 2 case InheritShores => 1 case Complete => 0)
      {
        var worked := Unit();
        if worked {
          work := work + 1;
        }
      }
      if phase == Complete {
        resultTaken := true;
        r := Some(Components(components, count));
        components := [];
      } else {
        r := None;
      }
    }
  }

  ghost function Positive(budget: nat): nat {
    if budget < 1 then 1 else budget
  }

  // ---- The two forms agree ----

  ghost function Spent(budgets: seq<nat>): nat {
    if budgets == [] then 0 else Spent(budgets[..|budgets| - 1]) + Positive(budgets[|budgets| - 1])
  }

  lemma SpentNext(budgets: seq<nat>, k: nat)
    requires k < |budgets|
    ensures Spent(budgets[..k + 1]) == Spent(budgets[..k]) + Positive(budgets[k])
  {
    assert budgets[..k + 1][..k] == budgets[..k];
  }

  /**
  Whatever budgets the calls are given, exactly the call whose budgets first exceed twice the tiles plus
  the water tiles returns a result, and it is what the one-shot form computes.
  */
  method BothForms(tiles: TileMap, budgets: seq<nat>) returns (oneShot: Components, results: seq<Option<Components>>)
    requires tiles.Valid()
    ensures IsResult(tiles, oneShot) && |results| == |budgets|
    ensures forall k :: 0 <= k < |budgets| ==>
              var total := if |tiles.land| == 0 then 0 else WaterCount(tiles) + 2 * |tiles.land|;
              && (results[k].Some? <==> Spent(budgets[..k]) <= total < Spent(budgets[..k + 1]))
              && (results[k].Some? ==> results[k].value == oneShot)
  {
    hide IsResult, Unlabelled, Spent, Labelling, IsLabelling, ShoresDone;
    oneShot := Compute(tiles);
    var builder := new WaterComponentsBuilder(tiles);
    ghost var total := if |tiles.land| == 0 then 0 else WaterCount(tiles) + 2 * |tiles.land|;
    results := [];
    assert budgets[..0] == [];
    SpentNone();
    for k := 0 to |budgets|
      invariant |results| == k && fresh(builder) && builder.Valid() && builder.m == tiles
      invariant forall j :: 0 <= j < k ==>
                  && (results[j].Some? <==> Spent(budgets[..j]) <= total < Spent(budgets[..j + 1]))
                  && (results[j].Some? ==> results[j].value == oneShot)
      invariant if builder.resultTaken then total < Spent(budgets[..k])
                else builder.WorkLeft() + Spent(budgets[..k]) == total
    {
      SpentNext(budgets, k);
      var r := builder.Step(budgets[k]);
      if r.Some? {
        ResultUnique(tiles, r.value, oneShot);
      }
      results := results + [r];
    }
  }

  lemma SpentNone()
    ensures Spent([]) == 0
  {
  }
}
