/**
The dense bitset of sow-core/src/bitset.rs: 64-bit blocks grown on demand, an
ascending iterator over the set bits, and the sparse wire form.
*/
module Bitset {
  type Blocks = seq<bv64>

  // ---- One block: masks `1 << b` ----

  function Mask(b: bv64): bv64
    requires b < 64
  {
    1 << b
  }

  function Both(v: bv64, mask: bv64): bv64 {
    v & mask
  }

  function Join(v: bv64, mask: bv64): bv64 {
    v | mask
  }

  function Drop(v: bv64, mask: bv64): bv64 {
    v & !mask
  }

  predicate TestAt(v: bv64, b: bv64)
    requires b < 64
  {
    Both(v, Mask(b)) != 0
  }

  function SetAt(v: bv64, b: bv64): bv64
    requires b < 64
  {
    Join(v, Mask(b))
  }

  function ClearAt(v: bv64, b: bv64): bv64
    requires b < 64
  {
    Drop(v, Mask(b))
  }

  lemma MasksDisjoint(k: bv64, j: bv64)
    requires j < 64 && k < 64 && j != k
    ensures Both(Mask(k), Mask(j)) == 0
  {
  }

  lemma MaskNonzero(k: bv64)
    requires k < 64
    ensures Mask(k) != 0
  {
  }

  lemma OrDisjoint(v: bv64, a: bv64, b: bv64)
    requires a & b == 0
    ensures (v | a) & b == v & b
  {
  }

  lemma AndNotDisjoint(v: bv64, a: bv64, b: bv64)
    requires a & b == 0
    ensures (v & !a) & b == v & b
  {
  }

  lemma JoinOther(v: bv64, a: bv64, b: bv64)
    requires Both(a, b) == 0
    ensures Both(Join(v, a), b) == Both(v, b)
  {
    OrDisjoint(v, a, b);
  }

  lemma DropOther(v: bv64, a: bv64, b: bv64)
    requires Both(a, b) == 0
    ensures Both(Drop(v, a), b) == Both(v, b)
  {
    AndNotDisjoint(v, a, b);
  }

  lemma SameMask(v: bv64, a: bv64)
    requires a != 0
    ensures Both(Join(v, a), a) != 0 && Both(Drop(v, a), a) == 0
  {
  }

  lemma TestOther(v: bv64, k: bv64, j: bv64)
    requires j < 64 && k < 64 && j != k
    ensures TestAt(SetAt(v, k), j) == TestAt(v, j) == TestAt(ClearAt(v, k), j)
  {
    hide Mask, Both, Join, Drop;
    MasksDisjoint(k, j);
    JoinOther(v, Mask(k), Mask(j));
    DropOther(v, Mask(k), Mask(j));
  }

  lemma TestSame(v: bv64, k: bv64)
    requires k < 64
    ensures TestAt(SetAt(v, k), k) && !TestAt(ClearAt(v, k), k)
  {
    hide Mask, Both, Join, Drop;
    MaskNonzero(k);
    SameMask(v, Mask(k));
  }

  // Bit positions as machine words.
  function Pos(bit: nat): bv64
    requires bit < 64
  {
    (bit as bv7) as bv64
  }

  lemma Narrow(j: nat)
    requires j < 64
    ensures j as bv7 < 64 && (j as bv7) as nat == j
  {
  }

  lemma Widen(a: bv7, b: bv7)
    requires a < 64
    ensures a as bv64 < 64 && (a as bv64 == b as bv64 <==> a == b)
  {
  }

  lemma PosInjective(j: nat, k: nat)
    requires j < 64 && k < 64
    ensures Pos(j) < 64 && (Pos(j) == Pos(k) <==> j == k)
  {
    Narrow(j);
    Narrow(k);
    Widen(j as bv7, k as bv7);
  }

  predicate Bit(v: bv64, k: nat)
    requires k < 64
  {
    PosInjective(k, k);
    TestAt(v, Pos(k))
  }

  function WithBit(v: bv64, k: nat): (r: bv64)
    requires k < 64
    ensures forall j :: 0 <= j < 64 ==> (Bit(r, j) <==> j == k || Bit(v, j))
  {
    PosInjective(k, k);
    BitsOfSet(v, k);
    SetAt(v, Pos(k))
  }

  function WithoutBit(v: bv64, k: nat): (r: bv64)
    requires k < 64
    ensures forall j :: 0 <= j < 64 ==> (Bit(r, j) <==> j != k && Bit(v, j))
  {
    PosInjective(k, k);
    BitsOfClear(v, k);
    ClearAt(v, Pos(k))
  }

  lemma BitsOfSet(v: bv64, k: nat)
    requires k < 64
    ensures Pos(k) < 64
    ensures forall j :: 0 <= j < 64 ==> (Bit(SetAt(v, Pos(k)), j) <==> j == k || Bit(v, j))
  {
    hide Pos, TestAt, SetAt;
    PosInjective(k, k);
    forall j | 0 <= j < 64
      ensures Bit(SetAt(v, Pos(k)), j) <==> j == k || Bit(v, j)
    {
      PosInjective(j, k);
      if j == k {
        TestSame(v, Pos(k));
      } else {
        TestOther(v, Pos(k), Pos(j));
      }
    }
  }

  lemma BitsOfClear(v: bv64, k: nat)
    requires k < 64
    ensures Pos(k) < 64
    ensures forall j :: 0 <= j < 64 ==> (Bit(ClearAt(v, Pos(k)), j) <==> j != k && Bit(v, j))
  {
    hide Pos, TestAt, ClearAt;
    PosInjective(k, k);
    forall j | 0 <= j < 64
      ensures Bit(ClearAt(v, Pos(k)), j) <==> j != k && Bit(v, j)
    {
      PosInjective(j, k);
      if j == k {
        TestSame(v, Pos(k));
      } else {
        TestOther(v, Pos(k), Pos(j));
      }
    }
  }

  // ---- A block without set bits is zero ----

  // The bits below position `k` are clear.
  ghost predicate LowClear(v: bv64, k: bv64)
    requires k < 64
  {
    v & (Mask(k) - 1) == 0
  }

  lemma LowClearStart(v: bv64)
    ensures LowClear(v, 0)
  {
  }

  lemma LowClearStep(v: bv64, k: bv64)
    requires k < 63 && LowClear(v, k) && !TestAt(v, k)
    ensures LowClear(v, k + 1)
  {
  }

  lemma LowClearEnd(v: bv64)
    requires LowClear(v, 63) && !TestAt(v, 63)
    ensures v == 0
  {
  }

  lemma PosNext(k: nat)
    requires k < 63
    ensures Pos(k) < 63 && Pos(k + 1) == Pos(k) + 1
  {
    Narrow(k);
    Narrow(k + 1);
    assert (k + 1) as bv7 == k as bv7 + 1;
  }

  lemma PosEnds()
    ensures Pos(0) == 0 && Pos(63) == 63
  {
  }

  lemma {:induction false} NoLowBits(v: bv64, k: nat)
    requires k < 64 && forall j :: 0 <= j < k ==> !Bit(v, j)
    ensures Pos(k) < 64 && LowClear(v, Pos(k))
  {
    hide Pos, TestAt, LowClear;
    PosInjective(k, k);
    if k == 0 {
      PosEnds();
      LowClearStart(v);
    } else {
      NoLowBits(v, k - 1);
      assert !Bit(v, k - 1);
      PosNext(k - 1);
      LowClearStep(v, Pos(k - 1));
    }
  }

  lemma NoBits(v: bv64)
    requires forall j :: 0 <= j < 64 ==> !Bit(v, j)
    ensures v == 0
  {
    hide TestAt, LowClear, Pos;
    NoLowBits(v, 63);
    assert !Bit(v, 63);
    PosEnds();
    LowClearEnd(v);
  }

  /** `trailing_zeros`: the least set bit. */
  function TrailingZeros(v: bv64): (k: nat)
    requires v != 0
    ensures k < 64 && Bit(v, k) && forall j :: 0 <= j < k ==> !Bit(v, j)
  {
    assert exists k :: 0 <= k < 64 && Bit(v, k) by {
      if forall k :: 0 <= k < 64 ==> !Bit(v, k) {
        NoBits(v);
      }
    }
    FirstBit(v, 0)
  }

  function FirstBit(v: bv64, from: nat): (k: nat)
    requires exists k :: from <= k < 64 && Bit(v, k)
    ensures from <= k < 64 && Bit(v, k) && forall j :: from <= j < k ==> !Bit(v, j)
    decreases 64 - from
  {
    if Bit(v, from) then from else FirstBit(v, from + 1)
  }

  // ---- The blocks of a set ----

  predicate Has(blocks: Blocks, idx: nat) {
    idx / 64 < |blocks| && Bit(blocks[idx / 64], idx % 64)
  }

  function Zeros(n: nat): (r: Blocks)
    ensures |r| == n
  {
    seq(n, i => 0)
  }

  function Grown(blocks: Blocks, block: nat): (r: Blocks)
    ensures block < |r| && |r| >= |blocks|
  {
    if block >= |blocks| then blocks + Zeros(block + 1 - |blocks|) else blocks
  }

  function Inserted(blocks: Blocks, idx: nat): Blocks {
    var g := Grown(blocks, idx / 64);
    g[idx / 64 := WithBit(g[idx / 64], idx % 64)]
  }

  function Removed(blocks: Blocks, idx: nat): Blocks {
    if Has(blocks, idx) then blocks[idx / 64 := WithoutBit(blocks[idx / 64], idx % 64)] else blocks
  }

  lemma ZeroBit(k: nat)
    requires k < 64
    ensures !Bit(0, k)
  {
  }

  lemma SamePlace(i: nat, j: nat)
    ensures i / 64 == j / 64 && i % 64 == j % 64 <==> i == j
  {
    assert i == 64 * (i / 64) + i % 64;
    assert j == 64 * (j / 64) + j % 64;
  }

  lemma GrownHas(blocks: Blocks, block: nat, i: nat)
    ensures Has(Grown(blocks, block), i) == Has(blocks, i)
  {
    hide Bit;
    ZeroBit(i % 64);
  }

  /** `insert` adds exactly its index. */
  lemma HasInserted(blocks: Blocks, idx: nat, i: nat)
    ensures Has(Inserted(blocks, idx), i) <==> i == idx || Has(blocks, i)
  {
    hide Bit, WithBit, Grown;
    SamePlace(i, idx);
    GrownHas(blocks, idx / 64, i);
    assert Has(Grown(blocks, idx / 64), i) == Has(blocks, i);
  }

  /** `remove` takes away exactly its index. */
  lemma HasRemoved(blocks: Blocks, idx: nat, i: nat)
    ensures Has(Removed(blocks, idx), i) <==> i != idx && Has(blocks, i)
  {
    hide Bit, WithoutBit;
    SamePlace(i, idx);
  }

  // ---- The members as a set and as a list ----

  ghost function Members(blocks: Blocks): set<nat> {
    set i | 0 <= i < 64 * |blocks| && Has(blocks, i)
  }

  lemma MembersHas(blocks: Blocks, i: nat)
    ensures i in Members(blocks) <==> Has(blocks, i)
  {
    hide Bit;
    assert i == 64 * (i / 64) + i % 64;
  }

  lemma MembersInserted(blocks: Blocks, idx: nat)
    ensures Members(Inserted(blocks, idx)) == Members(blocks) + {idx}
  {
    hide Has, Inserted;
    forall i: nat
      ensures i in Members(Inserted(blocks, idx)) <==> i in Members(blocks) + {idx}
    {
      MembersHas(Inserted(blocks, idx), i);
      MembersHas(blocks, i);
      HasInserted(blocks, idx, i);
    }
  }

  lemma MembersRemoved(blocks: Blocks, idx: nat)
    ensures Members(Removed(blocks, idx)) == Members(blocks) - {idx}
  {
    hide Has, Removed;
    forall i: nat
      ensures i in Members(Removed(blocks, idx)) <==> i in Members(blocks) - {idx}
    {
      MembersHas(Removed(blocks, idx), i);
      MembersHas(blocks, i);
      HasRemoved(blocks, idx, i);
    }
  }

  predicate Ascending(s: seq<nat>) {
    forall i, j :: 0 <= i < j < |s| ==> s[i] < s[j]
  }

  lemma AscendingAppend(s: seq<nat>, x: nat)
    requires Ascending(s) && forall i :: i in s ==> i < x
    ensures Ascending(s + [x]) && forall i :: i in s + [x] <==> i in s || i == x
  {
    assert forall k :: 0 <= k < |s| ==> s[k] in s;
  }

  lemma AscendingInit(a: seq<nat>, init: seq<nat>, x: nat)
    requires a == init + [x] && Ascending(a)
    ensures Ascending(init)
    ensures forall i: nat {:trigger i in init} :: i in init <==> i in a && i != x
    ensures forall i: nat :: i in a ==> i <= x
  {
    assert a[|init|] == x;
    forall k | 0 <= k < |init|
      ensures a[k] == init[k] && init[k] < x
    {
    }
  }

  /** A strictly ascending list is determined by its elements. */
  lemma {:induction false} AscendingUnique(a: seq<nat>, b: seq<nat>)
    requires Ascending(a) && Ascending(b) && forall i: nat :: i in a <==> i in b
    ensures a == b
  {
    assert a != [] ==> a[0] in a;
    assert b != [] ==> b[0] in b;
    if a != [] && b != [] {
      var c, x := a[..|a| - 1], a[|a| - 1];
      var d, y := b[..|b| - 1], b[|b| - 1];
      assert a == c + [x] && b == d + [y];
      AscendingInit(a, c, x);
      AscendingInit(b, d, y);
      assert x in a && y in b;
      assert x == y;
      AscendingUnique(c, d);
    }
  }

  // The members below `n`, ascending.
  function OnesBelow(blocks: Blocks, n: nat): seq<nat> {
    if n == 0 then [] else OnesBelow(blocks, n - 1) + (if Has(blocks, n - 1) then [n - 1] else [])
  }

  lemma {:induction false} OnesBelowAre(blocks: Blocks, n: nat)
    ensures Ascending(OnesBelow(blocks, n))
    ensures forall i: nat :: i in OnesBelow(blocks, n) <==> i < n && Has(blocks, i)
  {
    hide Has;
    if n > 0 {
      OnesBelowAre(blocks, n - 1);
      AscendingAppend(OnesBelow(blocks, n - 1), n - 1);
    }
  }

  /** What `ones()` yields. */
  function Ones(blocks: Blocks): seq<nat> {
    OnesBelow(blocks, 64 * |blocks|)
  }

  /** `ones()` lists the members, all of them, strictly ascending. */
  lemma OnesAre(blocks: Blocks)
    ensures Ascending(Ones(blocks))
    ensures forall i: nat :: i in Ones(blocks) <==> Has(blocks, i)
  {
    hide Bit;
    OnesBelowAre(blocks, 64 * |blocks|);
    HasBounded(blocks);
  }

  /** Going through the sparse wire form keeps the members. */
  lemma WireRoundTrip(blocks: Blocks, blocks': Blocks)
    requires forall i: nat :: Has(blocks', i) <==> i in Ones(blocks)
    ensures Ones(blocks') == Ones(blocks) && Members(blocks') == Members(blocks)
  {
    hide Has, Ones;
    OnesAre(blocks);
    OnesAre(blocks');
    AscendingUnique(Ones(blocks'), Ones(blocks));
    forall i: nat
      ensures i in Members(blocks') <==> i in Members(blocks)
    {
      MembersHas(blocks', i);
      MembersHas(blocks, i);
    }
  }

  // ---- The struct ----

  class DenseBitSet {
    var blocks: Blocks

    constructor ()
      ensures blocks == []
    {
      blocks := [];
    }

    method Insert(idx: nat) returns (added: bool)
      modifies this
      ensures blocks == Inserted(old(blocks), idx)
      ensures added <==> !Has(old(blocks), idx)
      ensures forall i: nat :: Has(blocks, i) <==> i == idx || Has(old(blocks), i)
    {
      hide Bit, WithBit;
      forall i: nat
        ensures Has(Inserted(blocks, idx), i) <==> i == idx || Has(blocks, i)
      {
        HasInserted(blocks, idx, i);
      }
      GrownHas(blocks, idx / 64, idx);
      var block, bit := idx / 64, idx % 64;
      if block >= |blocks| {
        blocks := blocks + Zeros(block + 1 - |blocks|);
      }
      var old_ := blocks[block];
      blocks := blocks[block := WithBit(old_, bit)];
      added := !Bit(old_, bit);
    }

    method Remove(idx: nat) returns (removed: bool)
      modifies this
      ensures blocks == Removed(old(blocks), idx)
      ensures removed <==> Has(old(blocks), idx)
      ensures forall i: nat :: Has(blocks, i) <==> i != idx && Has(old(blocks), i)
    {
      hide Bit, WithoutBit;
      forall i: nat
        ensures Has(Removed(blocks, idx), i) <==> i != idx && Has(blocks, i)
      {
        HasRemoved(blocks, idx, i);
      }
      var block, bit := idx / 64, idx % 64;
      if block < |blocks| {
        var old_ := blocks[block];
        if Bit(old_, bit) {
          blocks := blocks[block := WithoutBit(old_, bit)];
          return true;
        }
      }
      return false;
    }

    method Contains(idx: nat) returns (has: bool)
      ensures has == Has(blocks, idx)
    {
      hide Bit;
      var block := idx / 64;
      if block < |blocks| {
        has := Bit(blocks[block], idx % 64);
      } else {
        has := false;
      }
    }

    /** The iterator: block by block, clearing the lowest set bit of a local copy. */
    method Iterate() returns (r: seq<nat>)
      ensures r == Ones(blocks)
    {
      hide Bit, WithoutBit, Ones, TrailingZeros;
      r := [];
      for b := 0 to |blocks|
        invariant Ascending(r) && forall i: nat :: i in r <==> i < 64 * b && Has(blocks, i)
      {
        var bits := IterateBlock(blocks[b], b);
        AppendBlock(r, bits, blocks, b);
        r := r + bits;
      }
      OnesAre(blocks);
      HasBounded(blocks);
      AscendingUnique(r, Ones(blocks));
    }

    method IterateBlock(block: bv64, b: nat) returns (r: seq<nat>)
      ensures Ascending(r) && forall i: nat :: i in r <==> i / 64 == b && Bit(block, i % 64)
    {
      hide Bit, WithoutBit, TrailingZeros;
      var val := block;
      r := [];
      while val != 0
        invariant forall k :: 0 <= k < 64 && Bit(val, k) ==> Bit(block, k)
        invariant forall i: nat :: i in r <==> i / 64 == b && Bit(block, i % 64) && !Bit(val, i % 64)
        invariant Ascending(r) && forall i :: i in r && val != 0 ==> i < 64 * b + TrailingZeros(val)
        decreases if val == 0 then 0 else 64 - TrailingZeros(val)
      {
        var trailing := TrailingZeros(val);
        ghost var before, last := val, r;
        val := WithoutBit(val, trailing);
        r := r + [64 * b + trailing];
        NextBit(before, trailing);
        AscendingAppend(last, 64 * b + trailing);
        forall i: nat
          ensures i in r <==> i / 64 == b && Bit(block, i % 64) && !Bit(val, i % 64)
        {
          assert i in r <==> i in last || i == 64 * b + trailing;
          SamePlace(i, 64 * b + trailing);
        }
      }
      forall i: nat {
        ZeroBit(i % 64);
      }
    }
  }

  lemma HasBounded(blocks: Blocks)
    ensures forall i: nat :: Has(blocks, i) ==> i < 64 * |blocks|
  {
    hide Bit;
    forall i: nat | Has(blocks, i)
      ensures i < 64 * |blocks|
    {
      assert i == 64 * (i / 64) + i % 64;
    }
  }

  // Clearing the lowest bit moves `trailing_zeros` up.
  lemma NextBit(v: bv64, k: nat)
    requires v != 0 && k == TrailingZeros(v)
    ensures WithoutBit(v, k) != 0 ==> TrailingZeros(WithoutBit(v, k)) > k
  {
    hide Bit;
  }

  lemma AppendBlock(r: seq<nat>, bits: seq<nat>, blocks: Blocks, b: nat)
    requires b < |blocks|
    requires Ascending(r) && forall i: nat :: i in r <==> i < 64 * b && Has(blocks, i)
    requires Ascending(bits) && forall i: nat :: i in bits <==> i / 64 == b && Bit(blocks[b], i % 64)
    ensures Ascending(r + bits) && forall i: nat :: i in r + bits <==> i < 64 * (b + 1) && Has(blocks, i)
  {
    hide Bit;
    forall i: nat
      ensures i in r + bits <==> i < 64 * (b + 1) && Has(blocks, i)
    {
      assert i in r + bits <==> i in r || i in bits;
      assert i / 64 == b <==> 64 * b <= i < 64 * (b + 1);
    }
    forall i, j | 0 <= i < j < |r + bits|
      ensures (r + bits)[i] < (r + bits)[j]
    {
      if i < |r| && j >= |r| {
        assert r[i] in r && bits[j - |r|] in bits;
      }
    }
  }

  /** Deserialization: presize for the largest index, then insert each. */
  method FromSparse(indices: seq<nat>) returns (s: DenseBitSet)
    ensures fresh(s) && forall i: nat :: Has(s.blocks, i) <==> i in indices
  {
    hide Bit, Inserted, Has;
    s := new DenseBitSet();
    if indices != [] {
      var max := indices[0];
      for k := 1 to |indices|
        invariant forall j :: 0 <= j < k ==> indices[j] <= max
      {
        if indices[k] > max {
          max := indices[k];
        }
      }
      s.blocks := Zeros(max / 64 + 1);
    }
    ZerosHaveNothing(s.blocks);
    for k := 0 to |indices|
      invariant forall i: nat :: Has(s.blocks, i) <==> i in indices[..k]
    {
      var _ := s.Insert(indices[k]);
    }
    assert indices[..|indices|] == indices;
  }

  lemma ZerosHaveNothing(blocks: Blocks)
    requires forall b :: 0 <= b < |blocks| ==> blocks[b] == 0
    ensures forall i: nat :: !Has(blocks, i)
  {
    hide Bit;
    forall i: nat
      ensures !Has(blocks, i)
    {
      ZeroBit(i % 64);
    }
  }
}
