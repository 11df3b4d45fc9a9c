/**
Territory ownership: `GameState` of sow-core/src/game.rs over the owner map of
sow-core/src/map.rs.

Changing the owner of one tile updates the tile counts, coordinate sums,
conquest records and border bitsets of the players involved, and then swallows
the land that the change has enclosed. All of these are indexes into one plain
table, the owner of each tile.
*/
module Territory {
  import opened Wrappers
  import opened Grid
  import Bitset

  // ---- Tile states ----

  /** One more than `PLAYER_ID_MASK`. The bits above hold other flags. */
  const OWNER_LIMIT: nat := 0x1000

  function OwnerOf(tile: nat): (id: nat)
    ensures id < OWNER_LIMIT
  {
    tile % OWNER_LIMIT
  }

  ghost function Flags(tile: nat): nat {
    tile / OWNER_LIMIT
  }

  function WithOwner(tile: nat, id: nat): (r: nat)
    ensures OwnerOf(r) == OwnerOf(id) && Flags(r) == Flags(tile)
  {
    tile - tile % OWNER_LIMIT + id % OWNER_LIMIT
  }

  function Owners(state: seq<nat>): (r: seq<nat>)
    ensures |r| == |state| && forall i :: 0 <= i < |r| ==> r[i] == OwnerOf(state[i])
  {
    seq(|state|, i requires 0 <= i < |state| => OwnerOf(state[i]))
  }

  // ---- Players ----

  datatype Player = Player(id: nat, isBot: bool, sumX: nat, sumY: nat, tileCount: nat, border: Bitset.Blocks,
                           conquests: map<nat, nat>, hasSpawned: bool)

  function SatSub(a: nat, b: nat): nat {
    if a >= b then a - b else 0
  }

  ghost function Conquered(p: Player, from: nat): nat {
    if from in p.conquests then p.conquests[from] else 0
  }

  function Lose(p: Player, x: nat, y: nat, i: nat): Player {
    p.(sumX := SatSub(p.sumX, x), sumY := SatSub(p.sumY, y), tileCount := SatSub(p.tileCount, 1),
       border := Bitset.Removed(p.border, i))
  }

  function Gain(p: Player, x: nat, y: nat, from: nat): Player {
    p.(sumX := p.sumX + x, sumY := p.sumY + y, tileCount := p.tileCount + 1,
       conquests := if from == 0 then p.conquests
                    else p.conquests[from := (if from in p.conquests then p.conquests[from] else 0) + 1])
  }

  /** `player`: through the lookup table, by id. */
  function PlayerIndex(players: seq<Player>, lookup: seq<Option<nat>>, id: nat): Option<nat> {
    if id < |lookup| && lookup[id].Some? && lookup[id].value < |players| then lookup[id] else None
  }

  /** The lookup table and the list of players index each other. */
  ghost predicate Registered(players: seq<Player>, lookup: seq<Option<nat>>) {
    && (forall k :: 0 <= k < |players| ==>
          0 < players[k].id < OWNER_LIMIT && players[k].id < |lookup| && lookup[players[k].id] == Some(k))
    && (forall id :: 0 <= id < |lookup| && lookup[id].Some? ==>
          lookup[id].value < |players| && players[lookup[id].value].id == id)
  }

  lemma IndexIs(players: seq<Player>, lookup: seq<Option<nat>>, id: nat)
    requires Registered(players, lookup)
    ensures forall k: nat :: k < |players| ==> (players[k].id == id <==> PlayerIndex(players, lookup, id) == Some(k))
  {
  }

  /** Only the records changed, not who is who. */
  ghost predicate SamePlayers(before: seq<Player>, after: seq<Player>) {
    && |before| == |after|
    && forall k :: 0 <= k < |before| ==>
         && after[k].id == before[k].id && after[k].isBot == before[k].isBot
         && after[k].hasSpawned == before[k].hasSpawned
  }

  lemma StillRegistered(before: seq<Player>, after: seq<Player>, lookup: seq<Option<nat>>, vanilla: bool, id: nat)
    requires Registered(before, lookup) && SamePlayers(before, after)
    ensures Registered(after, lookup)
    ensures Passive(after, lookup, vanilla, id) == Passive(before, lookup, vanilla, id)
    ensures VanillaBot(after, vanilla, id) <==> VanillaBot(before, vanilla, id)
  {
    PassiveIs(before, lookup, vanilla, id);
    PassiveIs(after, lookup, vanilla, id);
  }

  /** A tribe that must not swallow player territory: a bot under the vanilla rules. */
  predicate Passive(players: seq<Player>, lookup: seq<Option<nat>>, vanilla: bool, id: nat) {
    var k := PlayerIndex(players, lookup, id);
    k.Some? && players[k.value].isBot && vanilla
  }

  /** Player `id` is a bot and the rules are the vanilla ones. */
  ghost predicate VanillaBot(players: seq<Player>, vanilla: bool, id: nat) {
    vanilla && exists k :: 0 <= k < |players| && players[k].id == id && players[k].isBot
  }

  lemma PassiveIs(players: seq<Player>, lookup: seq<Option<nat>>, vanilla: bool, id: nat)
    requires Registered(players, lookup)
    ensures Passive(players, lookup, vanilla, id) <==> VanillaBot(players, vanilla, id)
  {
    IndexIs(players, lookup, id);
  }

  // ---- Tallies ----

  datatype Measure = Tiles | SumX | SumY

  ghost function Weigh(w: nat, m: Measure, i: nat): nat {
    match m
    case Tiles => 1
    case SumX => if w == 0 then 0 else X(w, i)
    case SumY => if w == 0 then 0 else Y(w, i)
  }

  /** The sum of a measure over the tiles a player owns. */
  ghost function Total(w: nat, owners: seq<nat>, id: nat, m: Measure): nat {
    if owners == [] then 0 else
      var last := |owners| - 1;
      Total(w, owners[..last], id, m) + (if owners[last] == id then Weigh(w, m, last) else 0)
  }

  lemma {:induction false} TotalUpdate(w: nat, owners: seq<nat>, i: nat, new_: nat, id: nat, m: Measure)
    requires i < |owners|
    ensures Total(w, owners[i := new_], id, m) + (if owners[i] == id then Weigh(w, m, i) else 0) ==
              Total(w, owners, id, m) + (if new_ == id then Weigh(w, m, i) else 0)
  {
    hide Weigh;
    var last := |owners| - 1;
    if i == last {
      assert owners[i := new_][..last] == owners[..last];
    } else {
      TotalUpdate(w, owners[..last], i, new_, id, m);
      assert owners[i := new_][..last] == owners[..last][i := new_];
    }
  }

  ghost function Owned(owners: seq<nat>, id: nat): set<nat> {
    set i | 0 <= i < |owners| && owners[i] == id
  }

  /** The tile total is the number of tiles owned. */
  lemma {:induction false} TilesCounted(w: nat, owners: seq<nat>, id: nat)
    ensures Total(w, owners, id, Tiles) == |Owned(owners, id)|
  {
    if owners == [] {
      assert Owned(owners, id) == {};
    } else {
      var last := |owners| - 1;
      TilesCounted(w, owners[..last], id);
      assert Owned(owners, id) == Owned(owners[..last], id) + (if owners[last] == id then {last} else {});
    }
  }

  /** The recorded counters agree with the owner table. */
  ghost predicate Tallied(w: nat, owners: seq<nat>, p: Player) {
    && p.tileCount == Total(w, owners, p.id, Tiles)
    && p.sumX == Total(w, owners, p.id, SumX)
    && p.sumY == Total(w, owners, p.id, SumY)
  }

  /** Each counter is large enough for what losing a tile takes from it, so no subtraction saturates. */
  lemma NoSaturation(w: nat, owners: seq<nat>, p: Player, i: nat)
    requires Tallied(w, owners, p) && w > 0 && i < |owners| && owners[i] == p.id
    ensures p.tileCount >= 1 && p.sumX >= X(w, i) && p.sumY >= Y(w, i)
  {
    hide X, Y;
    TotalUpdate(w, owners, i, p.id + 1, p.id, Tiles);
    TotalUpdate(w, owners, i, p.id + 1, p.id, SumX);
    TotalUpdate(w, owners, i, p.id + 1, p.id, SumY);
  }

  lemma {:induction false} TotalAtMost(w: nat, owners: seq<nat>, id: nat, m: Measure, each: nat)
    requires forall i: nat :: i < |owners| ==> Weigh(w, m, i) <= each
    ensures Total(w, owners, id, m) <= |owners| * each
  {
    hide Weigh;
    if owners != [] {
      var last := |owners| - 1;
      TotalAtMost(w, owners[..last], id, m, each);
      assert |owners| * each == last * each + each;
    }
  }

  /** On a map whose size and width fit 32 bits, the counters fit the machine widths used for them. */
  lemma TalliesFit(w: nat, h: nat, owners: seq<nat>, p: Player)
    requires Tallied(w, owners, p) && |owners| == w * h < 0x1_0000_0000
    ensures p.tileCount < 0x1_0000_0000
    ensures p.sumX < 0x1_0000_0000_0000_0000 && p.sumY < 0x1_0000_0000_0000_0000
  {
    hide Total;
    var n := |owners|;
    forall i: nat | i < n
      ensures Weigh(w, SumX, i) <= n && Weigh(w, SumY, i) <= n
    {
      hide *;
      CoordinatesFit(w, h, i);
    }
    TotalAtMost(w, owners, p.id, Tiles, 1);
    TotalAtMost(w, owners, p.id, SumX, n);
    TotalAtMost(w, owners, p.id, SumY, n);
    Square(n);
  }

  lemma CoordinatesFit(w: nat, h: nat, i: nat)
    requires i < w * h
    ensures Weigh(w, SumX, i) <= w * h && Weigh(w, SumY, i) <= w * h
  {
    hide X, Y, At;
    CoordsOf(w, h, i);
    Scale(w, 1, h);
    Scale(h, 1, w);
  }

  lemma Square(n: nat)
    requires n < 0x1_0000_0000
    ensures n * n < 0x1_0000_0000_0000_0000
  {
    Scale(n, n, 0xFFFF_FFFF);
    assert 0xFFFF_FFFF * n < 0x1_0000_0000_0000_0000;
  }

  // ---- Borders ----

  /** Definition of a border tile: owned by the player, next to a tile that is not. */
  ghost predicate IsBorder(w: nat, owners: seq<nat>, id: nat, i: nat) {
    && w > 0 && i < |owners| && owners[i] == id
    && exists j: nat :: j < |owners| && Near8(w, i, j) && owners[j] != id
  }

  /** The border bitset holds exactly the border tiles. */
  ghost predicate Bordered(w: nat, owners: seq<nat>, p: Player) {
    forall t: nat :: t in Bitset.Members(p.border) <==> IsBorder(w, owners, p.id, t)
  }

  /** What `border_coords` walks over: every border tile, once, in ascending order. */
  lemma BorderList(w: nat, owners: seq<nat>, p: Player)
    requires Bordered(w, owners, p)
    ensures Bitset.Ascending(Bitset.Ones(p.border))
    ensures forall t: nat :: t in Bitset.Ones(p.border) <==> IsBorder(w, owners, p.id, t)
  {
    hide IsBorder, Bitset.Ones, Bitset.Members, Bitset.Has;
    Bitset.OnesAre(p.border);
    forall t: nat
      ensures t in Bitset.Ones(p.border) <==> IsBorder(w, owners, p.id, t)
    {
      Bitset.MembersHas(p.border, t);
    }
  }

  // In the middle of an ownership change: the tiles already looked at follow the new table.
  ghost predicate BorderedTo(w: nat, before: seq<nat>, after: seq<nat>, done: set<nat>, p: Player) {
    forall t: nat :: t in Bitset.Members(p.border) <==> IsBorder(w, if t in done then after else before, p.id, t)
  }

  // A tile of another player, before and after: its being a border tile of `id` does not change.
  lemma BorderKept(w: nat, owners: seq<nat>, i: nat, new_: nat, id: nat, t: nat)
    requires i < |owners| && owners[i] != id && new_ != id
    ensures IsBorder(w, owners[i := new_], id, t) <==> IsBorder(w, owners, id, t)
  {
    hide Near8;
    var after := owners[i := new_];
    if IsBorder(w, owners, id, t) {
      var j: nat :| j < |owners| && Near8(w, t, j) && owners[j] != id;
      assert after[j] != id;
    }
    if IsBorder(w, after, id, t) {
      var j: nat :| j < |owners| && Near8(w, t, j) && after[j] != id;
      assert owners[j] != id;
    }
  }

  // Away from the changed tile nothing changes.
  lemma BorderFar(w: nat, owners: seq<nat>, i: nat, new_: nat, id: nat, t: nat)
    requires w > 0 && i < |owners| && t != i && !Near8(w, i, t)
    ensures IsBorder(w, owners[i := new_], id, t) <==> IsBorder(w, owners, id, t)
  {
    hide Near8;
    if Near8(w, t, i) {
      Near8Sym(w, t, i);
    }
  }

  // ---- One tile changes hands ----

  /** What the first half of `set_tile_owner` makes of a player's record. */
  ghost function Taken(w: nat, owners: seq<nat>, i: nat, new_: nat, p: Player): Player
    requires w > 0 && i < |owners|
  {
    if p.id == owners[i] then Lose(p, X(w, i), Y(w, i), i)
    else if p.id == new_ then
      var q := Gain(p, X(w, i), Y(w, i), owners[i]);
      if IsBorder(w, owners[i := new_], new_, i) then q.(border := Bitset.Inserted(q.border, i)) else q
    else p
  }

  lemma TakenTallied(w: nat, owners: seq<nat>, i: nat, new_: nat, p: Player)
    requires w > 0 && i < |owners| && owners[i] != new_ && Tallied(w, owners, p)
    ensures Tallied(w, owners[i := new_], Taken(w, owners, i, new_, p))
  {
    hide X, Y, Bitset.Removed, Bitset.Inserted, IsBorder, Total;
    if p.id == owners[i] {
      NoSaturation(w, owners, p, i);
    }
    TotalUpdate(w, owners, i, new_, p.id, Tiles);
    TotalUpdate(w, owners, i, new_, p.id, SumX);
    TotalUpdate(w, owners, i, new_, p.id, SumY);
  }

  lemma TakenBordered(w: nat, owners: seq<nat>, i: nat, new_: nat, p: Player)
    requires w > 0 && i < |owners| && owners[i] != new_ && Bordered(w, owners, p)
    ensures BorderedTo(w, owners, owners[i := new_], {i}, Taken(w, owners, i, new_, p))
  {
    hide X, Y, Bitset.Removed, Bitset.Inserted, Bitset.Members, Near8;
    Bitset.MembersRemoved(p.border, i);
    Bitset.MembersInserted(p.border, i);
  }

  // ---- The neighbours' borders ----

  // A neighbour of the loser has become a border tile.
  lemma LoserNeighbour(w: nat, owners: seq<nat>, i: nat, new_: nat, done: set<nat>, n: nat, p: Player)
    requires w > 0 && i < |owners| && n < |owners| && Near8(w, i, n) && owners[i] != new_
    requires owners[n] == owners[i] == p.id && BorderedTo(w, owners, owners[i := new_], done, p)
    ensures BorderedTo(w, owners, owners[i := new_], done + {n}, p.(border := Bitset.Inserted(p.border, n)))
  {
    hide Bitset.Inserted, Bitset.Members;
    Bitset.MembersInserted(p.border, n);
    Near8Sym(w, i, n);
    assert IsBorder(w, owners[i := new_], p.id, n) by {
      hide Near8;
      assert owners[i := new_][i] != p.id;
    }
    hide Near8;
  }

  // A neighbour of the winner may have stopped being one; if it is one, it already was.
  lemma WinnerNeighbour(w: nat, owners: seq<nat>, i: nat, new_: nat, done: set<nat>, n: nat, p: Player)
    requires w > 0 && i < |owners| && n < |owners| && Near8(w, i, n) && owners[i] != new_ && n !in done
    requires owners[n] == new_ == p.id && BorderedTo(w, owners, owners[i := new_], done, p)
    ensures IsBorder(w, owners[i := new_], new_, n) ==> BorderedTo(w, owners, owners[i := new_], done + {n}, p)
    ensures !IsBorder(w, owners[i := new_], new_, n) ==>
              BorderedTo(w, owners, owners[i := new_], done + {n}, p.(border := Bitset.Removed(p.border, n)))
  {
    hide Bitset.Removed, Bitset.Members, Near8;
    Bitset.MembersRemoved(p.border, n);
    Near8Sym(w, i, n);
    assert IsBorder(w, owners, new_, n);
    assert n in Bitset.Members(p.border);
    hide IsBorder;
  }

  // Nothing to do for everybody else.
  lemma OtherNeighbour(w: nat, owners: seq<nat>, i: nat, new_: nat, done: set<nat>, n: nat, p: Player)
    requires w > 0 && i < |owners| && n < |owners| && n != i && n !in done
    requires owners[n] != p.id || (owners[i] != p.id && new_ != p.id)
    requires BorderedTo(w, owners, owners[i := new_], done, p)
    ensures BorderedTo(w, owners, owners[i := new_], done + {n}, p)
  {
    hide Near8, Bitset.Members;
    if owners[n] == p.id {
      BorderKept(w, owners, i, new_, p.id, n);
    }
    assert IsBorder(w, owners[i := new_], p.id, n) == IsBorder(w, owners, p.id, n);
  }

  /** What the neighbour loop makes of a player's record at neighbour `n`. */
  ghost function Refreshed(w: nat, owners: seq<nat>, i: nat, new_: nat, n: nat, p: Player): Player
    requires i < |owners| && n < |owners|
  {
    if owners[n] == owners[i] == p.id then p.(border := Bitset.Inserted(p.border, n))
    else if owners[n] == new_ == p.id && !IsBorder(w, owners[i := new_], new_, n) then
      p.(border := Bitset.Removed(p.border, n))
    else p
  }

  lemma NeighbourStep(w: nat, owners: seq<nat>, i: nat, new_: nat, done: set<nat>, n: nat, p: Player)
    requires w > 0 && i < |owners| && n < |owners| && Near8(w, i, n) && n !in done && i in done && owners[i] != new_
    requires BorderedTo(w, owners, owners[i := new_], done, p)
    ensures BorderedTo(w, owners, owners[i := new_], done + {n}, Refreshed(w, owners, i, new_, n, p))
  {
    hide Near8, BorderedTo, IsBorder, Bitset.Inserted, Bitset.Removed;
    if owners[n] == owners[i] == p.id {
      LoserNeighbour(w, owners, i, new_, done, n, p);
    } else if owners[n] == new_ == p.id {
      WinnerNeighbour(w, owners, i, new_, done, n, p);
    } else {
      OtherNeighbour(w, owners, i, new_, done, n, p);
    }
  }

  ghost predicate OnlyBorders(before: seq<Player>, after: seq<Player>) {
    |before| == |after| && forall k: nat :: k < |before| ==> after[k] == before[k].(border := after[k].border)
  }

  ghost predicate AllBorderedTo(w: nat, before: seq<nat>, after: seq<nat>, done: set<nat>, players: seq<Player>) {
    forall k: nat :: k < |players| ==> BorderedTo(w, before, after, done, players[k])
  }

  lemma AllNeighbourStep(w: nat, owners: seq<nat>, i: nat, new_: nat, done: set<nat>, n: nat, ps: seq<Player>,
                         qs: seq<Player>)
    requires w > 0 && i < |owners| && n < |owners| && Near8(w, i, n) && n !in done && i in done && owners[i] != new_
    requires AllBorderedTo(w, owners, owners[i := new_], done, ps)
    requires |ps| == |qs| && forall k: nat :: k < |ps| ==> qs[k] == Refreshed(w, owners, i, new_, n, ps[k])
    ensures AllBorderedTo(w, owners, owners[i := new_], done + {n}, qs)
  {
    hide Near8, BorderedTo, Refreshed;
    forall k: nat | k < |qs|
      ensures BorderedTo(w, owners, owners[i := new_], done + {n}, qs[k])
    {
      NeighbourStep(w, owners, i, new_, done, n, ps[k]);
    }
  }

  // After all neighbours, the borders follow the new table.
  lemma NeighboursDone(w: nat, owners: seq<nat>, i: nat, new_: nat, done: set<nat>, p: Player)
    requires w > 0 && i < |owners|
    requires forall t: nat :: t in done <==> t == i || (t < |owners| && Near8(w, i, t))
    requires BorderedTo(w, owners, owners[i := new_], done, p)
    ensures Bordered(w, owners[i := new_], p)
  {
    hide Near8, Bitset.Members;
    forall t: nat
      ensures t in Bitset.Members(p.border) <==> IsBorder(w, owners[i := new_], p.id, t)
    {
      if t !in done && t < |owners| {
        BorderFar(w, owners, i, new_, p.id, t);
      }
    }
  }

  // ---- The enclosure cascade ----

  /** A foreign land neighbour of `i` with only `id`'s tiles around it. */
  ghost predicate Enclosed(w: nat, land: seq<bool>, passive: bool, owners: seq<nat>, i: nat, id: nat, j: nat)
    requires w > 0 && |land| == |owners|
  {
    && j < |owners| && Near8(w, i, j) && owners[j] != id && land[j] && !(passive && owners[j] != 0)
    && Surrounded(w, owners, id, j)
  }

  ghost predicate Surrounded(w: nat, owners: seq<nat>, id: nat, j: nat)
    requires w > 0
  {
    forall k: nat :: k < |owners| && Near8(w, j, k) ==> owners[k] == id
  }

  /** The owner table after `set_tile_owner`: the tile itself, and what it has enclosed. */
  ghost function Captured(w: nat, land: seq<bool>, passive: bool, owners: seq<nat>, i: nat, id: nat): (r: seq<nat>)
    requires w > 0 && i < |owners| == |land|
    ensures |r| == |owners|
  {
    if owners[i] == id then owners
    else if id == 0 then owners[i := 0]
    else Swallowed(w, land, passive, owners[i := id], i, id)
  }

  ghost function Swallowed(w: nat, land: seq<bool>, passive: bool, owners: seq<nat>, i: nat, id: nat): (r: seq<nat>)
    requires w > 0 && |owners| == |land|
    ensures |r| == |owners|
    ensures forall t: nat :: t < |r| ==> r[t] == if Enclosed(w, land, passive, owners, i, id, t) then id else owners[t]
  {
    seq(|owners|, t requires 0 <= t < |owners| =>
      if Enclosed(w, land, passive, owners, i, id, t) then id else owners[t])
  }

  /**
  Every tile after a change, from the old table alone: the tile itself and the foreign land around it whose
  other neighbours were all the new owner's already (a passive tribe takes only free land); nothing else.
  */
  lemma CapturedExactly(w: nat, land: seq<bool>, passive: bool, owners: seq<nat>, i: nat, id: nat, t: nat)
    requires w > 0 && i < |owners| == |land| && owners[i] != id && t < |owners|
    ensures Captured(w, land, passive, owners, i, id)[t] ==
              if t == i || (
                && id != 0 && Near8(w, i, t) && owners[t] != id && land[t] && (passive ==> owners[t] == 0)
                && forall k: nat :: k < |owners| && k != i && Near8(w, t, k) ==> owners[k] == id)
              then id else owners[t]
  {
    hide Near8;
    NotNearSelf(w, i);
    if id != 0 && t != i {
      var after := owners[i := id];
      assert Surrounded(w, after, id, t) <==>
             forall k: nat :: k < |owners| && k != i && Near8(w, t, k) ==> owners[k] == id by {
        assert forall k: nat :: k < |owners| && Near8(w, t, k) ==> after[k] == if k == i then id else owners[k];
      }
    }
  }

  /**
  The rule of the cascade in plain terms. A vanilla bot changes no other tile that had an owner; anybody else takes
  every foreign land neighbour whose other neighbours are all its own, owned or not; nothing else changes.
  */
  ghost predicate Annexed(w: nat, land: seq<bool>, bot: bool, owners: seq<nat>, i: nat, id: nat, after: seq<nat>)
    requires w > 0 && i < |owners| == |land| == |after|
  {
    && after[i] == id
    && (bot ==> forall t: nat :: t < |owners| && t != i && owners[t] != 0 ==> after[t] == owners[t])
    && (id != 0 && owners[i] != id ==>
          forall t: nat :: t < |owners| && t != i && (bot ==> owners[t] == 0) && Caged(w, land, owners, i, id, t) ==>
            after[t] == id)
    && (forall t: nat :: t < |owners| && t != i && after[t] != owners[t] ==> Caged(w, land, owners, i, id, t))
  }

  /** Foreign land next to `i` that but for `i` has only tiles of `id` around it. */
  ghost predicate Caged(w: nat, land: seq<bool>, owners: seq<nat>, i: nat, id: nat, t: nat)
    requires w > 0 && |owners| == |land|
  {
    && t < |owners| && Near8(w, i, t) && owners[t] != id && land[t]
    && forall k: nat :: k < |owners| && k != i && Near8(w, t, k) ==> owners[k] == id
  }

  lemma Annexes(w: nat, land: seq<bool>, bot: bool, owners: seq<nat>, i: nat, id: nat)
    requires w > 0 && i < |owners| == |land|
    ensures Annexed(w, land, bot, owners, i, id, Captured(w, land, bot, owners, i, id))
  {
    hide Near8, Captured;
    var after := Captured(w, land, bot, owners, i, id);
    if owners[i] == id {
      NothingCaptured(w, land, bot, owners, i, id);
    } else {
      forall t: nat | t < |owners|
        ensures after[t] == if t == i || (id != 0 && Caged(w, land, owners, i, id, t) && (bot ==> owners[t] == 0))
                            then id else owners[t]
      {
        CapturedExactly(w, land, bot, owners, i, id, t);
      }
    }
  }

  lemma NothingCaptured(w: nat, land: seq<bool>, bot: bool, owners: seq<nat>, i: nat, id: nat)
    requires w > 0 && i < |owners| == |land| && owners[i] == id
    ensures Captured(w, land, bot, owners, i, id) == owners
  {
  }

  /** Enclosed tiles are never next to each other. */
  lemma EnclosedApart(w: nat, land: seq<bool>, passive: bool, owners: seq<nat>, i: nat, id: nat, j: nat, k: nat)
    requires w > 0 && |land| == |owners|
    requires Enclosed(w, land, passive, owners, i, id, j) && Enclosed(w, land, passive, owners, i, id, k)
    ensures !Near8(w, j, k)
  {
    hide Near8;
  }

  // The eight neighbours as four pairs of adjacent tiles around the ring.
  ghost function Slot(w: nat, i: nat, j: nat): nat
    requires w > 0
  {
    var dx, dy := X(w, j) - X(w, i), Y(w, j) - Y(w, i);
    if dx == 1 && dy <= 0 then 0
    else if dy == -1 then 1
    else if dx == -1 then 2
    else 3
  }

  lemma SameSlot(w: nat, i: nat, j: nat, k: nat)
    requires w > 0 && Near8(w, i, j) && Near8(w, i, k) && j != k && Slot(w, i, j) == Slot(w, i, k)
    requires X(w, i) != X(w, j) || Y(w, i) != Y(w, j)
    requires X(w, i) != X(w, k) || Y(w, i) != Y(w, k)
    ensures Near8(w, j, k)
  {
    hide X, Y;
  }

  /** At most four tiles are enclosed at once, although eight are looked at. */
  lemma AtMostFour(w: nat, h: nat, land: seq<bool>, passive: bool, owners: seq<nat>, i: nat, id: nat, s: seq<nat>)
    requires w > 0 && |land| == |owners| == w * h && i < w * h && Distinct(s)
    requires forall j: nat :: j in s ==> Enclosed(w, land, passive, owners, i, id, j)
    ensures |s| <= 4
  {
    hide X, Y, Surrounded, Slot;
    var slots := seq(|s|, k requires 0 <= k < |s| => Slot(w, i, s[k]));
    forall a, b | 0 <= a < b < |slots|
      ensures slots[a] != slots[b]
    {
      assert s[a] in s && s[b] in s;
      OtherCoords(w, h, i, s[a]);
      OtherCoords(w, h, i, s[b]);
      if slots[a] == slots[b] {
        SameSlot(w, i, s[a], s[b]);
        EnclosedApart(w, land, passive, owners, i, id, s[a], s[b]);
      }
    }
    forall a | 0 <= a < |slots|
      ensures slots[a] < 4
    {
      SlotSmall(w, i, s[a]);
    }
    DistinctBound(slots, 4);
  }

  lemma OtherCoords(w: nat, h: nat, i: nat, j: nat)
    requires w > 0 && i < w * h && j < w * h && i != j
    ensures X(w, i) != X(w, j) || Y(w, i) != Y(w, j)
  {
    hide X, Y;
    if X(w, i) == X(w, j) && Y(w, i) == Y(w, j) {
      SameCoords(w, h, i, j);
    }
  }

  lemma SlotSmall(w: nat, i: nat, j: nat)
    requires w > 0
    ensures Slot(w, i, j) < 4
  {
    hide X, Y;
  }

  /** Taking an enclosed tile encloses nothing further, so the recursion stops at depth two. */
  lemma NestedCapturesNothing(w: nat, land: seq<bool>, passive: bool, owners: seq<nat>, j: nat, id: nat)
    requires w > 0 && j < |owners| == |land| && id != 0 && owners[j] != id && Surrounded(w, owners, id, j)
    ensures Captured(w, land, passive, owners, j, id) == owners[j := id]
  {
    hide Near8;
    var after := owners[j := id];
    forall t: nat
      ensures !Enclosed(w, land, passive, after, j, id, t)
    {
    }
    assert Captured(w, land, passive, owners, j, id) == after;
  }

  // The tiles the new owner does not have yet; every captured tile leaves this set.
  ghost function Lacking(owners: seq<nat>, id: nat): set<nat> {
    set t | 0 <= t < |owners| && owners[t] != id
  }

  lemma CaptureProgress(owners: seq<nat>, i: nat, id: nat, taken: seq<nat>, now: seq<nat>)
    requires i < |owners| && owners[i] != id && AllTo(owners[i := id], taken, id, now)
    ensures Lacking(now, id) < Lacking(owners, id)
  {
    assert now[i] == id;
    assert i in Lacking(owners, id) && i !in Lacking(now, id);
  }

  // The tiles captured so far, on top of the table right after the change.
  ghost predicate AllTo(before: seq<nat>, taken: seq<nat>, id: nat, after: seq<nat>) {
    |after| == |before| && forall t: nat :: t < |before| ==> after[t] == if t in taken then id else before[t]
  }

  lemma CaptureNext(w: nat, land: seq<bool>, passive: bool, owners: seq<nat>, i: nat, id: nat, taken: seq<nat>, j: nat,
                    now: seq<nat>)
    requires w > 0 && |land| == |owners| && id != 0
    requires AllTo(owners, taken, id, now) && j !in taken && Enclosed(w, land, passive, owners, i, id, j)
    ensures Captured(w, land, passive, now, j, id) == now[j := id]
    ensures AllTo(owners, taken + [j], id, now[j := id]) && now[j] != id
  {
    hide Near8, Captured;
    var more := taken + [j];
    assert forall t: nat {:trigger t in more} :: t in more <==> t in taken || t == j;
    assert Surrounded(w, now, id, j);
    NestedCapturesNothing(w, land, passive, now, j, id);
  }

  lemma CaptureAll(w: nat, land: seq<bool>, passive: bool, owners: seq<nat>, i: nat, id: nat, taken: seq<nat>,
                   now: seq<nat>)
    requires w > 0 && |land| == |owners| && AllTo(owners, taken, id, now)
    requires forall j: nat :: j in taken <==> Enclosed(w, land, passive, owners, i, id, j)
    ensures now == Swallowed(w, land, passive, owners, i, id)
  {
    hide Enclosed;
  }

  // ---- Spawning ----

  const SPAWN_RADIUS: int := 5

  /** The tiles of the map within the spawn radius. */
  ghost function Disc(w: nat, h: nat, cx: int, cy: int): set<nat>
    requires w > 0
  {
    set t | 0 <= t < w * h && InDisc(w, cx, cy, t)
  }

  ghost predicate InDisc(w: nat, cx: int, cy: int, t: nat)
    requires w > 0
  {
    Square2(X(w, t) - cx) + Square2(Y(w, t) - cy) <= SPAWN_RADIUS * SPAWN_RADIUS
  }

  ghost function Square2(a: int): int {
    a * a
  }

  ghost predicate InBox(w: nat, cx: int, cy: int, t: nat)
    requires w > 0
  {
    -SPAWN_RADIUS <= X(w, t) - cx <= SPAWN_RADIUS && -SPAWN_RADIUS <= Y(w, t) - cy <= SPAWN_RADIUS
  }

  // The part of the disc before column `dx` of row `dy`.
  ghost predicate DiscRow(w: nat, cx: int, cy: int, dy: int, dx: int, t: nat)
    requires w > 0
  {
    InDisc(w, cx, cy, t) && (Y(w, t) - cy < dy || (Y(w, t) - cy == dy && X(w, t) - cx < dx))
  }

  lemma RowNext(w: nat, h: nat, cx: int, cy: int, dy: int, dx: int)
    requires w > 0
    ensures var x, y := cx + dx, cy + dy;
            forall t: nat :: t < w * h ==>
              (DiscRow(w, cx, cy, dy, dx + 1, t) <==>
               (DiscRow(w, cx, cy, dy, dx, t) ||
                (dx * dx + dy * dy <= SPAWN_RADIUS * SPAWN_RADIUS && 0 <= x < w && 0 <= y < h && t == At(w, x, y))))
  {
    hide At, X, Y, Square2;
    var x, y := cx + dx, cy + dy;
    assert Square2(dx) + Square2(dy) == dx * dx + dy * dy by {
      Squares(dx);
      Squares(dy);
    }
    forall t: nat | t < w * h
      ensures DiscRow(w, cx, cy, dy, dx + 1, t) <==>
              (DiscRow(w, cx, cy, dy, dx, t) ||
                (dx * dx + dy * dy <= SPAWN_RADIUS * SPAWN_RADIUS && 0 <= x < w && 0 <= y < h && t == At(w, x, y)))
    {
      CoordsOf(w, h, t);
      if 0 <= x < w && 0 <= y < h {
        AtIs(w, h, x, y);
      }
    }
  }

  lemma Squares(a: int)
    ensures Square2(a) == a * a
  {
  }

  lemma SquareGrows(a: int, r: int)
    requires a > r >= 0
    ensures Square2(a) == Square2(-a) > r * r
  {
    assert a * a == r * r + (a - r) * (a + r);
  }

  lemma SquareBound(a: int, r: int)
    requires r >= 0 && Square2(a) <= r * r
    ensures -r <= a <= r
  {
    hide Square2;
    if a > r {
      SquareGrows(a, r);
    } else if -a > r {
      SquareGrows(-a, r);
    }
  }

  lemma SquarePositive(a: int)
    ensures Square2(a) >= 0
  {
  }

  lemma DiscBox(w: nat, cx: int, cy: int, t: nat)
    requires w > 0 && InDisc(w, cx, cy, t)
    ensures InBox(w, cx, cy, t)
  {
    hide X, Y, Square2;
    SquarePositive(X(w, t) - cx);
    SquarePositive(Y(w, t) - cy);
    SquareBound(X(w, t) - cx, SPAWN_RADIUS);
    SquareBound(Y(w, t) - cy, SPAWN_RADIUS);
  }

  lemma RowEnd(w: nat, cx: int, cy: int, dy: int, t: nat)
    requires w > 0
    ensures DiscRow(w, cx, cy, dy, SPAWN_RADIUS + 1, t) <==> DiscRow(w, cx, cy, dy + 1, -SPAWN_RADIUS, t)
  {
    hide X, Y, InDisc;
    if InDisc(w, cx, cy, t) {
      DiscBox(w, cx, cy, t);
    }
  }

  lemma RowEnds(w: nat, cx: int, cy: int, dy: int)
    requires w > 0
    ensures var end, next := SPAWN_RADIUS + 1, dy + 1;
            forall t: nat :: DiscRow(w, cx, cy, dy, end, t) <==> DiscRow(w, cx, cy, next, -SPAWN_RADIUS, t)
  {
    hide DiscRow;
    var end, next := SPAWN_RADIUS + 1, dy + 1;
    forall t: nat
      ensures DiscRow(w, cx, cy, dy, end, t) <==> DiscRow(w, cx, cy, next, -SPAWN_RADIUS, t)
    {
      RowEnd(w, cx, cy, dy, t);
    }
  }

  lemma DiscEnds(w: nat, h: nat, cx: int, cy: int)
    requires w > 0
    ensures forall t: nat :: t in Disc(w, h, cx, cy) <==>
              t < w * h && DiscRow(w, cx, cy, SPAWN_RADIUS + 1, -SPAWN_RADIUS, t)
  {
    hide X, Y, InDisc;
    forall t: nat
      ensures InDisc(w, cx, cy, t) <==> DiscRow(w, cx, cy, SPAWN_RADIUS + 1, -SPAWN_RADIUS, t)
    {
      if InDisc(w, cx, cy, t) {
        DiscBox(w, cx, cy, t);
      }
    }
  }

  /** Free land among the tiles seen is the player's; what else changed is land it has enclosed. */
  ghost predicate Spawning(w: nat, land: seq<bool>, before: seq<nat>, now: seq<nat>, pid: nat, seen: set<nat>)
    requires w > 0
  {
    && |before| == |now| == |land|
    && (forall t: nat :: t < |now| && t in seen && land[t] && before[t] == 0 ==> now[t] == pid)
    && (forall t: nat :: t < |now| && now[t] != before[t] ==>
          now[t] == pid && land[t] && ((t in seen && before[t] == 0) || Surrounded(w, now, pid, t)))
  }

  lemma SpawnStarts(w: nat, land: seq<bool>, owners: seq<nat>, pid: nat)
    requires w > 0 && |owners| == |land|
    ensures Spawning(w, land, owners, owners, pid, {})
  {
  }

  lemma SpawnSkips(w: nat, land: seq<bool>, before: seq<nat>, now: seq<nat>, pid: nat, seen: set<nat>, i: nat)
    requires w > 0 && Spawning(w, land, before, now, pid, seen) && i < |now| && !(now[i] == 0 && land[i])
    ensures Spawning(w, land, before, now, pid, seen + {i})
  {
    hide Surrounded;
  }

  lemma SpawnClaims(w: nat, land: seq<bool>, passive: bool, before: seq<nat>, now: seq<nat>, pid: nat, seen: set<nat>,
                    i: nat)
    requires w > 0 && Spawning(w, land, before, now, pid, seen) && i < |now| && now[i] == 0 && land[i]
    ensures Spawning(w, land, before, Captured(w, land, passive, now, i, pid), pid, seen + {i})
  {
    hide Near8;
    var after := Captured(w, land, passive, now, i, pid);
    assert forall t: nat :: t < |now| ==> after[t] == now[t] || after[t] == pid;
    forall t: nat | t < |now| && after[t] != before[t]
      ensures after[t] == pid && land[t] && ((t in seen + {i} && before[t] == 0) || Surrounded(w, after, pid, t))
    {
      if t == i {
        assert before[i] == 0 || now[i] != before[i];
      }
    }
  }

  // ---- Conquest records ----

  /** Every tile the new owner takes from another player is credited to it, and to nobody else. */
  ghost predicate Credited(w: nat, before: seq<nat>, after: seq<nat>, id: nat, p: Player, q: Player) {
    && q.id == p.id
    && (p.id != id ==> q.conquests == p.conquests)
    && (p.id == id ==> forall from: nat ::
          if from == 0 || from == id then Conquered(q, from) == Conquered(p, from)
          else Conquered(q, from) + Total(w, after, from, Tiles) == Conquered(p, from) + Total(w, before, from, Tiles))
  }

  lemma TakenCredited(w: nat, owners: seq<nat>, i: nat, new_: nat, p: Player)
    requires w > 0 && i < |owners| && owners[i] != new_ && p.id != 0
    ensures Credited(w, owners, owners[i := new_], new_, p, Taken(w, owners, i, new_, p))
  {
    hide X, Y, Bitset.Removed, Bitset.Inserted, IsBorder, Total;
    forall from: nat
      ensures Total(w, owners[i := new_], from, Tiles) + (if owners[i] == from then 1 else 0) ==
                Total(w, owners, from, Tiles) + (if new_ == from then 1 else 0)
    {
      TotalUpdate(w, owners, i, new_, from, Tiles);
    }
  }

  ghost predicate AllCredited(w: nat, before: seq<nat>, after: seq<nat>, id: nat, ps: seq<Player>, qs: seq<Player>) {
    |ps| == |qs| && forall k: nat :: k < |ps| ==> Credited(w, before, after, id, ps[k], qs[k])
  }

  lemma CreditedTrans(w: nat, a: seq<nat>, b: seq<nat>, c: seq<nat>, id: nat,
                      ps: seq<Player>, qs: seq<Player>, rs: seq<Player>)
    requires AllCredited(w, a, b, id, ps, qs) && AllCredited(w, b, c, id, qs, rs)
    ensures AllCredited(w, a, c, id, ps, rs)
  {
    hide Total, Conquered, Credited;
    forall k: nat | k < |ps|
      ensures Credited(w, a, c, id, ps[k], rs[k])
    {
      CreditedStep(w, a, b, c, id, ps[k], qs[k], rs[k]);
    }
  }

  lemma CreditedStep(w: nat, a: seq<nat>, b: seq<nat>, c: seq<nat>, id: nat, p: Player, q: Player, r: Player)
    requires Credited(w, a, b, id, p, q) && Credited(w, b, c, id, q, r)
    ensures Credited(w, a, c, id, p, r)
  {
    hide Total, Conquered;
    if p.id == id {
      forall from: nat
        ensures if from == 0 || from == id then Conquered(r, from) == Conquered(p, from)
                else Conquered(r, from) + Total(w, c, from, Tiles) == Conquered(p, from) + Total(w, a, from, Tiles)
      {
        assert Conquered(q, from) == Conquered(q, from);
      }
    }
  }

  // ---- The list of changed tiles ----

  /** What a map copy keeps of a tile: its state word and its upgrade level. */
  type Cell = (nat, nat)

  /** What a map copy makes of a drained list: entries are applied in order. */
  function Patched(tiles: seq<Cell>, patch: seq<(nat, Cell)>): (r: seq<Cell>)
    ensures |r| == |tiles|
    decreases |patch|
  {
    if patch == [] then tiles else
      var (i, cell) := patch[0];
      Patched(if i < |tiles| then tiles[i := cell] else tiles, patch[1..])
  }

  /** Lists that queue up between two frames are applied as one. */
  lemma {:induction false} PatchesJoin(tiles: seq<Cell>, a: seq<(nat, Cell)>, b: seq<(nat, Cell)>)
    ensures Patched(tiles, a + b) == Patched(Patched(tiles, a), b)
    decreases |a|
  {
    if a == [] {
      assert a + b == b;
    } else {
      var (i, cell) := a[0];
      assert (a + b)[1..] == a[1..] + b;
      PatchesJoin(if i < |tiles| then tiles[i := cell] else tiles, a[1..], b);
    }
  }

  const MAX_LEVEL: nat := 0xFFFF_FFFF

  function Cells(state: seq<nat>, upgrades: seq<nat>): (r: seq<Cell>)
    requires |state| == |upgrades|
    ensures |r| == |state| && forall i :: 0 <= i < |r| ==> r[i] == (state[i], upgrades[i])
  {
    seq(|state|, i requires 0 <= i < |state| => (state[i], upgrades[i]))
  }

  /** Every tile that differs from the last emptying of the list is in it. */
  ghost predicate Tracked(base: seq<Cell>, state: seq<nat>, upgrades: seq<nat>, dirty: seq<nat>) {
    && |base| == |state| == |upgrades| && (forall k :: 0 <= k < |dirty| ==> dirty[k] < |state|)
    && forall i: nat :: i < |state| && i !in dirty ==> base[i] == (state[i], upgrades[i])
  }

  function Entries(state: seq<nat>, upgrades: seq<nat>, dirty: seq<nat>): (r: seq<(nat, Cell)>)
    requires |state| == |upgrades| && forall k :: 0 <= k < |dirty| ==> dirty[k] < |state|
    ensures |r| == |dirty|
    ensures forall k :: 0 <= k < |r| ==> r[k] == (dirty[k], (state[dirty[k]], upgrades[dirty[k]]))
  {
    seq(|dirty|, k requires 0 <= k < |dirty| => (dirty[k], (state[dirty[k]], upgrades[dirty[k]])))
  }

  /** Patching only the listed tiles reproduces the whole map. */
  lemma {:induction false} PatchReproduces(base: seq<Cell>, state: seq<nat>, upgrades: seq<nat>, dirty: seq<nat>)
    requires Tracked(base, state, upgrades, dirty)
    ensures Patched(base, Entries(state, upgrades, dirty)) == Cells(state, upgrades)
    decreases |dirty|
  {
    var entries := Entries(state, upgrades, dirty);
    if dirty == [] {
      assert base == Cells(state, upgrades);
    } else {
      var next := base[dirty[0] := (state[dirty[0]], upgrades[dirty[0]])];
      assert dirty == [dirty[0]] + dirty[1..];
      PatchReproduces(next, state, upgrades, dirty[1..]);
      assert entries[1..] == Entries(state, upgrades, dirty[1..]);
    }
  }

  lemma TrackChange(base: seq<Cell>, state: seq<nat>, upgrades: seq<nat>, dirty: seq<nat>, i: nat, tile: nat,
                    level: nat)
    requires Tracked(base, state, upgrades, dirty) && i < |state|
    ensures Tracked(base, state[i := tile], upgrades[i := level], dirty + [i])
  {
    var more := dirty + [i];
    assert forall j: nat {:trigger j in more} :: j in more <==> j in dirty || j == i;
  }

  lemma TrackTile(base: seq<Cell>, state: seq<nat>, upgrades: seq<nat>, dirty: seq<nat>, i: nat, tile: nat)
    requires Tracked(base, state, upgrades, dirty) && i < |state|
    ensures Tracked(base, state[i := tile], upgrades, dirty + [i])
  {
    TrackChange(base, state, upgrades, dirty, i, tile, upgrades[i]);
    assert upgrades[i := upgrades[i]] == upgrades;
  }

  // ---- The game state ----

  ghost predicate Sound(w: nat, owners: seq<nat>, players: seq<Player>) {
    forall k: nat :: k < |players| ==> Tallied(w, owners, players[k]) && Bordered(w, owners, players[k])
  }

  class GameState {
    const width: nat
    const height: nat
    const land: seq<bool>
    const vanilla: bool
    var state: seq<nat>
    var upgrades: seq<nat>
    var dirtyTiles: seq<nat>
    var players: seq<Player>
    var playerLookup: seq<Option<nat>>
    /** The tile states when `dirtyTiles` was last emptied. */
    ghost var emitted: seq<Cell>

    /** In every reachable state the tallies, borders, lookup table and change list are exact. */
    ghost predicate Inv()
      reads this
    {
      && |land| == |state| == width * height
      && Registered(players, playerLookup)
      && Sound(width, Owners(state), players)
      && Tracked(emitted, state, upgrades, dirtyTiles)
    }

    constructor (width: nat, height: nat, land: seq<bool>, vanilla: bool)
      requires |land| == width * height
      ensures Inv() && players == [] && forall i :: 0 <= i < |state| ==> state[i] == 0
    {
      this.width, this.height, this.land, this.vanilla := width, height, land, vanilla;
      state := seq(width * height, i => 0);
      upgrades := seq(width * height, i => 0);
      emitted := seq(width * height, i => (0, 0));
      dirtyTiles, players, playerLookup := [], [], [];
    }

    /**
    Appends the player and makes its id find it. Every index stays exact just when the id is in range and new and
    the record already fits the map, as that of a player without tiles does (`OwnsNothing`).
    */
    method RegisterPlayer(p: Player)
      requires Inv()
      modifies this`players, this`playerLookup
      ensures players == old(players) + [p]
      ensures PlayerIndex(players, playerLookup, p.id) == Some(|old(players)|)
      ensures |playerLookup| == if p.id < |old(playerLookup)| then |old(playerLookup)| else p.id + 1
      ensures forall k: nat :: k < |playerLookup| && k != p.id ==>
                playerLookup[k] == if k < |old(playerLookup)| then old(playerLookup)[k] else None
      ensures Inv() <==>
                && 0 < p.id < OWNER_LIMIT && PlayerIndex(old(players), old(playerLookup), p.id) == None
                && Tallied(width, Owners(state), p) && Bordered(width, Owners(state), p)
    {
      hide Tallied, Bordered, Tracked;
      var index := |players|;
      players := players + [p];
      if p.id >= |playerLookup| {
        playerLookup := playerLookup + seq(p.id + 1 - |playerLookup|, i => None);
      }
      playerLookup := playerLookup[p.id := Some(index)];
      assert players[index] == p;
    }

    method OwnerId(x: nat, y: nat) returns (id: nat)
      requires Inv() && x < width && y < height
      ensures At(width, x, y) < |state| && id == Owners(state)[At(width, x, y)]
    {
      AtIs(width, height, x, y);
      return OwnerOf(state[At(width, x, y)]);
    }

    method SetOwnerId(i: nat, id: nat)
      requires i < |state| && id < OWNER_LIMIT && Tracked(emitted, state, upgrades, dirtyTiles)
      modifies this`state, this`dirtyTiles
      ensures Owners(state) == Owners(old(state))[i := id] && SameFlags(old(state), state)
      ensures Tracked(emitted, state, upgrades, dirtyTiles) && old(dirtyTiles) <= dirtyTiles
    {
      hide Tracked;
      var tile := WithOwner(state[i], id);
      TrackTile(emitted, state, upgrades, dirtyTiles, i, tile);
      if state[i] != tile {
        state := state[i := tile];
        dirtyTiles := dirtyTiles + [i];
      }
    }

    /** Scan the neighbours for one that is not the player's. */
    method IsBorderTile(i: nat, id: nat) returns (border: bool)
      requires i < |state| == width * height
      ensures border <==> IsBorder(width, Owners(state), id, i)
    {
      hide Around, Near8;
      CoordsOf(width, height, i);
      if OwnerOf(state[i]) != id {
        return false;
      }
      var around := Around(width, height, i, ALL_AROUND);
      NeighboursOf(width, height, i);
      for k := 0 to |around|
        invariant forall j :: 0 <= j < k ==> Owners(state)[around[j]] == id
      {
        if OwnerOf(state[around[k]]) != id {
          assert Owners(state)[around[k]] != id;
          return true;
        }
      }
      return false;
    }

    /** The two players' counters, the owner table and the tile's own place in the new border. */
    method TakeTile(x: nat, y: nat, oldOwner: nat, newOwner: nat)
      requires Inv() && x < width && y < height && newOwner < OWNER_LIMIT
      requires At(width, x, y) < |state| && oldOwner == Owners(state)[At(width, x, y)] != newOwner
      modifies this`players, this`state, this`dirtyTiles
      ensures Owners(state) == Owners(old(state))[At(width, x, y) := newOwner]
      ensures SameFlags(old(state), state) && |old(players)| == |players|
      ensures Tracked(emitted, state, upgrades, dirtyTiles) && old(dirtyTiles) <= dirtyTiles
      ensures forall k: nat :: k < |players| ==>
                players[k] == Taken(width, Owners(old(state)), At(width, x, y), newOwner, old(players)[k])
    {
      hide Sound, Tracked, X, Y, At, IsBorder, Bitset.Inserted, Bitset.Removed, Lose, Gain, SameFlags;
      AtIs(width, height, x, y);
      var i := At(width, x, y);
      var loser := PlayerIndex(players, playerLookup, oldOwner);
      IndexIs(players, playerLookup, oldOwner);
      if oldOwner != 0 && loser.Some? {
        players := players[loser.value := Lose(players[loser.value], x, y, i)];
      }
      var winner := PlayerIndex(players, playerLookup, newOwner);
      IndexIs(old(players), playerLookup, newOwner);
      if newOwner != 0 && winner.Some? {
        players := players[winner.value := Gain(players[winner.value], x, y, oldOwner)];
      }
      SetOwnerId(i, newOwner);
      if newOwner != 0 {
        var border := IsBorderTile(i, newOwner);
        if border && winner.Some? {
          var p := players[winner.value];
          players := players[winner.value := p.(border := Bitset.Inserted(p.border, i))];
        }
      }
    }

    method RefreshNeighbour(n: nat, i: nat, oldOwner: nat, newOwner: nat, ghost owners: seq<nat>)
      requires |state| == width * height && Registered(players, playerLookup)
      requires i < |owners| && n < |owners| && n != i && oldOwner == owners[i] != newOwner
      requires Owners(state) == owners[i := newOwner]
      modifies this`players
      ensures OnlyBorders(old(players), players) && Registered(players, playerLookup)
      ensures forall k: nat :: k < |players| ==>
                players[k] == Refreshed(width, owners, i, newOwner, n, old(players)[k])
    {
      hide IsBorder, Bitset.Inserted, Bitset.Removed;
      var nOwner := OwnerOf(state[n]);
      assert nOwner == Owners(state)[n] == owners[n];
      if nOwner == oldOwner && oldOwner != 0 {
        var loser := PlayerIndex(players, playerLookup, oldOwner);
        if loser.Some? {
          var p := players[loser.value];
          players := players[loser.value := p.(border := Bitset.Inserted(p.border, n))];
        }
      } else if nOwner == newOwner && newOwner != 0 {
        var border := IsBorderTile(n, newOwner);
        var winner := PlayerIndex(players, playerLookup, newOwner);
        if !border && winner.Some? {
          var p := players[winner.value];
          players := players[winner.value := p.(border := Bitset.Removed(p.border, n))];
        }
      }
    }

    /** The neighbours of a tile that changed hands enter or leave the two borders. */
    method RefreshNeighbours(around: seq<nat>, i: nat, oldOwner: nat, newOwner: nat, ghost owners: seq<nat>)
      requires |state| == width * height && Registered(players, playerLookup)
      requires width > 0 && i < |owners| && oldOwner == owners[i] != newOwner && Owners(state) == owners[i := newOwner]
      requires around == Around(width, height, i, ALL_AROUND)
      requires AllBorderedTo(width, owners, Owners(state), {i}, players)
      modifies this`players
      ensures OnlyBorders(old(players), players) && Registered(players, playerLookup)
      ensures forall k: nat :: k < |players| ==> Bordered(width, Owners(state), players[k])
    {
      hide Around, Near8, BorderedTo, Bordered, AllBorderedTo, Registered, Refreshed;
      NeighboursOf(width, height, i);
      NotNearSelf(width, i);
      ghost var done := {i};
      for k := 0 to |around|
        invariant OnlyBorders(old(players), players) && Registered(players, playerLookup)
        invariant AllBorderedTo(width, owners, Owners(state), done, players)
        invariant forall t: nat :: t in done <==> t == i || t in around[..k]
      {
        var n := around[k];
        assert around[..k + 1] == around[..k] + [n];
        assert n !in around[..k];
        ghost var was := players;
        RefreshNeighbour(n, i, oldOwner, newOwner, owners);
        AllNeighbourStep(width, owners, i, newOwner, done, n, was, players);
        done := done + {n};
      }
      assert around[..|around|] == around;
      AllNeighboursDone(width, owners, i, newOwner, done, players);
    }

    /** One tile changes hands; every index follows. */
    method ChangeTile(x: nat, y: nat, oldOwner: nat, newOwner: nat)
      requires Inv() && x < width && y < height && newOwner < OWNER_LIMIT
      requires At(width, x, y) < |state| && oldOwner == Owners(state)[At(width, x, y)] != newOwner
      modifies this`players, this`state, this`dirtyTiles
      ensures Inv() && Owners(state) == Owners(old(state))[At(width, x, y) := newOwner]
      ensures SameFlags(old(state), state) && SamePlayers(old(players), players)
      ensures AllCredited(width, Owners(old(state)), Owners(state), newOwner, old(players), players)
    {
      hide Taken, Tallied, Bordered, BorderedTo, AllCredited, SamePlayers, OnlyBorders, AllBorderedTo, X, Y, At, Around;
      hide Tracked, Registered, Sound, Near8, Owners;
      ghost var owners, was := Owners(state), players;
      TakeTile(x, y, oldOwner, newOwner);
      var i := At(width, x, y);
      AllTaken(width, owners, i, newOwner, was, players, playerLookup);
      StillRegistered(was, players, playerLookup, vanilla, newOwner);
      ghost var taken := players;
      RefreshNeighbours(Around(width, height, i, ALL_AROUND), i, oldOwner, newOwner, owners);
      AllRefreshed(width, owners, Owners(state), newOwner, was, taken, players);
    }

    method IsSurrounded(n: nat, id: nat) returns (surrounded: bool)
      requires width > 0 && n < |state| == width * height
      ensures surrounded <==> Surrounded(width, Owners(state), id, n)
    {
      hide Around, Near8;
      var around := Around(width, height, n, ALL_AROUND);
      NeighboursOf(width, height, n);
      surrounded := true;
      for k := 0 to |around|
        invariant surrounded <==> forall j :: 0 <= j < k ==> Owners(state)[around[j]] == id
      {
        assert Owners(state)[around[k]] == OwnerOf(state[around[k]]);
        if OwnerOf(state[around[k]]) != id {
          surrounded := false;
        }
      }
    }

    /** Collect the enclosed neighbours; the six-slot buffer is never overrun. */
    method FindEnclosed(around: seq<nat>, i: nat, newOwner: nat) returns (toCapture: array<nat>, count: nat)
      requires width > 0 && |land| == |state| == width * height && i < |state|
      requires around == Around(width, height, i, ALL_AROUND)
      ensures fresh(toCapture) && toCapture.Length == 6 && count <= 4 && Distinct(toCapture[..count])
      ensures forall j: nat :: j in toCapture[..count] <==>
                Enclosed(width, land, Passive(players, playerLookup, vanilla, newOwner), Owners(state), i, newOwner, j)
    {
      hide Around, Near8, Surrounded;
      toCapture := new nat[6];
      count := 0;
      NeighboursOf(width, height, i);
      var passive := Passive(players, playerLookup, vanilla, newOwner);
      ghost var owners := Owners(state);
      for k := 0 to |around|
        invariant fresh(toCapture) && count <= 4 && Distinct(toCapture[..count])
        invariant forall j: nat :: j in toCapture[..count] <==>
                    j in around[..k] && Enclosed(width, land, passive, owners, i, newOwner, j)
      {
        var n := around[k];
        assert around[..k + 1] == around[..k] + [n];
        assert n !in around[..k];
        var nOwner := OwnerOf(state[n]);
        assert nOwner == owners[n];
        if nOwner != newOwner && land[n] && !(passive && nOwner != 0) {
          var surrounded := IsSurrounded(n, newOwner);
          if surrounded {
            ghost var had := toCapture[..count];
            toCapture[count] := n;
            count := count + 1;
            assert toCapture[..count] == had + [n];
            AppendDistinct(had, n);
            AtMostFour(width, height, land, passive, owners, i, newOwner, toCapture[..count]);
          }
        }
      }
      assert around[..|around|] == around;
    }

    /**
    The tile changes hands, and so does exactly what the change encloses. The indexes stay exact, and
    what the new owner takes from each other player is credited to it.
    */
    method SetTileOwner(x: nat, y: nat, newOwner: nat)
      requires Inv() && x < width && y < height && newOwner < OWNER_LIMIT && At(width, x, y) < |state|
      modifies this`players, this`state, this`dirtyTiles
      ensures Inv() && SameFlags(old(state), state) && SamePlayers(old(players), players)
      ensures Owners(state) == Captured(width, land, VanillaBot(old(players), vanilla, newOwner),
                                        Owners(old(state)), At(width, x, y), newOwner)
      ensures width > 0 && Annexed(width, land, VanillaBot(old(players), vanilla, newOwner),
                                   Owners(old(state)), At(width, x, y), newOwner, Owners(state))
      ensures AllCredited(width, Owners(old(state)), Owners(state), newOwner, old(players), players)
      decreases Lacking(Owners(state), newOwner)
    {
      hide Total, Bordered, AllCredited, SamePlayers, X, Y, At, Around, Lacking, SameFlags, Swallowed, Passive;
      hide Tracked, Registered, Sound, Near8, Owners, AllTo, Enclosed, Distinct, VanillaBot, Annexed;
      ghost var owners, was, tiles := Owners(state), players, state;
      var i := At(width, x, y);
      var oldOwner := OwnerId(x, y);
      NothingYet(width, owners, newOwner, players, state);
      PassiveIs(players, playerLookup, vanilla, newOwner);
      Annexes(width, land, VanillaBot(players, vanilla, newOwner), owners, i, newOwner);
      if oldOwner == newOwner {
        return;
      }
      ChangeTile(x, y, oldOwner, newOwner);
      if newOwner != 0 {
        ghost var passive, after := Passive(was, playerLookup, vanilla, newOwner), Owners(state);
        StillRegistered(was, players, playerLookup, vanilla, newOwner);
        var toCapture, count := FindEnclosed(Around(width, height, i, ALL_AROUND), i, newOwner);
        ghost var taken := toCapture[..count];
        NoneTo(after, newOwner);
        for k := 0 to count
          invariant Inv() && SameFlags(tiles, state) && SamePlayers(was, players)
          invariant toCapture[..count] == taken
          invariant AllTo(after, taken[..k], newOwner, Owners(state))
          invariant AllCredited(width, owners, Owners(state), newOwner, was, players)
        {
          var j := toCapture[k];
          NextOf(taken, k);
          assert j == taken[k];
          EnclosedOnMap(width, land, passive, after, i, newOwner, j);
          CoordsOf(width, height, j);
          CaptureNext(width, land, passive, after, i, newOwner, taken[..k], j, Owners(state));
          CaptureProgress(owners, i, newOwner, taken[..k], Owners(state));
          StillRegistered(was, players, playerLookup, vanilla, newOwner);
          ghost var now, had, kept := Owners(state), players, state;
          SetTileOwner(X(width, j), Y(width, j), newOwner);
          CreditedTrans(width, owners, now, Owners(state), newOwner, was, had, players);
          SameTrans(was, had, players, tiles, kept, state);
        }
        assert taken[..count] == taken;
        CaptureAll(width, land, passive, after, i, newOwner, taken, Owners(state));
      }
    }

    /** Claim one free land tile of the spawn disc. */
    method ClaimSpawn(pid: nat, i: nat, ghost before: seq<nat>, ghost seen: set<nat>)
      requires Inv() && pid < OWNER_LIMIT && i < |state|
      requires width > 0 && Spawning(width, land, before, Owners(state), pid, seen)
      modifies this`players, this`state, this`dirtyTiles
      ensures Inv() && SameFlags(old(state), state) && SamePlayers(old(players), players)
      ensures Spawning(width, land, before, Owners(state), pid, seen + {i})
      ensures AllCredited(width, Owners(old(state)), Owners(state), pid, old(players), players)
    {
      hide Total, Bordered, AllCredited, SamePlayers, X, Y, At, SameFlags, Spawning, Captured;
      hide Tracked, Registered, Sound;
      CoordsOf(width, height, i);
      NothingYet(width, Owners(state), pid, players, state);
      var owner := OwnerId(X(width, i), Y(width, i));
      ghost var now := Owners(state);
      ghost var passive := VanillaBot(players, vanilla, pid);
      if owner == 0 && land[i] {
        SetTileOwner(X(width, i), Y(width, i), pid);
        SpawnClaims(width, land, passive, before, now, pid, seen, i);
      } else {
        SpawnSkips(width, land, before, now, pid, seen, i);
      }
    }

    /**
    Every free land tile of the disc becomes the player's; the only other tiles that change hands are land
    enclosed by the player's territory.
    */
    method PlaceSpawn(pid: nat, cx: nat, cy: nat)
      requires Inv() && pid < OWNER_LIMIT
      modifies this`players, this`state, this`dirtyTiles
      ensures Inv() && SameFlags(old(state), state)
      ensures width > 0 ==> Spawning(width, land, Owners(old(state)), Owners(state), pid, Disc(width, height, cx, cy))
      ensures width == 0 ==> state == old(state)
      ensures AllCredited(width, Owners(old(state)), Owners(state), pid, old(players), players)
      ensures |players| == |old(players)| && forall k: nat :: k < |players| ==>
                players[k].id == old(players)[k].id && players[k].isBot == old(players)[k].isBot
                && players[k].hasSpawned == (old(players)[k].hasSpawned || players[k].id == pid)
    {
      hide Total, Bordered, AllCredited, X, Y, At, SameFlags, Spawning, Tracked, Registered, Sound, SamePlayers;
      ghost var owners, was, tiles := Owners(state), players, state;
      ghost var seen: set<nat> := {};
      NothingYet(width, owners, pid, players, state);
      if width > 0 {
        SpawnStarts(width, land, owners, pid);
      }
      for dy := -SPAWN_RADIUS to SPAWN_RADIUS + 1
        invariant Inv() && SameFlags(tiles, state) && SamePlayers(was, players)
        invariant width == 0 ==> state == tiles && seen == {}
        invariant width > 0 ==> Spawning(width, land, owners, Owners(state), pid, seen)
        invariant width > 0 ==> forall t: nat :: t in seen <==>
                    t < width * height && DiscRow(width, cx, cy, dy, -SPAWN_RADIUS, t)
        invariant AllCredited(width, owners, Owners(state), pid, was, players)
      {
        for dx := -SPAWN_RADIUS to SPAWN_RADIUS + 1
          invariant Inv() && SameFlags(tiles, state) && SamePlayers(was, players)
          invariant width == 0 ==> state == tiles && seen == {}
          invariant width > 0 ==> Spawning(width, land, owners, Owners(state), pid, seen)
          invariant width > 0 ==> forall t: nat :: t in seen <==>
                      t < width * height && DiscRow(width, cx, cy, dy, dx, t)
          invariant AllCredited(width, owners, Owners(state), pid, was, players)
        {
          if width > 0 {
            RowNext(width, height, cx, cy, dy, dx);
          }
          if dx * dx + dy * dy > SPAWN_RADIUS * SPAWN_RADIUS {
            continue;
          }
          var nx, ny := cx + dx, cy + dy;
          if 0 <= nx < width && 0 <= ny < height {
            AtIs(width, height, nx, ny);
            ghost var now, had, kept := Owners(state), players, state;
            ClaimSpawn(pid, At(width, nx, ny), owners, seen);
            CreditedTrans(width, owners, now, Owners(state), pid, was, had, players);
            SameTrans(was, had, players, tiles, kept, state);
            seen := seen + {At(width, nx, ny)};
          }
        }
        if width > 0 {
          RowEnds(width, cx, cy, dy);
        }
      }
      if width > 0 {
        DiscEnds(width, height, cx, cy);
        assert seen == Disc(width, height, cx, cy);
      }
      MarkSpawned(pid, owners, was);
    }

    method MarkSpawned(pid: nat, ghost owners: seq<nat>, ghost was: seq<Player>)
      requires Inv() && SamePlayers(was, players)
      requires AllCredited(width, owners, Owners(state), pid, was, players)
      modifies this`players
      ensures Inv() && AllCredited(width, owners, Owners(state), pid, was, players)
      ensures |players| == |was| && forall k: nat :: k < |players| ==>
                players[k].id == was[k].id && players[k].isBot == was[k].isBot
                && players[k].hasSpawned == (was[k].hasSpawned || players[k].id == pid)
    {
      hide Total, IsBorder, Bitset.Members, Tracked;
      IndexIs(players, playerLookup, pid);
      var index := PlayerIndex(players, playerLookup, pid);
      if index.Some? {
        players := players[index.value := players[index.value].(hasSpawned := true)];
      }
    }

    /** One more upgrade level for an own tile; `payable` stands for a living player with the gold for it. */
    method UpgradeTile(id: nat, i: nat, payable: bool) returns (done: bool)
      requires Inv()
      modifies this`upgrades, this`dirtyTiles
      ensures Inv()
      ensures done <==> payable && i < |state| && Owners(state)[i] == id
      ensures done ==> i < |old(upgrades)| && |upgrades| == |old(upgrades)|
      ensures forall j :: 0 <= j < |upgrades| && (!done || j != i) ==> upgrades[j] == old(upgrades)[j]
      ensures done && old(upgrades)[i] < 0xFFFF_FFFF ==> upgrades[i] == old(upgrades)[i] + 1
      ensures done && old(upgrades)[i] >= 0xFFFF_FFFF ==> upgrades[i] == old(upgrades)[i]
      ensures done ==> dirtyTiles == old(dirtyTiles) + [i]
      ensures !done ==> upgrades == old(upgrades) && dirtyTiles == old(dirtyTiles)
    {
      hide Sound, Registered;
      if !payable || i >= width * height || OwnerOf(state[i]) != id {
        return false;
      }
      var level := upgrades[i];
      if level < MAX_LEVEL {
        level := level + 1;
      }
      TrackChange(emitted, state, upgrades, dirtyTiles, i, state[i], level);
      assert state[i := state[i]] == state;
      upgrades := upgrades[i := level];
      dirtyTiles := dirtyTiles + [i];
      return true;
    }

    /** Hand out the changed tiles and start over; a copy of the map that was current is current again. */
    method DrainDirty() returns (patch: seq<(nat, Cell)>)
      requires Inv()
      modifies this`dirtyTiles, this`emitted
      ensures Inv() && dirtyTiles == [] && emitted == Cells(state, upgrades)
      ensures Patched(old(emitted), patch) == Cells(state, upgrades)
    {
      hide Sound, Registered;
      PatchReproduces(emitted, state, upgrades, dirtyTiles);
      patch := Entries(state, upgrades, dirtyTiles);
      dirtyTiles, emitted := [], Cells(state, upgrades);
    }
  }

  lemma NothingYet(w: nat, owners: seq<nat>, id: nat, players: seq<Player>, state: seq<nat>)
    ensures AllCredited(w, owners, owners, id, players, players) && SamePlayers(players, players)
    ensures SameFlags(state, state)
  {
    hide Total;
  }

  lemma NoneTo(owners: seq<nat>, id: nat)
    ensures forall a: seq<nat> :: a == [] ==> AllTo(owners, a, id, owners)
  {
  }

  lemma EnclosedOnMap(w: nat, land: seq<bool>, passive: bool, owners: seq<nat>, i: nat, id: nat, j: nat)
    requires w > 0 && |land| == |owners| && Enclosed(w, land, passive, owners, i, id, j)
    ensures j < |owners|
  {
  }

  lemma SameTrans(ps: seq<Player>, qs: seq<Player>, rs: seq<Player>, a: seq<nat>, b: seq<nat>, c: seq<nat>)
    requires SamePlayers(ps, qs) && SamePlayers(qs, rs) && SameFlags(a, b) && SameFlags(b, c)
    ensures SamePlayers(ps, rs) && SameFlags(a, c)
  {
  }

  lemma NextOf(s: seq<nat>, k: nat)
    requires Distinct(s) && k < |s|
    ensures s[..k + 1] == s[..k] + [s[k]] && s[k] in s && s[k] !in s[..k]
  {
  }

  lemma AppendDistinct(s: seq<nat>, x: nat)
    requires Distinct(s) && x !in s
    ensures Distinct(s + [x]) && forall t: nat :: t in s + [x] <==> t in s || t == x
  {
    assert forall k :: 0 <= k < |s| ==> s[k] in s;
  }

  // From one half of `set_tile_owner` to the next.
  lemma AllTaken(w: nat, owners: seq<nat>, i: nat, new_: nat, ps: seq<Player>, qs: seq<Player>,
                 lookup: seq<Option<nat>>)
    requires w > 0 && i < |owners| && owners[i] != new_ && Sound(w, owners, ps) && Registered(ps, lookup)
    requires |ps| == |qs| && forall k: nat :: k < |ps| ==> qs[k] == Taken(w, owners, i, new_, ps[k])
    ensures SamePlayers(ps, qs) && AllBorderedTo(w, owners, owners[i := new_], {i}, qs)
    ensures forall k: nat :: k < |qs| ==> Tallied(w, owners[i := new_], qs[k])
    ensures AllCredited(w, owners, owners[i := new_], new_, ps, qs)
  {
    hide Taken, Tallied, Bordered, BorderedTo, Credited, X, Y;
    forall k: nat | k < |qs|
      ensures Tallied(w, owners[i := new_], qs[k]) && BorderedTo(w, owners, owners[i := new_], {i}, qs[k])
      ensures Credited(w, owners, owners[i := new_], new_, ps[k], qs[k])
      ensures qs[k].id == ps[k].id && qs[k].isBot == ps[k].isBot && qs[k].hasSpawned == ps[k].hasSpawned
    {
      TakenTallied(w, owners, i, new_, ps[k]);
      TakenBordered(w, owners, i, new_, ps[k]);
      TakenCredited(w, owners, i, new_, ps[k]);
      TakenSame(w, owners, i, new_, ps[k]);
    }
  }

  lemma TakenSame(w: nat, owners: seq<nat>, i: nat, new_: nat, p: Player)
    requires w > 0 && i < |owners|
    ensures var q := Taken(w, owners, i, new_, p); q.id == p.id && q.isBot == p.isBot && q.hasSpawned == p.hasSpawned
  {
    hide X, Y, IsBorder, Bitset.Inserted, Bitset.Removed;
  }

  lemma AllRefreshed(w: nat, before: seq<nat>, owners: seq<nat>, id: nat, ps: seq<Player>, qs: seq<Player>,
                     rs: seq<Player>)
    requires OnlyBorders(qs, rs) && AllCredited(w, before, owners, id, ps, qs) && SamePlayers(ps, qs)
    requires forall k: nat :: k < |qs| ==> Tallied(w, owners, qs[k])
    requires forall k: nat :: k < |rs| ==> Bordered(w, owners, rs[k])
    ensures Sound(w, owners, rs) && AllCredited(w, before, owners, id, ps, rs) && SamePlayers(ps, rs)
  {
    hide Total, Bordered;
  }

  lemma NotNearSelf(w: nat, i: nat)
    requires w > 0
    ensures !Near8(w, i, i)
  {
  }

  lemma AllNeighboursDone(w: nat, owners: seq<nat>, i: nat, new_: nat, done: set<nat>, players: seq<Player>)
    requires w > 0 && i < |owners|
    requires forall t: nat :: t in done <==> t == i || (t < |owners| && Near8(w, i, t))
    requires AllBorderedTo(w, owners, owners[i := new_], done, players)
    ensures forall k: nat :: k < |players| ==> Bordered(w, owners[i := new_], players[k])
  {
    hide Near8, BorderedTo, Bordered;
    forall k: nat | k < |players|
      ensures Bordered(w, owners[i := new_], players[k])
    {
      NeighboursDone(w, owners, i, new_, done, players[k]);
    }
  }

  ghost predicate SameFlags(before: seq<nat>, after: seq<nat>) {
    |before| == |after| && forall i :: 0 <= i < |before| ==> Flags(after[i]) == Flags(before[i])
  }

  lemma NeighboursOf(w: nat, h: nat, i: nat)
    requires w > 0 && i < w * h
    ensures var around := Around(w, h, i, ALL_AROUND);
            && Distinct(around)
            && (forall k :: 0 <= k < |around| ==> around[k] < w * h && Near8(w, i, around[k]))
            && (forall j: nat :: j in around <==> j < w * h && Near8(w, i, j))
  {
    hide Around, Near8;
    var around := Around(w, h, i, ALL_AROUND);
    AroundDistinct(w, h, i, ALL_AROUND);
    forall j: nat
      ensures j in around <==> j < w * h && Near8(w, i, j)
    {
      AllAroundHas(w, h, i, j);
    }
    assert forall k :: 0 <= k < |around| ==> around[k] in around;
  }

  lemma OwnsNothing(w: nat, owners: seq<nat>, p: Player)
    requires p.id !in owners && p.tileCount == p.sumX == p.sumY == 0 && Bitset.Members(p.border) == {}
    ensures Tallied(w, owners, p) && Bordered(w, owners, p)
  {
    hide Bitset.Members;
    TotalOfNobody(w, owners, p.id, Tiles);
    TotalOfNobody(w, owners, p.id, SumX);
    TotalOfNobody(w, owners, p.id, SumY);
  }

  lemma {:induction false} TotalOfNobody(w: nat, owners: seq<nat>, id: nat, m: Measure)
    requires id !in owners
    ensures Total(w, owners, id, m) == 0
  {
    if owners != [] {
      var last := |owners| - 1;
      assert owners == owners[..last] + [owners[last]];
      TotalOfNobody(w, owners[..last], id, m);
    }
  }
}
