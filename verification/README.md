# SOW verified: territory, transport, maps, sea lanes and accounts

A Dafny model of the algorithmic parts of the SOW game: the server's territory
bookkeeping, the F-Stack transmit bridge, the map pipeline, water labelling,
fleet and sea lane routing, the map file formats, the analytics calendar and
the compare-and-set account updates. `dafny verify dfyconfig.toml` checks all of
it.

| file | models |
|---|---|
| `Territory.dfy` | who owns each tile, the per-player counters and border bitsets, the enclosure cascade, spawning, the change list |
| `Bitset.dfy` | the 64-bit block bitset behind the borders, its ascending iterator and its sparse wire form |
| `Bridge.dfy` | the transmit path of the network bridge: command ring, parked sends, partial writes, descriptor reuse |
| `ImagePipeline.dfy` | flood fills, island and lake removal, ocean marking, shores, distance to land |
| `WaterComponents.dfy` | water body labels, computed in one go and in bounded steps |
| `SeaLanes.dfy`, `SeaSearch.dfy`, `SeaRuns.dfy` | walks over sea lanes, Dijkstra with 32-bit costs, two of its runs |
| `SeaNetwork.dfy`, `SeaPorts.dfy` | building the lane network a port per tick; which buildings it joins |
| `WarpFleet.dfy` | where a transport fleet lands and launches |
| `MapFile.dfy`, `MapCatalog.dfy`, `MapLayout.dfy` | the binary map and catalog formats, and where their bytes stand |
| `Calendar.dfy`, `Dates.dfy` | day numbers and dates, date text, the clock |
| `Leaders.dfy`, `Accounts.dfy`, `AccountStore.dfy` | the leaders and their spellings, account mutators, and the retry loop that commits them |
| `Grid.dfy`, `TileMaps.dfy`, `Wrappers.dfy` | tile coordinates, adjacency, connectivity; shared data types |

## How the model is built

Structures that the program changes in place are classes with the same fields
(`GameState`, `Driver`, `Terrain`, `WaterComponentsBuilder`, `FleetScratch`,
`Engine`, `DenseBitSet`, `PlayerAccount`, `Valkey`), and their operations are methods with
the program's loops. What the fields mean is stated by predicates on values
(the owner table, the byte streams, the tree of predecessors, ...). `Inv()` or
`Valid()` of a class holds after the constructor and is kept by every method, so
it holds in every reachable state.

Calls into code that is not part of this model appear by contract only:

- What the network stack will answer is listed up front, and every list is
  covered: each `ff_write` takes the next of `answers` (a count up to the buffer's
  length, EAGAIN with or without the ten-second stall behind it, or a broken
  connection), each `ff_zc_recv` the next of `eofs`, `ff_accept` the arrivals of
  a listener event, the fetch of a batch its reports. With nothing left the
  stack answers EAGAIN or no end of stream. What the driver does is then a
  function of the state and these lists. `ff_accept` never returns a descriptor
  that is still open; a batch names descriptors that are open when it is fetched;
  `ff_close` also removes the descriptor's event filters, and `ff_zc_recv` on a
  closed descriptor answers -1.
- The water path finder is a function. What it promises is the comment at
  sow-core/src/sea_lane.rs:12, written out as `SeaNetwork.Finds`.
- Every send goes through a connection object, so its `tx_pending` counter is
  always present; `poll_write` is one step, and writers run between any two
  commands, flushes and events of the driver (the schedules of `DrainTx`,
  `FlushAllPendingSend` and `HandleBatch`).
- Reading back a written account text gives the same account
  (`AccountStore.Format.Valid`). What others commit before each round trip to the
  store and what becomes of the trip are listed up front too (`others`, `trips`);
  a trip may be lost before or after the store has executed it, and every other
  error of the connection counts as a lost reply.
- A path finder and the wall clock are parameters.

Four results differ from what one would expect from the code's comments. Each has
an input, and a condition that is exact as far as stated:

- `route_through_lanes` adds costs in 32 bits, wrapping around (a build with
  overflow checks would panic instead). A total lane length below 2^32 does not
  rule that out, because relaxing backwards over a lane adds its length once more.
  `SeaRuns.EndlessSearch` has three lanes of 2^31 + 2 tiles in total over which the
  predecessors of the destination never lead back to the source, so the loop at
  sow-core/src/sea_lane.rs:208-212 never ends. The search is modelled for all lanes. Its
  answer is right if no cost computed at a port on the near side of the
  destination wraps below the distance of the port it leads to
  (`SeaSearch.Harmless`, the guard of sow-core/src/sea_lane.rs:191), and for lanes of less than 2^32 tiles
  in total only then; from 2^32 tiles on a harmful wrap-around may also go unnoticed
  (`SeaRuns.HarmlessAllTheSame`). Total + longest lane below 2^32 - 1 is sufficient
  (`FittingIsHarmless`); lanes of at most 1000 tiles satisfy it up to 4,294,966 of them.
- `shift_date` composes (shifting by `a` then `b` is shifting by `a + b`) exactly
  if the date in between does not lie before year 0: its leading minus sign does
  not survive the split at dashes (`Dates.ShiftTwice`,
  `Dates.ShiftFailsBeforeYearZero`).
- Purchases, items and the tutorial take effect once as long as no wholesale
  profile replacement drops a mark the account has by then
  (`Accounts.KeptWhileMarked`). `Accounts.StaleProfilePaysTwice` is a run that pays
  twice, and `Accounts.SafeReplacement` shows that the condition is exact for each replacement.
- The generation check of the command ring does not cover kernel events:
  `driver_cb` acts on the descriptor numbers of a batch, so an end-of-stream entry
  can close a connection accepted under that number while the batch is being
  handled (`Bridge.ReusedNumberClosed`, from every state with an open descriptor). Per entry it does so exactly if the number's
  generation is no longer the one the entry was meant for (`HandleEvent`); no
  connection older than the batch is ever hit, and none at all if the batch
  names every descriptor once (`HandleBatch`).

Where a comment and the code disagree the model follows the code: the neutral
landing search (sow-core/src/warp_fleet.rs:236-238) is described as 4-connected
but steps over six row-parity offsets, and a shore that touches two water bodies
keeps only the smaller label, so "on the same component" is not symmetric to
"touches the body" (sow-core/src/water_components.rs:1-2).

## Model

| member | source | states |
|---|---|---|
| `Territory.GameState.constructor` | sow-core/src/game.rs:241-268 | a new game satisfies the invariant |
| `Territory.GameState.RegisterPlayer` | sow-core/src/game.rs:269-278 | the player is appended and found by its id; every index stays exact if and only if the id is new and in range and the record already fits the map |
| `Territory.OwnsNothing` | sow-core/src/game.rs:269-278 | the record of a player without tiles fits every map on which its id owns nothing |
| `Territory.GameState.OwnerId` | sow-core/src/map.rs:113-115 | reads the owner bits of the tile |
| `Territory.GameState.SetOwnerId` | sow-core/src/map.rs:117-125 | changes the owner bits of one tile and nothing else, and the change list still covers every difference |
| `Territory.GameState.IsBorderTile` | sow-core/src/map.rs:153-180 | true iff the tile is the player's and one of its eight in-bounds neighbours is not |
| `Territory.GameState.TakeTile` | sow-core/src/game.rs:336-361 | the two players' counters, the owner table and the tile's own border bit after a change |
| `Territory.GameState.RefreshNeighbours` | sow-core/src/game.rs:363-383 | after the neighbour loop every player's border bitset is exactly its border tiles under the new table |
| `Territory.GameState.ChangeTile` | sow-core/src/game.rs:331-383 | one tile changes hands and all tallies, borders, records and the change list stay exact |
| `Territory.GameState.FindEnclosed` | sow-core/src/game.rs:385-417 | the buffer holds exactly the enclosed neighbours, at most four of its six slots |
| `Territory.GameState.SetTileOwner` | sow-core/src/game.rs:331-424 | for every input: the tile changes hands and with it exactly the foreign land neighbours whose other neighbours are all the new owner's, except owned ones if the new owner is a bot of the passive difficulty (`Annexed`); the owner table becomes `Captured` of the old one, the invariant holds, and each tile taken from a player is credited once; it terminates |
| `Territory.GameState.PlaceSpawn` | sow-core/src/game.rs:280-303 | every free land tile of the disc becomes the player's; any other change is land enclosed by it; the player is marked spawned |
| `Territory.GameState.UpgradeTile` | sow-core/src/intent/buildings.rs:211-248 | only the owner can raise a tile's level, by one up to 2^32 - 1, and no other tile's; the change list still covers every difference |
| `Territory.GameState.DrainDirty` | sow-core/src/engine/snapshot.rs:5-16 | applying the drained entries, owner bits and upgrade level, to a copy that was current when the list was last emptied reproduces the map |
| `Territory.CapturedExactly` | sow-core/src/game.rs:385-422 | the owner table after a change, tile by tile from the old one: the tile, and the enclosed foreign land around it, and nothing else |
| `Territory.Annexes` | sow-core/src/game.rs:385-424 | the owner table after a change, in terms of the map alone: which neighbours are annexed, and that a passive bot annexes no owned tile |
| `Territory.PassiveIs` | sow-core/src/game.rs:392-398 | who never swallows player territory: a player on record with that id that is a bot, under the passive difficulty |
| `Territory.TilesCounted` | sow-core/src/game.rs:342-350 | the tile total behind `tile_count` is the number of tiles owned |
| `Territory.NestedCapturesNothing` | sow-core/src/game.rs:419-421 | taking an enclosed tile encloses nothing further, so the recursion has depth two |
| `Territory.EnclosedApart` | sow-core/src/game.rs:400-417 | two enclosed tiles are never neighbours |
| `Territory.AtMostFour` | sow-core/src/game.rs:386-417 | at most four of the eight neighbours can be enclosed, so the six-slot buffer suffices |
| `Territory.TakenTallied` | sow-core/src/game.rs:337-356 | the counters stay the count and coordinate sums of the owned tiles |
| `Territory.TakenBordered` | sow-core/src/game.rs:343-361 | the tile leaves the old owner's border and enters the new owner's iff it is a border tile |
| `Territory.LoserNeighbour` | sow-core/src/game.rs:373-376 | a neighbour of the loser has become a border tile |
| `Territory.WinnerNeighbour` | sow-core/src/game.rs:377-382 | a neighbour of the winner was a border tile and stays one iff the definition still says so |
| `Territory.NoSaturation` | sow-core/src/game.rs:340-342 | with exact tallies none of the three saturating subtractions saturates |
| `Territory.TalliesFit` | sow-core/src/game.rs:345-350 | on a map whose size fits 32 bits the counters fit their 32- and 64-bit fields |
| `Territory.BorderList` | sow-core/src/player/mod.rs:260-264 | walking the border yields exactly the border tiles, strictly ascending |
| `Territory.TakenCredited` | sow-core/src/game.rs:351-353 | what a player loses and what the conqueror's record gains add up to zero |
| `Territory.SpawnClaims` | sow-core/src/game.rs:280-300 | one claimed tile of the disc and its cascade keep the spawn property |
| `Territory.PatchReproduces` | sow-core/src/engine/snapshot.rs:5-16 | patching only the listed tiles reproduces every tile |
| `Territory.PatchesJoin` | sow-client/src/sim/snapshot_fx.rs:122-125 | two queued change lists applied as one have the same effect as one after the other |
| `Bitset.DenseBitSet.Insert` | sow-core/src/bitset.rs:22-35 | adds exactly the index, growing the blocks, and says whether it was new |
| `Bitset.DenseBitSet.Remove` | sow-core/src/bitset.rs:39-53 | takes away exactly the index and says whether it was there |
| `Bitset.DenseBitSet.Contains` | sow-core/src/bitset.rs:57-66 | membership |
| `Bitset.DenseBitSet.Iterate` | sow-core/src/bitset.rs:70-85 | the word-wise iterator yields `Ones` |
| `Bitset.HasInserted` | sow-core/src/bitset.rs:22-35 | membership after setting a bit, for every index |
| `Bitset.HasRemoved` | sow-core/src/bitset.rs:39-53 | membership after clearing a bit, for every index |
| `Bitset.OnesAre` | sow-core/src/bitset.rs:70-85 | the listed indices are all members and only members, strictly ascending |
| `Bitset.FromSparse` | sow-core/src/bitset.rs:112-126 | deserialization holds exactly the listed indices |
| `Bitset.WireRoundTrip` | sow-core/src/bitset.rs:100-126 | serializing and deserializing keeps the members and their listing |
| `Bridge.Driver.TryEnqueueSend` | fstack-bridge/src/bridge.rs:577-620 | a send enters the ring iff ring and byte budget allow it; the byte counter stays exact |
| `Bridge.Driver.PollWrite` | fstack-bridge/src/bridge.rs:714-751 | the whole buffer is accepted, counted and queued, or nothing changes; which of the two, for every state |
| `Bridge.Driver.PollShutdown` | fstack-bridge/src/bridge.rs:761-775 | a close request for the connection's own generation is queued, or nothing changes |
| `Bridge.Driver.ParkSend` | fstack-bridge/src/bridge.rs:335-371 | parks at the back within the budget and arms the write filter; otherwise changes nothing |
| `Bridge.Driver.ParkSendFront` | fstack-bridge/src/bridge.rs:373-408 | the same at the front |
| `Bridge.Driver.PopPendingSendWithMeta` | fstack-bridge/src/bridge.rs:410-430 | takes the oldest parked buffer, which always carries the descriptor's current generation |
| `Bridge.Driver.ClearPendingSend` | fstack-bridge/src/bridge.rs:436-447 | drops what is parked and settles both counters |
| `Bridge.Driver.CloseFd` | fstack-bridge/src/bridge.rs:1037-1046 | the descriptor's generation, peer, parked bytes and filter are gone, once; everything else is kept |
| `Bridge.Driver.ReleasePeer` | fstack-bridge/src/bridge.rs:1052-1058 | the close hook runs once per registered peer |
| `Bridge.Driver.ServeSend` | fstack-bridge/src/bridge.rs:1146-1193 | what a send of the current generation comes to, for every state and answer of the stack (`SendFate`): behind a backlog it is parked at the back without an offer; else it is offered once, exactly the bytes taken go to the wire and the rest is parked; it closes the connection only if what is to be parked exceeds the budget, or if the write failed; no other connection, byte or ground for closing changes |
| `Bridge.SendFateIs` | fstack-bridge/src/bridge.rs:1146-1193 | by the bytes: as long as the connection stays, what is taken and what is parked is what was parked before and the buffer, in order; it ends for a broken connection or for want of room, and exactly when |
| `Bridge.Driver.ServeNext` | fstack-bridge/src/bridge.rs:1127-1209 | the oldest command leaves the ring and does what its kind and generation say (`ServeStep`): a stale one writes, parks and closes nothing, a current close closes exactly its own connection, a current send meets its `SendFate` |
| `Bridge.Driver.Workers` | fstack-bridge/src/bridge.rs:714-775 | any writes and shutdowns leave exactly the state that the accepting rule gives one after the other (`Worked`); they only append to the ring and to what was accepted |
| `Bridge.Driver.DrainTx` | fstack-bridge/src/bridge.rs:1118-1212 | with writers running between commands, the run is exactly: every command of the ring in order, nothing else, until the ring is empty; every close request in it is carried out; connections are closed only on request, over budget or for a failed write, and the accepted and written bytes of every connection only grow |
| `Bridge.Driver.FlushWrite` | fstack-bridge/src/bridge.rs:1217-1280 | what a flush comes to, for every backlog and answers of the stack (`FlushFate`): whole buffers go to the wire oldest first; the first one not taken in full is put back in front less the bytes taken, or the connection is closed for a stall or a failed write, and only then; everything else is unchanged; re-parking never trips the budget |
| `Bridge.FlushFateIs` | fstack-bridge/src/bridge.rs:1217-1280 | by the bytes: the answers take some whole buffers, then one less than whole; as long as the connection stays every byte is taken or still parked, in order; it ends exactly for a broken connection or a stall |
| `Bridge.Driver.FlushAllPendingSend` | fstack-bridge/src/bridge.rs:1104-1116 | with writers in between, the run is exactly one flush of every descriptor that had a backlog; whatever is still parked sits behind a full socket; connections are closed only for a stall or a failed write |
| `Bridge.Driver.AcceptOne` | fstack-bridge/src/bridge.rs:865-908 | a new connection gets the next, never used generation and an empty history, and is announced or given back; a filtered one leaves no trace; the whole new state, peers included |
| `Bridge.Driver.AcceptPending` | fstack-bridge/src/bridge.rs:853-910 | the state is the one that accepting the listed arrivals one by one gives (`Arrived`); every earlier connection keeps its descriptor, counter, streams and parked bytes; only new ones are closed, for want of room to announce them |
| `Bridge.EveryoneArrives` | fstack-bridge/src/bridge.rs:853-910 | everyone that waits is let in, each under the next generation, if it is not filtered and there is room to announce it |
| `Bridge.Driver.RejectAcceptedFd` | fstack-bridge/src/bridge.rs:1060-1064 | an accepted descriptor that cannot be announced is given back and its peer released |
| `Bridge.Driver.ZcRead` | fstack-bridge/src/bridge.rs:1021-1035 | an end of stream, and nothing else, closes the connection; anything else leaves the transmit state alone |
| `Bridge.FetchedIs` | fstack-bridge/src/bridge.rs:793-809 | a batch holds what was reported on open descriptors, in order, up to 512 entries |
| `Bridge.Driver.HandleEvent` | fstack-bridge/src/bridge.rs:810-832 | what one entry of a batch does, acting on the descriptor number: which connection it closes and for which cause, what a write event flushes, and exactly when the connection closed is not the one it was meant for |
| `Bridge.Driver.HandleBatch` | fstack-bridge/src/bridge.rs:793-832 | with writers in between, the run is exactly the entries of the batch in order; only connections accepted meanwhile can be closed by mistake, and none if the batch names every descriptor once; earlier ones are closed only if their peer is gone or a write stalls or fails |
| `Bridge.OnlyNewer` | fstack-bridge/src/bridge.rs:810-826 | whoever an entry closes by mistake is newer than the batch, and its number is in the batch twice |
| `Bridge.ReusedNumberClosed` | fstack-bridge/src/bridge.rs:810-826 | a run from any state with an open descriptor in which a batch that names it twice closes the connection accepted in between |
| `Bridge.FirstNewcomerClosed` | fstack-bridge/src/bridge.rs:810-826 | the same from a new driver, on descriptor 7 |
| `Bridge.Driver.DriverCb` | fstack-bridge/src/bridge.rs:786-833 | one turn of the loop is one run and no other, given what the stack answers (`Turn`): the ring drained in order, one flush of each backlogged descriptor, one batch of events; every close request found in the ring is carried out, earlier connections are closed only for the five causes of their own, and accepted and written bytes only grow |
| `Bridge.Guarantees` | fstack-bridge/src/bridge.rs:1118-1308 | in every reachable state: written + parked + queued bytes are exactly the accepted ones, delivered bytes of closed connections are a prefix, both budgets and all counters are exact, filters are armed exactly where bytes are parked, parked bytes carry the current generation |
| `Bridge.PopSound` | fstack-bridge/src/bridge.rs:1127-1143 | popping a command moves its bytes into the driver's hand without losing their place in the stream |
| `Bridge.TakeHolding` | fstack-bridge/src/bridge.rs:1154-1171 | a partial write moves exactly the written prefix from the hand to the wire |
| `Bridge.CloseSound` | fstack-bridge/src/bridge.rs:1037-1046 | closing one connection leaves every other stream intact |
| `Bridge.AcceptSound` | fstack-bridge/src/bridge.rs:853-910 | reusing a descriptor under a new generation disturbs no stream, open or closed |
| `Bridge.StaleSound` | fstack-bridge/src/bridge.rs:1194-1199 | dropping a send of an old generation settles only its own counter |
| `ImagePipeline.Terrain.FloodRegion` | sow-map/src/image_pipeline.rs:149-170 | returns the whole not yet visited body of the start cell, without repeats, and marks exactly it |
| `ImagePipeline.Terrain.RemoveSmallIslands` | sow-map/src/image_pipeline.rs:172-189 | sinks exactly the land of bodies with fewer than 30 cells, although the array changes during the scan |
| `ImagePipeline.Terrain.RemoveSmallLakes` | sow-map/src/image_pipeline.rs:228-246 | fills exactly the water bodies with fewer than 16 cells, so every remaining one has at least 16 |
| `ImagePipeline.Terrain.MarkOcean` | sow-map/src/image_pipeline.rs:248-264 | flags exactly one whole water body of greatest size, the first in scan order on ties; there is one whenever the map has water |
| `ImagePipeline.Terrain.ProcessShore` | sow-map/src/image_pipeline.rs:266-288 | flags exactly the cells next to the other kind and lists the shore waters in ascending order |
| `ImagePipeline.Terrain.ProcessDistToLand` | sow-map/src/image_pipeline.rs:290-310 | with any land, each water cell's magnitude is its Manhattan distance to the nearest land cell minus one |
| `ImagePipeline.FreshBody` | sow-map/src/image_pipeline.rs:149-170 | the unvisited part of a body, at a cell the scan reaches, is the whole body |
| `ImagePipeline.KeptBodies` | sow-map/src/image_pipeline.rs:172-189 | a kept body stays the same body after small ones are removed |
| `ImagePipeline.GreatestIs` | sow-map/src/image_pipeline.rs:248-264 | the recorded region is the greatest body, first in scan order |
| `ImagePipeline.BehindFront` | sow-map/src/image_pipeline.rs:290-310 | everything at most as far from land as the front of the queue has been visited |
| `ImagePipeline.FrontNeighbour` | sow-map/src/image_pipeline.rs:298-309 | an unvisited water neighbour of the front is exactly one step farther, although the search walks only through water |
| `WaterComponents.Compute` | sow-core/src/water_components.rs:44-108 | labels are equal iff 4-connected through water, are 1..count in order of each body's least tile, shores inherit the least adjacent label, other land has none |
| `WaterComponents.ResultUnique` | sow-core/src/water_components.rs:44-108 | that description has only one solution |
| `WaterComponents.WaterComponentsBuilder.constructor` | sow-core/src/water_components.rs:141-161 | the builder starts with the whole amount of work ahead |
| `WaterComponents.WaterComponentsBuilder.Step` | sow-core/src/water_components.rs:163-236 | does at most its budget, delivers the one correct result exactly once, in the call whose budget exceeds the work left |
| `WaterComponents.VisitWaterTile` | sow-core/src/water_components.rs:238-254 | labels and queues each unlabelled water neighbour once |
| `WaterComponents.InheritShore` | sow-core/src/water_components.rs:256-278 | a shore tile gets the least label of its cardinal water neighbours, or none |
| `WaterComponents.BothForms` | sow-core/src/water_components.rs:141-278 | for any budgets the stepwise form returns exactly the one-shot result, in the call where the spent budget exceeds water tiles + 2 * tiles |
| `SeaSearch.RouteThroughLanes` | sow-core/src/sea_lane.rs:148-236 | for all lanes: a shortest route, or None iff there is no walk, if wrapping is harmless; below 2^32 tiles in total only then, and every route returned is a shortest one; what each of the other answers still says |
| `SeaRuns.EndlessSearch` | sow-core/src/sea_lane.rs:189-213 | three lanes of 2^31 + 2 tiles in total for which the loop over the predecessors never ends |
| `SeaRuns.HarmlessAllTheSame` | sow-core/src/sea_lane.rs:189-213 | three lanes of 2^32 + 14 tiles in total for which a cost wraps harmfully and the route is still a shortest one |
| `SeaSearch.FoundIsHarmless` | sow-core/src/sea_lane.rs:189-199 | below 2^32 tiles in total, predecessors that lead to the source rule out every harmful wrap-around |
| `SeaSearch.BenignTrace` | sow-core/src/sea_lane.rs:205-213 | if wrapping is harmless the predecessors of a reachable destination lead to the source by a shortest walk |
| `SeaSearch.TracedExact` | sow-core/src/sea_lane.rs:190-213 | below 2^32 tiles in total, along the predecessors every recorded cost is the exact cost so far |
| `SeaSearch.FittingIsHarmless` | sow-core/src/sea_lane.rs:189-191 | total plus longest lane below 2^32 - 1 rules out every wrap-around that matters |
| `SeaSearch.Search` | sow-core/src/sea_lane.rs:169-199 | terminates for all lanes; every recorded cost comes over its predecessor from a cost no walk beats, and when the search stops no walk is shorter than what the destination records |
| `SeaSearch.Expand` | sow-core/src/sea_lane.rs:186-198 | relaxes every lane at a port with 32-bit sums; afterwards the port is relaxed and, if no sum undercuts, the settled ports are untouched |
| `SeaSearch.BuildAdjacency` | sow-core/src/sea_lane.rs:157-167 | the adjacency of every port, in lane order, self-loops twice |
| `SeaSearch.PopMin` | sow-core/src/sea_lane.rs:174-179 | the heap yields a least entry and keeps the others |
| `SeaSearch.Trace` | sow-core/src/sea_lane.rs:205-213 | follows the predecessors to the source, or finds that they never lead there |
| `SeaSearch.Lay` | sow-core/src/sea_lane.rs:215-233 | concatenates the lanes in sailing order without immediate repeats |
| `SeaSearch.TreeWalk` | sow-core/src/sea_lane.rs:191-196 | as long as no sum undercuts, every settled port's recorded distance is the cost of a real walk |
| `SeaSearch.LowerBound` | sow-core/src/sea_lane.rs:179-199 | even with wrapped sums, no walk is shorter than the least recorded cost still waiting or the one recorded for its end |
| `SeaSearch.RelaxOne` | sow-core/src/sea_lane.rs:190-196 | a recorded improvement, wrapped or not, keeps the links, the heap and the relaxed ports right, also with zero-length lanes |
| `SeaSearch.PopIsSafe` | sow-core/src/sea_lane.rs:179-191 | if wrapping is harmless, no sum computed at a popped port undercuts the port it leads to |
| `SeaLanes.ShortWalk` | sow-core/src/sea_lane.rs:148-198 | any walk can be cut down to one that uses no lane twice, at no greater cost and no longer than all lanes together |
| `SeaLanes.LaidSize` | sow-core/src/sea_lane.rs:215-233 | the tile path is no longer than its lanes |
| `SeaLanes.RouteIsWay` | sow-core/src/sea_lane.rs:215-235 | over lanes as the path finder delivers them, a route is a connected water way between the two ports' water tiles without immediate repeats |
| `SeaSearch.NetworkCostsFit` | sow-core/src/sea_lane.rs:124 | up to 4,294,966 lanes of at most 1000 tiles never come near wrapping |
| `SeaNetwork.Engine.AdjacentWaterTile` | sow-core/src/sea_lane.rs:24-43 | the first water tile west, east, north, south of a tile |
| `SeaNetwork.WaterEntryIs` | sow-core/src/sea_lane.rs:24-43 | that tile is cardinal water on the map, and is missing only if there is none |
| `SeaPorts.PierIs` | sow-core/src/sea_lane.rs:24-43 | the same by coordinates: the tile to the west if it is water on the map, else to the east, the north, the south |
| `SeaPorts.PortsAre` | sow-core/src/sea_lane.rs:55-75 | a building is a port of the network iff it is a finished city with a port module whose pier is on a labelled water body; in the order of the buildings, each once, with its own id, tile and body |
| `SeaNetwork.Engine.AddRow` | sow-core/src/sea_lane.rs:82-137 | adds exactly the missing wanted lanes of one port to all later ones |
| `SeaNetwork.Engine.UpdateSeaLanes` | sow-core/src/sea_lane.rs:47-144 | one call advances the build by one port or publishes it; a change restarts it |
| `SeaNetwork.Engine.RunTicks` | sow-core/src/sea_lane.rs:47-144 | one call more than there are connected ports publishes the whole network |
| `SeaNetwork.OneLanePerPair` | sow-core/src/sea_lane.rs:85-134 | with distinct ids there is exactly one lane per pair that passes the filters, and none for other pairs |
| `SeaPorts.LaneBetween` | sow-core/src/sea_lane.rs:80-134 | for any two buildings with own ids: the published network has a lane between them iff both are ports on one water body at most 500 tiles apart and the path finder knows a way of at most 1000 tiles, namely that way, once |
| `SeaNetwork.NetworkPush` | sow-core/src/sea_lane.rs:126-132 | a pushed lane gets its position as id and keeps the network right |
| `SeaNetwork.RouteOverNetwork` | sow-core/src/sea_lane.rs:47-236 | every route over the published network is a connected water way between the ports |
| `SeaNetwork.PublishedIsHarmless` | sow-core/src/sea_lane.rs:47-199 | over a published network of up to 4,294,966 lanes wrapping is harmless between any two ports |
| `WarpFleet.PlayerWaterComponents` | sow-core/src/warp_fleet.rs:143-171 | ascending, without repeats, exactly the water bodies of the player's border shores |
| `WarpFleet.ClosestTargetShoreForPlayer` | sow-core/src/warp_fleet.rs:196-234 | the target's qualifying shore with least (distance, index), or None if there is none |
| `WarpFleet.FleetScratch.NextStamp` | sow-core/src/warp_fleet.rs:264-273 | after growing, advancing and wrapping, no old mark equals the new stamp |
| `WarpFleet.FleetScratch.ClosestNeutralShoreOnComponents` | sow-core/src/warp_fleet.rs:241-334 | visits exactly the tiles within the distance and returns the least (distance, index) qualifying shore, over any sequence of calls |
| `WarpFleet.ReachAll` | sow-core/src/warp_fleet.rs:304-330 | although the steps are row-parity hex offsets, a closed search reaches every tile within the distance |
| `WarpFleet.HexHasCardinals` | sow-core/src/warp_fleet.rs:304-309 | both sets of hex offsets contain the four cardinal ones |
| `WarpFleet.BestShoreSpawnForTransport` | sow-core/src/warp_fleet.rs:348-404 | the launcher's nearest shore on the given water body, or touching any water |
| `WarpFleet.LandingHasLaunch` | sow-core/src/warp_fleet.rs:117-128 | any landing that was chosen has a launch shore on its water body |
| `WarpFleet.ResolveFleetRoute` | sow-core/src/warp_fleet.rs:70-139 | never `NoLaunchShore`; which error for which input; `NoWaterPath` only if the path finder, asked for the nearest landing and the launch shore nearest to it, knows no way; on success that way, on one nonzero water body |
| `MapFile.Encode` | sow-core/src/map_file.rs:342-373 | writes `Encoded` |
| `MapFile.ParseHeader` | sow-core/src/map_file.rs:242-292 | computes `HeaderOf`, with its errors in order |
| `MapFile.Parse` | sow-core/src/map_file.rs:295-340 | computes `MapOf`, with its errors in order |
| `MapFile.RoundTrip` | sow-core/src/map_file.rs:295-373 | parsing an encoding gives the map back iff lengths and counts fit 16 bits and the terrain has one byte per tile |
| `MapFile.ParsePrefix` | sow-core/src/map_file.rs:242-340 | what parsing the first k bytes of an encoding yields, for every k |
| `MapFile.StrictPrefixRejected` | sow-core/src/map_file.rs:242-340 | every strict prefix is rejected except the one that drops exactly the geographic record |
| `MapFile.StampAppends` | sow-core/src/map_file.rs:342-373 | a stamped file is the unstamped one plus 17 bytes |
| `MapFile.InlineRoundTrip` | sow-core/src/map_file.rs:266-270 | the transitional layout parses to the same map |
| `MapFile.ParsedFits` | sow-core/src/map_file.rs:295-340 | only maps that fit the format come out of the parser |
| `MapFile.SpawnsFaithful` | sow-core/src/map_file.rs:259-265 | the spawn table is read back in full, and reported short when cut off anywhere |
| `MapFile.StringFaithful` | sow-core/src/map_file.rs:213-240 | the same for a length-prefixed string |
| `MapFile.GeoFaithful` | sow-core/src/map_file.rs:193-211 | the same for the geographic record and its tag |
| `MapLayout.ParseIs` | sow-core/src/map_file.rs:295-340 | a file parses to a map exactly if the bytes hold it: each field as a little-endian number or text at its offset, the geographic record behind the terrain in version 1 and in front of it in version 2 |
| `MapLayout.HeaderIs` | sow-core/src/map_file.rs:242-292 | the header of a file in either layout, with or without its terrain, and where it ends |
| `MapLayout.EncodedIs` | sow-core/src/map_file.rs:342-373 | the encoder writes that layout as version 1, two zero bytes, and nothing else |
| `MapLayout.Rejected` | sow-core/src/map_file.rs:242-254 | which bytes are rejected for their magic and which for their version |
| `MapLayout.CharLengthIs` | sow-core/src/map_file.rs:213-220 | text is cut into characters exactly as UTF-8 encodes scalar values (RFC 3629, section 3) |
| `MapCatalog.EncodeCatalog` | sow-core/src/map_file.rs:375-390 | writes the current catalog layout |
| `MapCatalog.ParseCatalog` | sow-core/src/map_file.rs:392-430 | computes `CatalogOf`, with its errors in order |
| `MapCatalog.CatalogRoundTrip` | sow-core/src/map_file.rs:375-430 | parsing an encoded catalog gives it back iff it fits the format |
| `MapCatalog.OldCatalogRead` | sow-core/src/map_file.rs:412-419 | catalogs of earlier versions parse with the new fields at 0 and 1 |
| `MapCatalog.CutCatalogRejected` | sow-core/src/map_file.rs:392-430 | every strict prefix of a catalog is too short |
| `MapCatalog.TrailingBytesIgnored` | sow-core/src/map_file.rs:392-430 | bytes behind the last entry change nothing |
| `MapLayout.CatalogIs` | sow-core/src/map_file.rs:392-430 | a catalog parses to exactly the entries whose fields the bytes hold at their offsets, for each of the versions |
| `Calendar.DaysOfCivil` | sow-data/src/events.rs:208-229 | for every integer the computed date is valid and has that day number |
| `Calendar.CivilOfDays` | sow-data/src/events.rs:208-229 | every valid date is recovered from its day number |
| `Calendar.NextAddsOne` | sow-data/src/events.rs:208-216 | the calendar's next day (month lengths and leap rule of RFC 3339) adds exactly one |
| `Calendar.CivilSuccessor` | sow-data/src/events.rs:218-229 | the next day number gives the calendar's next day |
| `Dates.SameDate` | sow-data/src/time_util.rs:28-37 | the second copy of the conversion, with truncating division, computes the same date |
| `Dates.NowIsNow` | sow-data/src/time_util.rs:15-48 | date and time of day are valid and together give back the clock reading |
| `Dates.FormattedParses` | sow-data/src/events.rs:118-129 | a formatted date is read back iff its year is not negative |
| `Dates.FormattedShape` | sow-data/src/events.rs:128 | a formatted date has two-digit months and days behind its dashes and a year of at least four characters, sign included, zeros in front |
| `Dates.ValueFront` | sow-data/src/events.rs:118-122 | the number a digit string stands for, most significant digit first |
| `Dates.ParseDateIs` | sow-data/src/events.rs:118-126 | a text is a date exactly if it is three numerals joined by dashes with month and day in range |
| `Dates.ShiftTwice` | sow-data/src/events.rs:118-129 | two shifts are one shift by the sum exactly if the date in between is not before year 0, else the second fails |
| `Dates.ShiftByOne` | sow-data/src/events.rs:118-129 | from year 0 on, shifting by one gives the calendar's next day |
| `Dates.ShiftFailsBeforeYearZero` | sow-data/src/events.rs:118-129 | the date for which the law fails |
| `Accounts.PlayerAccount.GrantGems` | sow-data/src/db.rs:2079-2097 | the account becomes `Apply` of the grant |
| `Accounts.PlayerAccount.RevokeGems` | sow-data/src/db.rs:2134-2152 | the same for a refund |
| `Accounts.PlayerAccount.UnlockLeader` | sow-data/src/db.rs:1948-1984 | the same for a leader purchase; no balance underflows |
| `Accounts.PlayerAccount.UnlockSkin` | sow-data/src/db.rs:1998-2012 | the same for a skin purchase; no balance underflows |
| `Accounts.PlayerAccount.CompleteTutorial` | sow-data/src/db.rs:2337-2360 | the same for the tutorial reward; a preferred leader that names nobody is replaced by Boudica |
| `Leaders.LeaderFromIdIs` | sow-data/src/commerce.rs:151-169 | a text names a leader iff it is one of the leader's three spellings up to case and punctuation; no two leaders share one |
| `Leaders.ComparedIs` | sow-data/src/commerce.rs:151-156 | what is compared of each character: ASCII letters without their case, digits, and nothing else |
| `Accounts.ExperienceIsEarned` | sow-data/src/db.rs:167-179 | after any run without a replaced profile, experience in total and per leader is what was handed out, up to the 32-bit cap, and the level is in step |
| `Accounts.RewardGoesTo` | sow-data/src/db.rs:221-237 | a match rewards the leader it names, else the preferred one, else Caesar; the tutorial the preferred one, else Boudica, with 100 of everything; laurels and the leader's experience add up from nothing and saturate |
| `Accounts.RewardedIsPreferred` | sow-data/src/db.rs:2312-2354 | after a tutorial or a match with a known leader the preferred leader on record names the one that was rewarded |
| `Accounts.EquippedIsOwned` | sow-data/src/db.rs:2034-2048 | at every point of a run the equipped skin is owned, if and only if no replaced profile wears one it does not own |
| `Accounts.PlayerAccount.Mutate` | sow-data/src/db.rs:1165-1198 | running a request's mutator on the object is `Apply` on its value |
| `Accounts.NoHalfEffect` | sow-data/src/db.rs:1948-2012 | a mutator that does not set its mark leaves the account exactly as it was |
| `Accounts.EffectIs` | sow-data/src/db.rs:1948-2152 | the commit that sets a mark makes exactly the matching payment with it |
| `Accounts.TakesEffect` | sow-data/src/db.rs:1948-2152 | exactly when it does: the mark is not set and, for a purchase, the leader is not free this week and the balance covers the price |
| `Accounts.LeavesAlone` | sow-data/src/db.rs:2034-2048 | equipping changes the worn skin iff it is owned or taken off, renaming the name, replacing the profile; what each mutator leaves alone |
| `Accounts.OncePerKey` | sow-data/src/db.rs:1945-2152 | in any run of commits that drops no mark the account has, each purchase event, item and the tutorial takes effect at most once |
| `Accounts.LaterCommitsIdle` | sow-data/src/db.rs:2080-2087 | after the effective commit, further ones with the same key change nothing |
| `Accounts.LeadersArePaidFor` | sow-data/src/db.rs:1948-1984 | purchases take 500 laurels per leader bought with laurels, and the leaders gained number the purchases |
| `Accounts.SafeReplacement` | sow-data/src/db.rs:2229-2252 | replacing a profile is safe for a mark, whatever commits follow, if and only if the replacement carries the mark or the account does not |
| `Accounts.StaleProfilePaysTwice` | sow-data/src/db.rs:2229-2252 | a stale profile written back lets the same event pay twice |
| `AccountStore.NoLostUpdates` | sow-data/src/db.rs:1165-1198 | in every interleaving of any number of callers, with replies lost at any point, the stored account is the fold of the committed mutators in order; each successful caller is in it exactly once and was handed the account its own commit left, a failed one is not, an unanswered one at most once; nobody tries more than five times |
| `AccountStore.OncePerKeyInterleaved` | sow-data/src/db.rs:1165-1198 | so the once-only guarantee holds in every interleaving whose committed replacements drop no mark the stored account has |
| `AccountStore.CommitInv` | sow-data/src/db.rs:1187-1195 | a compare-and-set that finds the text it read commits its mutator on the current account, even if the text changed and changed back |
| `AccountStore.MissingStaysMissing` | sow-data/src/db.rs:1181-1183 | a missing account fails every caller that gets an answer and stays missing |
| `AccountStore.CourseIs` | sow-data/src/db.rs:1165-1198 | a conflict is answered only after five commits of others or more, and `Unanswered` only if a trip was lost; success means this mutator was committed once, last |
| `AccountStore.LoopIsRun` | sow-data/src/db.rs:1165-1198 | the loop together with what the others commit in between is one of the interleavings of `NoLostUpdates` |
| `AccountStore.Valkey.UpdateAccountAtomic` | sow-data/src/db.rs:1165-1198 | the five-attempt loop: answer and store are those of `Course` for every timing of the other callers and every loss of a trip; success means this mutator was the last commit, once; five conflicts mean it never committed and others did at least five times; after a lost reply it was the last commit, once, or never committed |

## Left out

- Listening sockets, buffer recycling and statistics in the bridge's command loop: they do not touch connection state.
- The receive path (`push_rx` and its overflow queue), wakeups of blocked writers, and buffer pooling.
- The ten-second stall clock: whether ten seconds have passed comes with the answer EAGAIN of the stack (`TryAgain(stalled)`).
- Bridge.Driver.PollWrite: does not model a task switch between its checks and its push; it is one step.
- Territory.GameState.SetTileOwner: owner ids are at most 0x0FFF, as the id mask needs; larger ids and the overflow of a 32-bit conquest counter are not modelled.
- Territory.GameState.UpgradeTile: whether the player is alive and can pay the price, a float, is one input.
- The shoreline computation of sow-core/src/map.rs.
- Image decoding, colour classification, downscaling and packing; magnitudes are integers, not floats. `process_shore` is one scan by index instead of two nested coordinate loops.
- Progress callbacks of the water labelling (floating point).
- SeaSearch.RouteThroughLanes: `Harmless` is exact below 2^32 tiles in total. From there on it is sufficient but not necessary (`SeaRuns.HarmlessAllTheSame`), and no exact condition is given. An endless loop is an outcome of its own (`Endless`) instead of a method that does not return.
- SeaNetwork.Engine.FindLane: the squared distance is an unbounded integer; the 32-bit product fits for maps up to 32767 tiles wide and high.
- Map files on targets with 32-bit `usize`, where width times height can overflow; geographic projection; catalog sorting; compression.
- Dates.ShiftDate: does not model the wrap-around of 64-bit day arithmetic for years beyond about 2.5 * 10^16.
- Account creation and deletion, the match statistics of a recorded match other than its reward, the starting leader of a new account, and the error replies of the callers: their flag is set in one attempt and not cleared for the next, so a purchase that commits after a lost attempt can still be answered with an error.
- Account update text is compared by value; serialization is a parameter.
