# Verified model of the game server's accounting and state machines

Belfast is a game server whose packet handlers keep dorms, ships, equipment, shops and events of a
player ("commander") in a database. This project restates the handlers that compute or protect
something and proves what they compute. The database is a state record on which a transaction
happens completely or not at all; configuration tables, the clock, random draws and decoded
requests are parameters. Go's `uint32` wraps in `Word32`, and every sum, product and counter that
can wrap in the program does so here; a statement that needs a sum to fit says so in a
precondition a caller can check.

Code that updates records is a class whose methods are proved against a specification function;
lemmas then say what the specification promises over all inputs and runs, and the files named
`...Numbers`, `...Rows`, `...Ships`, `...Shape`, `...Outcomes` and `DormBill` say what each operation
does in the columns, sides and counts of the tables, without the functions it is specified by.
Where Go iterates over a map the model picks an arbitrary element each time, so a method's
postcondition holds for every order.

| File | Concern |
|---|---|
| `Dorm`, `DormPolls`, `DormLedger`, `DormBill` | the lazy dorm simulation, independence of when it is polled, the coin and intimacy ledger, the bill of a tick and of a stay |
| `ShipExp`, `CommanderExp`, `BlueprintExp`, `LevelNumbers` | the three levelling loops, the surplus bank, raising the level cap, where a gain leads |
| `Furniture`, `FurnitureArea`, `FurnitureShape` | the placement validator, its geometry, and what directions mean |
| `PacketStream` | frame reassembly, the second reader and the writer |
| `EquipChain`, `EquipBag`, `EquipNumbers` | upgrade and revert chains, the bag, and what they cost |
| `EquipSlots`, `SlotOutcomes` | slot legality, config resolution, and where pieces end up |
| `Shipyard`, `YardRows` | the blueprint state machine and the rows it writes |
| `LoveLetter`, `LoveLetterLedger`, `RepairTarget` | gifts, their ledger, the repair resolver |
| `ExchangeCode` | redemption as interleaved steps with compensation |
| `Commission`, `CommissionShips` | commissions and the ships away on them |
| `ThemeCounters`, `ThemeRows` | likes and favourites of published themes |
| `NewServerShop`, `ShopNumbers` | the activity shop |
| `CityRebuild`, `CityRows` | points, buildings, recruits and buffs |
| `Word32`, `Division`, `Collections`, `AmountMaps`, `Chains`, `Options`, `DropTypes` | shared vocabulary |

`dafny verify dfyconfig.toml` checks everything.

## What the code does that one might not expect

- The dorm grants the same for any poll times only once its clock is started; a dorm whose clock
  was never started, and could tick, grants less when polled only late (`DormPolls.ScheduleFreeIff`).
- Opening the dorm re-stamps its clock, so a commander who looks in more often than one tick
  never receives anything; exactly when is `DormPolls.OpeningOftenStarves`, and when an opening
  is free is `DormPolls.OpeningCostsNothingIff`.
- A ship below cap 100 loses what arrives after it is full, so splitting a gain matters exactly
  when the first part covers the prices up to the cap; from cap 100 on, raising the cap late
  loses nothing exactly up to a leftover of 3,000,000 (`ShipExp.GainSplitBelow100`, `ShipExp.LateRaise`).
- From dorm level 5 the map's lower corner wraps past its upper one and no solid furniture fits
  (`FurnitureArea.StaticFloor`).
- The packet writer keeps 16 bits of the size, so payloads above 65530 bytes do not come back; a
  size field of 0 jams the stream parser for good and one of 1 to 4 crosses the slice bounds
  (`PacketStream.HeaderRoundTrip`, `PacketStream.JammedIff`, `PacketStream.Decoder.Read`).
- A blueprint whose first strengthening request finishes it refuses the second, although the
  undivided request would be accepted (`BlueprintExp.GainInTwo`).
- Taking a gift back can leave an empty medal behind (`LoveLetterLedger.LastGiftRowsIff`).
- The repair resolver would depend on Go's map order if a year 0 could be a candidate; the
  loader skips such rows (`RepairTarget.OrderFreeIff`, `RepairTarget.LoadedIsOrderFree`). But each
  request loads the tables anew, and rows that write different values to one place leave the last
  one visited: then the letter does depend on the map order (`RepairTarget.RowsOrderFreeIff`,
  `RepairTarget.LaterRowWins`).
- A battle in which some ship's growth fails keeps what the ships visited before it gained, so the
  fleet depends on the map order exactly as `ShipExp.FleetOrderFreeIff` says.
- When mail and compensation both fail, and only then, a commander has spent the code without a
  mail and is refused from then on (`ExchangeCode.StrandedIff`, `ExchangeCode.RowShutsOut`).
- A theme id is two decimal numbers in a row, so slots of different commanders can share one and
  unpublishing one deletes the versions of both; exactly which ones is said by
  `ThemeCounters.ThemeIdsSharedIff` and `ThemeCounters.UnpublishTakes`.
- Publishing under an upload time that already has rows starts the counters below the rows
  (`ThemeCounters.NextCounts`).
- A buff request large enough to wrap its target level lowers the level for free
  (`CityRebuild.WrappedRequestLowers`, `CityRebuild.WrappedRequestIsFree`).
- A shop request whose counts wrap pays and counts for the wrapped sum but hands out every item in
  full (`NewServerShop.HandedOutMatchesIff`, `NewServerShop.RunHandsOutIff`,
  `NewServerShop.OneUnitTwoPiles`).
- Finishing a commission is no transaction: a failure while paying out loses the commission
  (`Commission.CommissionStore.Finish`).
- A shop good that costs nothing is still refused to a commander without a row for its currency
  (`NewServerShop.NewServerShopStore.Purchase`).

## Model

| member | source | states |
|---|---|---|
| `Dorm.DormStore.Tick` | internal/answer/dorm_simulation.go:59-192 | The catch-up handler, which divides once and multiplies, leaves the dorm as the eager one-tick-at-a-time simulator `Ticked` does in every branch: no template, nobody home, unstarted clock, less than a tick, free or unaffordable food, productive. |
| `Dorm.CatchUpIsSimulation` | internal/answer/dorm_simulation.go:124-190 | Jumping by the number of whole, affordable ticks equals simulating tick after tick, for every roster and with every 32-bit wrap taken into account. |
| `Dorm.SimulateTakesGranted` | internal/answer/dorm_simulation.go:124-146 | The eager simulator takes exactly min(elapsed ticks, ticks the food pays for) steps. |
| `Dorm.StepsJump` | internal/answer/dorm_simulation.go:161-190 | Multiplying each counter's rate by `k` (mod 2^32) is adding it `k` times, for food, load, experience, stamps and every ship. |
| `Dorm.DormStore.CountShips` | internal/answer/dorm_simulation.go:73-159 | The two counts are the number of ships in the dorm and the number of those that train. |
| `Dorm.DormStore.AccrueShips` | internal/answer/dorm_simulation.go:175-190 | Exactly the ships in the dorm gain intimacy and coins, exactly the training ones experience; other rows are untouched. |
| `Dorm.DormStore.Enter` | internal/answer/dorm_packets.go:35-90 | Training resets the gathered experience and starts a stopped timer 15 seconds ahead; resting does neither; an unknown ship is refused without change. |
| `Dorm.DormStore.Exit` | internal/answer/dorm_packets.go:92-140 | Ticks first, turns the gathered experience into levels, empties the other accruals; on any failure the tick is undone as well. |
| `Dorm.DormStore.ClaimIntimacy` | internal/answer/dorm_packets.go:257-338 | One ship's intimacy, or all intimacy and coins of every lodger; the coins paid are the (mod 2^32) sum over the lodgers. |
| `Dorm.DormStore.DrainLodgers` | internal/answer/dorm_packets.go:314-325 | The loop pays the sum of the lodgers' coins and empties exactly their accruals. |
| `Dorm.DormStore.ClaimMoney` | internal/answer/dorm_packets.go:340-380 | The amount taken off the ship is the amount added to the balance. |
| `DormBill.CountsAreSizes` | internal/answer/dorm_simulation.go:73-159 | The two counts are sizes of sets of roster places: those in state 5 or 2, and those in state 5. |
| `DormBill.TickInNumbers` | internal/answer/dorm_simulation.go:59-192 | The whole catch-up without the simulator, every case: with a bill of consumption times lodgers (training or resting) as a word, min(elapsed / time, food / bill) ticks; food, load, experience, stamps and every ship change by just that many times their rate. |
| `DormBill.RestingShipEats` | internal/answer/dorm_simulation.go:130-190 | An instance: one resting ship eats and is paid for two ticks. |
| `DormBill.NoTemplateNoTick` | internal/answer/dorm_simulation.go:66-73 | Without a template or a tick length nothing changes. |
| `DormBill.EnterInRows` | internal/answer/dorm_packets.go:35-90 | Kind 1 is state 5 with an empty tally and starts a stopped timer, kind 2 is state 2; nothing else on the row or in the dorm changes. |
| `DormBill.StayInNumbers` | internal/answer/dorm_packets.go:92-140 | A training stay from entering to leaving: one gain of ticks times the template's experience, tallies emptied, everybody else paid for the same ticks; it fails exactly if that gain does. |
| `DormPolls.PollScheduleIrrelevant` | internal/answer/dorm_simulation.go:101-192 | For a started clock, any list of polls in any order grants what one poll at the latest time grants, also when food runs out midway. |
| `DormPolls.ScheduleFreeIff` | internal/answer/dorm_simulation.go:101-146 | Poll times are irrelevant for all poll lists if and only if the clock is started or nothing can ever be granted. |
| `DormPolls.EarlyPollMatters` | internal/answer/dorm_simulation.go:112-119 | For every unstarted dorm that could tick, two concrete poll times grant something that one poll at the later time does not. |
| `DormPolls.SimulateInTwo` | internal/answer/dorm_simulation.go:124-169 | Simulating to one time and on to another is simulating to the later of the two. |
| `DormPolls.FoodConserved` | internal/answer/dorm_simulation.go:161-163 | Stock plus load is the same word after any tick, and the stock never underflows. |
| `DormPolls.ExpBooked` | internal/answer/dorm_simulation.go:165-187 | The experience put on training ships by a tick sums to what is booked on the dorm. |
| `DormPolls.NextStampAhead` | internal/answer/dorm_simulation.go:168-173 | After a productive tick the next stamp is 0 or in the future if and only if nobody trains, the food before it pays for no tick beyond those over, or the next boundary fits 32 bits or wraps to 0. |
| `DormPolls.OpeningOftenStarves` | internal/answer/dorm_data.go:33-50 | For every dorm and every list of opening times, opening grants nothing if and only if nothing is running, the food is short, or every opening comes less than a tick after the stamp before it. |
| `DormPolls.OpeningCostsNothingIff` | internal/answer/dorm_data.go:33-50 | Opening any dorm at any time, its clock unstarted, behind or ahead, changes nothing that any later poll grants if and only if nothing is running, the food is short, or the closed condition `Free` holds; for a started clock that is a tick boundary, food for no tick beyond those over, or a next boundary beyond 32 bits. |
| `DormLedger.EventConserves` | internal/answer/dorm_packets.go:101-380 | Every handler conserves coins: wallet + pending + forfeited before and after differ by what the tick handed out; likewise intimacy. |
| `DormLedger.TickPays` | internal/answer/dorm_simulation.go:175-190 | What a tick puts on the ships is rate times lodgers for every granted tick. |
| `DormLedger.RunConserves` | internal/answer/dorm_packets.go:101-380 | The same law over every run of tick, enter, leave and the claims, as long as the total handed out fits 32 bits. |
| `ShipExp.OwnedShip.ApplyExpGain` | internal/answer/event_finish.go:342-379 | Climbs the level table as the recursive `Gain` says, banks the excess at a cap of at least 100, and leaves the record alone when a row cannot be decoded. |
| `ShipExp.GainSplit` | internal/answer/event_finish.go:342-379 | From cap 100 upwards gaining `a` then `b` is gaining `a + b`, for every table with missing, free or broken rows. |
| `ShipExp.ReachesCapIff` | internal/answer/event_finish.go:354-370 | The climb reaches the cap if and only if every level on the way has a price and exp covers their sum. |
| `ShipExp.GainSplitBelow100` | internal/answer/event_finish.go:346-379 | Below cap 100 splitting is harmless if and only if a part is empty, a level on the way has no price, or exp and the first part do not cover the prices up to the cap. |
| `ShipExp.GainAllIsOneGain` | internal/answer/event_finish.go:342-379 | Any list of gains amounts to one gain of their sum. |
| `ShipExp.GainConserves` | internal/answer/event_finish.go:342-379 | Prices of the levels passed + experience + bank grow by exactly the gain until the bank is full. |
| `ShipExp.AddSurplusSplit` | internal/answer/battle_session.go:572-582 | Banking twice is banking the sum, cap included. |
| `ShipExp.OwnedShip.ConvertSurplus` | internal/answer/upgrade_ship_max_level.go:201-231 | The whole bank climbs the table again under the new cap; the record is only read. |
| `ShipExp.OwnedShip.UpgradeMaxLevel` | internal/answer/upgrade_ship_max_level.go:23-88 | Accepted exactly for a full ship of cap at least 100 with a next cap, payment and readable rows; otherwise nothing changes. |
| `ShipExp.FindNextMaxLevel` | internal/answer/upgrade_ship_max_level.go:132-152 | Finds the one level up to 200 that is flagged as a cap with only readable, unflagged rows in between; 0 if there is none. |
| `ShipExp.NextCapIs` | internal/answer/upgrade_ship_max_level.go:132-152 | Such a level is unique. |
| `ShipExp.LateRaise` | internal/answer/upgrade_ship_max_level.go:201-231 | Raising the cap after filling up ends where the new cap would have led all along if and only if the leftover fits the 3,000,000 bank. |
| `ShipExp.LateRaiseAfterRun` | internal/answer/upgrade_ship_max_level.go:201-231 | The same if-and-only-if for experience earned in any number of parts. |
| `ShipExp.RaiseFull` | internal/answer/upgrade_ship_max_level.go:201-231 | The if-and-only-if for a full ship, in terms of the points left over at its old cap. |
| `ShipExp.GrowInBattle` | internal/answer/battle_session.go:526-553 | The battle handler's inlined copy of the loop computes the same `Gain`. |
| `ShipExp.Fleet.ApplyBattleUpdates` | internal/answer/battle_session.go:515-570 | The gains are visited in some order of all of them; ships and outcome are what visiting them in that order up to the first failure leaves. Succeeds if and only if no gain fails, and then every visited ship is grown and updated. |
| `ShipExp.VisitAllIs` | internal/answer/battle_session.go:519-570 | Exactly the ships visited before the first failing one are updated. |
| `ShipExp.FleetOrderFreeIff` | internal/answer/battle_session.go:519-570 | All visiting orders leave the same fleet if and only if no gaining ship fails or no gain that succeeds changes its ship. |
| `LevelNumbers.ClimbArrives` | internal/answer/event_finish.go:354-371 | A climb stands at a level if and only if all levels before it charge in the ship's own column (`exp_ur` or `exp`) and are paid, and that one does not charge, is not paid, or is the cap; what is left is the experience less their sum. |
| `LevelNumbers.ArrivesOnce` | internal/answer/event_finish.go:354-371 | There is exactly one such level. |
| `LevelNumbers.GainInNumbers` | internal/answer/event_finish.go:342-379 | A gain below the cap puts the ship there with the rest on the bar, or banked up to 3,000,000 if full from cap 100 on, and fails exactly at a broken row. |
| `LevelNumbers.FullGain` | internal/answer/event_finish.go:346-351 | A full ship banks the gain from cap 100 on and loses it below. |
| `LevelNumbers.ConvertInNumbers` | internal/answer/upgrade_ship_max_level.go:201-231 | Under a raised cap bar and bank together get to that level, and what a full ship has left is banked anew. |
| `LevelNumbers.NextCapInRows` | internal/answer/upgrade_ship_max_level.go:132-152 | The next cap is the first flagged level above, up to 200, with only readable rows on the way. |
| `LevelNumbers.BattleInRows` | internal/answer/battle_session.go:519-570 | Without a failure every gaining ship has grown and has the energy and intimacy the battle left it, and no other ship changes. |
| `CommanderExp.Commander.ApplyExpGain` | internal/answer/battle_session.go:476-513 | The commander's loop climbs as `Gain` says; a broken row keeps the levels climbed so far and reports failure. |
| `CommanderExp.GainInTwo` | internal/answer/battle_session.go:476-513 | Two gains are one gain of the sum on any table, from any bar, failures included. |
| `CommanderExp.ClimbConserves` | internal/answer/battle_session.go:476-513 | Below level 200, from a bar within its price, prices of the levels passed plus the bar grow by exactly the gain. |
| `LevelNumbers.CommanderInNumbers` | internal/answer/battle_session.go:476-513 | From a bar within its price a commander gets to the level whose predecessors' prices the points pay, with the rest; to 200 with an empty bar. |
| `Furniture.Validate` | internal/answer/backyard_validation.go:112-234 | Accepts exactly the lists whose ids and directions parse and that are geometrically acceptable. |
| `Furniture.FillMap` | internal/answer/backyard_validation.go:155-182 | The occupancy grid stays clear if and only if no two solid parentless floor items overlap as rectangles. |
| `Furniture.FillItem` | internal/answer/backyard_validation.go:168-181 | The nested loops add exactly the item's cells, or stop exactly when one is taken. |
| `Furniture.ApartIffNoSharedCell` | internal/answer/backyard_validation.go:168-181 | Two rectangles, wrapped sides included, are separated along an axis if and only if they share no cell. |
| `Furniture.CheckRelations` | internal/answer/backyard_validation.go:188-213 | Passes exactly when the parent lists the item and every child names it. |
| `Furniture.RelationsAreFamilies` | internal/answer/backyard_validation.go:188-213 | With distinct non-zero ids both lookups hold for every item if and only if "listed as child" and "names as parent" are the same relation within the list. |
| `Furniture.CheckBounds` | internal/answer/backyard_validation.go:215-231 | Passes exactly when a bounded item lies in the map and wall items respect their limit. |
| `Furniture.InsideIffOnMap` | internal/answer/backyard_validation.go:215-225 | Corner comparison is the same as checking every cell. |
| `Furniture.AcceptableIff` | internal/answer/backyard_validation.go:112-234 | The verdict in geometry and family terms alone. |
| `FurnitureArea.AreaWithinMap` | internal/answer/backyard_validation.go:112-234 | The solid floor area of an accepted list is at most the number of map cells (pigeonhole over cells). |
| `FurnitureArea.DisjointAreasAdd` | internal/answer/backyard_validation.go:155-182 | Pairwise separate solid items cover as many cells as their areas add up to. |
| `FurnitureArea.AreaIsFootprint` | internal/answer/backyard_validation.go:237-246 | Without coordinate wrap an item's area is the product of its rotated template sides. |
| `FurnitureArea.StaticFloor` | internal/answer/backyard_validation.go:29-36 | The floor is 144, 256, 400, 576 cells for levels up to 4 and empty exactly for levels in the stated residue range mod 2^30 (so from level 5). |
| `FurnitureArea.NoFloorAtHighLevels` | internal/answer/backyard_validation.go:29-36 | At such levels no accepted list has any solid floor area. |
| `FurnitureShape.CoversIs` | internal/answer/backyard_validation.go:236-245 | Direction 1 spans the template's first side along x and its second along y, any other direction the reverse. |
| `FurnitureShape.QuarterTurn` | internal/answer/backyard_validation.go:236-245 | Turning an item transposes its cells. |
| `FurnitureShape.OverlapIffSharedCell` | internal/answer/backyard_validation.go:168-181 | Two items share a cell if and only if their rectangles, written in turned sides with wrap-around, meet. |
| `FurnitureShape.AcceptedInNumbers` | internal/answer/backyard_validation.go:112-234 | The whole verdict on a list with distinct ids in sides, coordinates, kinds and families. |
| `FurnitureShape.TurnedSideBySide` | internal/answer/backyard_validation.go:236-245 | An instance: two turned items stand side by side where unturned ones collide. |
| `PacketStream.Decoder.Read` | cmd/pcap_decode/main.go:85-125 | After every read, buffer, counter and output are what a one-shot parse of everything read so far prescribes; it dies exactly when a size field of 1 to 4 is reached. |
| `PacketStream.ParseInTwo` | cmd/pcap_decode/main.go:109-125 | A stream cut anywhere parses like the whole, whatever it holds. |
| `PacketStream.ChunksIrrelevant` | cmd/pcap_decode/main.go:85-125 | Any list of reads hands out the same frames and keeps the same rest as one read. |
| `PacketStream.Lossless` | cmd/pcap_decode/main.go:109-125 | Frames followed by the rest are the input, and every frame's size field is its size. |
| `PacketStream.WrittenFramesComeBack` | cmd/pcap_decode/main.go:109-125 | Any list of well-formed frames written one after another parses back to itself with nothing left. |
| `PacketStream.JammedIff` | cmd/pcap_decode/main.go:113-116 | A stalled buffer stays stalled under every continuation if and only if its size field is there and 0. |
| `PacketStream.ZeroSizeJams` | cmd/pcap_decode/main.go:113-116 | After a size field of 0 whatever follows stays in the buffer, and the frames handed out so far are final. |
| `PacketStream.Decoder.EmitPacket` | cmd/pcap_decode/main.go:127-134 | Writes the record exactly when it passes the id filter and the limit is not used up. |
| `PacketStream.EmitNext` | cmd/pcap_decode/main.go:127-134 | Filtering and counting one frame at a time yields the first Limit matching records of the stream. |
| `PacketStream.ReadSinglePacket` | internal/answer/server_status_cache.go:134-149 | Returns a packet exactly when the stream parser yields one, and then the same first frame. |
| `PacketStream.HeaderRoundTrip` | internal/connection/server.go:405-421 | A packet given a header parses back to itself if and only if its payload has at most 65530 bytes; its id, index and payload are read back. |
| `PacketStream.SentIsReceived` | cmd/pcap_decode/main.go:85-134 | Records written with headers and read in any pieces leave the reader with nothing, and it emits exactly the first `limit` records of the id asked for, unchanged and in order. |
| `PacketStream.OneFrame` | cmd/pcap_decode/main.go:109-125 | A stream parses to exactly itself as one frame if and only if its size field is its size. |
| `EquipChain.ComputeUpgradeCosts` | internal/answer/upgrade_equipment_in_bag.go:91-110 | The loop follows `next` and adds each step's coins and materials, failing where a row, a successor or well-shaped materials are missing. |
| `EquipChain.UpgradeInTwo` | internal/answer/upgrade_equipment_in_bag.go:91-110 | Upgrading by `a + b` is upgrading by `a`, then by `b`: same piece, same total price, same failures. |
| `EquipChain.Totals.AddTransUseItems` | internal/answer/trans_use.go:8-26 | Adds the pairs in order, skipping zero ids and amounts, and fails exactly on malformed materials. |
| `EquipChain.AddPairsCombines` | internal/answer/trans_use.go:8-26 | Adding pairs into a filled map adds what they amount to on their own. |
| `EquipChain.ComputeRevertRefunds` | internal/answer/revert_equipment.go:87-112 | Where the walk down `prev` ends, which is asked for only if it is taken, returns its root and the sum of the step prices, or the failure it meets. |
| `EquipChain.FiniteIff` | internal/answer/revert_equipment.go:95-110 | The walk ends if and only if it ends within as many steps as the catalog has pieces (pigeonhole); otherwise it takes a step from wherever it comes to. |
| `EquipChain.RefundGrowsByPrice` | internal/answer/revert_equipment.go:87-112 | On inversely linked tables an upgraded piece refunds what it refunded before plus exactly what the upgrade cost. |
| `EquipChain.RevertUndoesUpgrade` | internal/answer/revert_equipment.go:87-112 | Reverting an upgraded piece returns its root with the earlier refund plus everything paid. |
| `EquipBag.Commander.UpgradeInBag` | internal/answer/upgrade_equipment_in_bag.go:19-89 | Takes one piece, its price in coins and materials, and gives the target piece; a refused request changes nothing. |
| `EquipBag.Commander.RevertInBag` | internal/answer/revert_equipment.go:19-85 | Takes one revert item and the piece, gives the root and the refund; a refused request changes nothing. |
| `EquipBag.UpgradeThenRevert` | internal/answer/revert_equipment.go:19-85 | Upgrading any piece and reverting the result returns its root, everything paid and its earlier refund; one revert item is the only loss. |
| `EquipBag.RootUpgradeThenRevert` | internal/answer/revert_equipment.go:19-85 | For a root piece that is a full round trip of coins, materials and the piece. |
| `EquipNumbers.UpgradeInNumbers` | internal/answer/upgrade_equipment_in_bag.go:91-110 | Up the chain: when an upgrade exists, the piece it ends on, and coins and materials as 32-bit sums over the rows passed. |
| `EquipNumbers.UpgradedInNumbers` | internal/answer/upgrade_equipment_in_bag.go:19-89 | The upgrade request is accepted exactly with the piece, the chain, the coins and the materials there, and takes just those sums and that piece. |
| `EquipNumbers.RefundInNumbers` | internal/answer/revert_equipment.go:87-112 | Down the chain: when the walk succeeds, its root, and coins and materials as 32-bit sums over the rows passed. |
| `EquipNumbers.RevertedInNumbers` | internal/answer/revert_equipment.go:19-85 | The revert request is accepted exactly with the piece, the revert item and a walkable chain, and pays back just those sums and the root. |
| `EquipSlots.Resolver.ResolveConfig` | internal/answer/equip_to_ship.go:156-187 | Cached recursion answers what uncached base-chain resolution answers, keeps the cache truthful and terminates on acyclic bases. |
| `EquipSlots.AcyclicIff` | internal/answer/equip_to_ship.go:156-187 | Bases end from everywhere if and only if from each row they end within as many steps as there are rows. |
| `EquipSlots.OwnedShip.EquipToShip` | internal/answer/equip_to_ship.go:17-135 | Accepted exactly for an open slot with the same piece, an unequip that fits the bag, or an allowed piece from the bag; slot rows, bag and the in-memory list all follow. |
| `EquipSlots.OwnedShip.ApplyUpdate` | internal/answer/equip_to_ship.go:146-154 | The in-memory list keeps showing the slot rows, each position once. |
| `EquipSlots.OwnedShip.AllowedAt` | internal/answer/transform_equipment_on_ship.go:131-158 | Yes, no or a failed lookup, decided by the piece's own config and then by the limit scan. |
| `EquipSlots.MayStayIff` | internal/answer/transform_equipment_on_ship.go:131-158 | The answer is yes if and only if the type is accepted, the ship type not forbidden, no other slot carries the limited group and, for a limited piece, every other piece resolves. |
| `EquipSlots.OwnedShip.ScanLimits` | internal/answer/equip_to_ship.go:102-116 | Visiting slots by ascending position, the first other slot that cannot be resolved or carries the limited group decides the answer. |
| `EquipSlots.OwnedShip.Transform` | internal/answer/transform_equipment_on_ship.go:15-129 | Accepted exactly for the right piece in an open slot, the price, and a target that is allowed there or refused there with room in the bag; a refused or failed request changes nothing. |
| `EquipSlots.EquipKeepsLegal` | internal/answer/equip_to_ship.go:59-135 | Equipping and unequipping keep a legal ship legal. |
| `EquipSlots.TransformKeepsLegal` | internal/answer/transform_equipment_on_ship.go:87-129 | Transforming keeps a legal ship legal, whichever way the new piece goes. |
| `EquipSlots.EquipKeepsCopies` | internal/answer/equip_to_ship.go:59-135 | No copy of any piece appears or disappears over bag plus slots. |
| `EquipSlots.TransformTradesOneCopy` | internal/answer/transform_equipment_on_ship.go:87-129 | One copy of the old piece becomes one copy of the new one; all other counts stay. |
| `EquipSlots.RunStaysLegal` | internal/answer/equip_to_ship.go:17-135 | A legal ship is legal after any run of equip and transform requests. |
| `EquipSlots.RunTradesCopies` | internal/answer/transform_equipment_on_ship.go:87-129 | Over any run the copies of a piece over bag and slots change by exactly what transformations made and took. |
| `SlotOutcomes.MayStayIffWelcome` | internal/answer/transform_equipment_on_ship.go:131-158 | A piece may stay if and only if it resolves to an accepted type, does not forbid the ship and shares its limit with no other piece, all of which resolve. |
| `SlotOutcomes.NoAnswerIff` | internal/answer/transform_equipment_on_ship.go:131-158 | The check has no answer if and only if the piece cannot be resolved or, if limited, another slot cannot before any with the same limit. |
| `SlotOutcomes.SlotOpenIff` | internal/answer/equip_to_ship.go:17-60 | A slot is open if and only if its position is 1 to 5 and the ship's template accepts something there. |
| `SlotOutcomes.TransformAcceptedIff` | internal/answer/transform_equipment_on_ship.go:15-82 | Accepted exactly for the right piece in an open slot, paid, with an answer and either a welcome target or room in the bag. |
| `SlotOutcomes.TransformOutcome` | internal/answer/transform_equipment_on_ship.go:84-129 | Afterwards the slot holds the target and the bag is unchanged where it is welcome; otherwise the slot is empty and the bag has one target more. |
| `SlotOutcomes.EquipOutcome` | internal/answer/equip_to_ship.go:17-135 | An equip request that changes the slot puts the piece there off the bag and the one before it into the bag; any other changes nothing. |
| `SlotOutcomes.BagNeverOverfills` | internal/answer/transform_equipment_on_ship.go:73-82 | Over any equip and transform requests a bag of at most 250 pieces never holds more, and a fuller one never gets fuller. |
| `EquipSlots.ResolveStep` | internal/answer/equip_to_ship.go:156-187 | A variant resolves to what its base resolves to, a row without a base to itself, a missing row to nothing. |
| `Shipyard.ShipyardStore.FindOtherLive` | internal/answer/shipyard_blueprint_packets.go:66-77 | Finds whether any other blueprint is in development. |
| `Shipyard.ShipyardStore.Start` | internal/answer/shipyard_blueprint_packets.go:16-109 | Starts only a fresh, unbuilt blueprint after the cooldown with its opening tasks satisfied and nothing else live, shifting the start by the banked time. |
| `Shipyard.ShipyardStore.Stop` | internal/answer/shipyard_blueprint_packets.go:111-156 | Banks the elapsed time of a live blueprint. |
| `Shipyard.ShipyardStore.Resume` | internal/answer/shipyard_blueprint_packets.go:158-205 | Takes up a stopped blueprint when nothing else is live. |
| `Shipyard.ShipyardStore.Finish` | internal/answer/shipyard_blueprint_packets.go:207-259 | Turns a blueprint that is ready to finish and unbuilt into a ship and clears its clock. |
| `Shipyard.IsReadyToFinish` | internal/answer/shipyard_blueprint_helpers.go:118-170 | Ready exactly when begun and either strengthened to the end or naming tasks all of which are satisfied. |
| `Shipyard.NewYardIsGood` | internal/answer/shipyard_blueprint_packets.go:39-146 | An empty yard satisfies the invariant of the run law. |
| `Shipyard.ShipyardStore.ItemUnlock` | internal/answer/shipyard_blueprint_packets.go:475-540 | Builds an unbuilt blueprint for its item at once and clears its clock. |
| `Shipyard.ShipyardStore.Mod` | internal/answer/shipyard_blueprint_packets.go:314-374 | Strengthens only the ship the blueprint was built as, all or nothing. |
| `Shipyard.NextIsGood` | internal/answer/shipyard_blueprint_packets.go:39-146 | Every request keeps: one live blueprint at most, each row's clock equal to an independent stopwatch, starts a day apart. |
| `Shipyard.RunIsSound` | internal/answer/shipyard_blueprint_packets.go:39-146 | Over any run under a monotone positive clock: at most one blueprint in development, banked or live time is the total length of the work intervals, starts at least 86400 s apart, and a built ship is never replaced. |
| `Shipyard.ShipStays` | internal/answer/shipyard_blueprint_packets.go:169-250 | No request changes the ship or clock of a built blueprint; only strengthening changes its level. |
| `BlueprintExp.Blueprint.ApplyExpGain` | internal/answer/shipyard_blueprint_helpers.go:179-235 | Pours experience through the strengthening steps, all or nothing; a finished blueprint keeps none. |
| `BlueprintExp.StrengthIdForLevel` | internal/answer/shipyard_blueprint_helpers.go:237-246 | The step ids are the ordinary ones followed by the fate ones, absent exactly past the end. |
| `BlueprintExp.PourInTwo` | internal/answer/shipyard_blueprint_helpers.go:196-226 | Pouring `a` then `b` is pouring `a + b`, failures included. |
| `BlueprintExp.PourFinishesIff` | internal/answer/shipyard_blueprint_helpers.go:196-226 | Pouring reaches the end if and only if every level left is open and bar plus gain exceed their requirements, or meet them exactly with a last requirement above 0. |
| `BlueprintExp.GainInTwo` | internal/answer/shipyard_blueprint_helpers.go:179-235 | Two requests do what the undivided one does if and only if the first does not finish the blueprint in that sense; if it does, the second is refused. |
| `BlueprintExp.PourConserves` | internal/answer/shipyard_blueprint_helpers.go:196-226 | From a bar within its requirement, requirements passed plus the bar grow by exactly the gain. |
| `YardRows.GainInNumbers` | internal/answer/shipyard_blueprint_helpers.go:179-235 | Points that pay for the levels up to one leave the blueprint there with the rest; at the last level with an empty bar; a level the ship may not work on refuses the whole request. |
| `YardRows.ModInNumbers` | internal/answer/shipyard_blueprint_packets.go:314-374 | The strengthened row holds that level and that rest. |
| `YardRows.ModInTwo` | internal/answer/shipyard_blueprint_packets.go:314-374 | Strengthening twice is strengthening once with both gains unless the first finishes the blueprint. |
| `YardRows.StartInRows` | internal/answer/shipyard_blueprint_packets.go:16-109 | When a start is accepted, and that it sets the clock back by what was worked and the next start a day (86400) ahead. |
| `YardRows.StopInRows` | internal/answer/shipyard_blueprint_packets.go:111-156 | When a stop is accepted, and the time it banks. |
| `YardRows.ResumeInRows` | internal/answer/shipyard_blueprint_packets.go:158-205 | When a resume is accepted, and the shifted start. |
| `YardRows.FinishInRows` | internal/answer/shipyard_blueprint_packets.go:207-259 | When a finish is accepted, by strength or by every named task, and that the clock is cleared. |
| `YardRows.UnlockInRows` | internal/answer/shipyard_blueprint_packets.go:475-540 | When an item unlock is accepted, and the ship it leaves. |
| `LoveLetter.ResolveStrict` | internal/answer/love_letter_handlers.go:675-689 | Succeeds exactly when every item resolves to a group with a letter. |
| `LoveLetter.ResolveLenient` | internal/answer/love_letter_handlers.go:691-705 | Keeps the groups of the items that resolve, in order. |
| `LoveLetter.CountByGroup` | internal/answer/love_letter_handlers.go:726-732 | Counts each group's occurrences; groups without one have no entry. |
| `LoveLetter.ApplyNew` | internal/answer/love_letter_handlers.go:368-400 | The first loop, in any group order, moves exactly the groups whose count changed and fails exactly when one has no growth value. |
| `LoveLetter.ApplyGone` | internal/answer/love_letter_handlers.go:401-424 | The second loop, in any group order, lowers exactly the medals of groups that lost every item. |
| `LoveLetter.LoveLetterState.RealizeGift` | internal/answer/love_letter_handlers.go:347-431 | Replaces the converted items and settles every medal, or changes nothing. |
| `LoveLetter.LoveLetterState.LevelUp` | internal/answer/love_letter_handlers.go:433-466 | Raises the level to where the experience reaches once the (32-bit) threshold is met. |
| `LoveLetterLedger.MovedIs` | internal/answer/love_letter_handlers.go:382-392 | On a covered medal the saturating subtraction never saturates: both directions are the same signed sum. |
| `LoveLetterLedger.AcceptedIff` | internal/answer/love_letter_handlers.go:364-430 | Whether a gift is accepted depends on the gift alone, not on the ledger. |
| `LoveLetterLedger.RealizedValue` | internal/answer/love_letter_handlers.go:364-430 | After a gift each medal is its own part plus what the new items give, mod 2^32. |
| `LoveLetterLedger.GiftKeepsOwn` | internal/answer/love_letter_handlers.go:364-430 | A gift leaves Exp − count·ExpUp and Level − count of every group unchanged if and only if the new totals fit 32 bits, and then keeps the ledger covered. |
| `LoveLetterLedger.LastGiftCounts` | internal/answer/love_letter_handlers.go:364-430 | Giving A then C is giving C: same acceptance, same items, same medal values. |
| `LoveLetterLedger.LastGiftRowsIff` | internal/answer/love_letter_handlers.go:364-430 | The stored rows agree too if and only if every group of A had a medal or is in C; otherwise an empty medal stays behind. |
| `LoveLetterLedger.GiftTwice` | internal/answer/love_letter_handlers.go:364-430 | Repeating a gift changes nothing, from any ledger. |
| `LoveLetterLedger.LevelUpIs` | internal/answer/love_letter_handlers.go:451-461 | An accepted level-up ends on Exp / ExpUp, never lowers the level, touches nothing else, and raises it exactly when a level was due. |
| `LoveLetterLedger.DueLevelIsGranted` | internal/answer/love_letter_handlers.go:451-461 | A level that is due is always granted. |
| `LoveLetterLedger.RunIsGood` | internal/answer/love_letter_handlers.go:347-466 | Over any run of gifts and level-ups whose totals fit, count ≤ Level and Level·ExpUp ≤ Exp hold throughout, and Exp − count·ExpUp never changes. |
| `LoveLetterLedger.NewLedgerIsGood` | internal/answer/love_letter_handlers.go:347-466 | The empty ledger satisfies the invariant. |
| `LoveLetterLedger.TallyIsSize` | internal/answer/love_letter_handlers.go:726-732 | A group's count is the number of places in the list whose item the tables turn into that group with a letter. |
| `LoveLetterLedger.LevelUpAcceptedIff` | internal/answer/love_letter_handlers.go:451-461 | A level-up is granted if and only if the experience reaches (level + 1) * ExpUp as a 32-bit word. |
| `RepairTarget.LoadTables` | internal/answer/love_letter_handlers.go:530-565 | For any visiting orders of the rows: both tables hold in every place what the last usable row that fills it writes, or a legacy row's group where no row does, and no zero. |
| `RepairTarget.LoadContents` | internal/answer/love_letter_handlers.go:530-549 | The content rows alone: every place of both tables holds what the last row that fills it writes. |
| `RepairTarget.LastValueIs` | internal/answer/love_letter_handlers.go:530-549 | That value is written by a row after which none fills the place, and is 0 only if none does. |
| `RepairTarget.RowsOrderFreeIff` | internal/answer/love_letter_handlers.go:530-565 | All orders of the content rows and of the legacy rows load the same if and only if no two usable rows write different values to one place of the tables. |
| `RepairTarget.LoadedTablesAgree` | internal/answer/love_letter_handlers.go:530-565 | Without such rows any two loads build equal tables. |
| `RepairTarget.LaterRowWins` | internal/answer/love_letter_handlers.go:530-549 | An instance: for two related ships sharing an item and a year the row visited last decides which letter the item is repaired into. |
| `RepairTarget.EnterContent` | internal/answer/love_letter_handlers.go:530-549 | Enters a row under every item and every group related to its ship and touches nothing else. |
| `RepairTarget.MergeCandidates` | internal/answer/mail_storeroom_and_love_letter_handlers.go:316-330 | In any order of keys and years a candidate is the one group all keys agree on, or 0. |
| `RepairTarget.CandidateAgrees` | internal/answer/mail_storeroom_and_love_letter_handlers.go:310-331 | A year's candidate is a group if and only if some key of the item has the year and all that have it name that group. |
| `RepairTarget.SelectYear` | internal/answer/mail_storeroom_and_love_letter_handlers.go:348-370 | The selection loop returns what the recursive scan of the visiting order says. |
| `RepairTarget.ScanIs` | internal/answer/mail_storeroom_and_love_letter_handlers.go:348-365 | Without a valid year 0 the scan finds a year if and only if it is the only valid one. |
| `RepairTarget.OrderFreeIff` | internal/answer/mail_storeroom_and_love_letter_handlers.go:348-365 | All visiting orders agree if and only if there is no valid year 0 beside exactly one other valid year. |
| `RepairTarget.LoadedIsOrderFree` | internal/answer/mail_storeroom_and_love_letter_handlers.go:348-365 | On given loaded tables every order of the candidate years agrees. |
| `RepairTarget.Resolve` | internal/answer/mail_storeroom_and_love_letter_handlers.go:304-370 | With a year: that year's agreed group and letter, or failure. Without: the unique valid year, or failure. |
| `ExchangeCode.BuildExchangeAttachments` | internal/answer/exchange_code_redeem.go:26-41 | Succeeds exactly when every reward kind is supported and then hands out just the rewards, in order. |
| `ExchangeCode.ExchangeStore.RedeemTx` | internal/answer/exchange_code_redeem.go:113-136 | Row and decrement, or neither. |
| `ExchangeCode.ExchangeStore.CompensateTx` | internal/answer/exchange_code_redeem.go:153-171 | Quota back and row gone. |
| `ExchangeCode.ExchangeStore.Redeem` | internal/answer/exchange_code_redeem.go:50-182 | Running alone, the handler is five steps of the request protocol for every combination of database and mail failures. |
| `ExchangeCode.ServedIff` | internal/answer/exchange_code_redeem.go:50-182 | Undisturbed, the mail is sent if and only if code and platform fit, nothing was redeemed, quota is left and all rewards are of kind 1, 2, 4 or 7. |
| `ExchangeCode.FailedMailLeavesNoTrace` | internal/answer/exchange_code_redeem.go:152-176 | A failed mail with a working compensation leaves the store exactly as it was. |
| `ExchangeCode.StrandedIff` | internal/answer/exchange_code_redeem.go:50-182 | Over all failure patterns a lone request ends with a row and no mail if and only if it could be served, its transaction worked, and both mail and compensation broke. |
| `ExchangeCode.RowShutsOut` | internal/answer/exchange_code_redeem.go:83-95 | A commander with a row is refused for every code and every failure pattern. |
| `ExchangeCode.BrokenCompensationStrands` | internal/answer/exchange_code_redeem.go:172-174 | Limited or not, a servable code whose mail and compensation break leaves a row, costs a limited code one quota, and refuses the commander from then on. |
| `ExchangeCode.NextIsGood` | internal/answer/exchange_code_redeem.go:82-176 | One step of one request, at any moment of all the others, keeps the invariant. |
| `ExchangeCode.RunIsSafe` | internal/answer/exchange_code_redeem.go:82-176 | Under any interleaving quota + redeem rows of a limited code never changes, quota never goes negative, no commander gets a second mail for a code, and no row behind a mail is deleted. |
| `ExchangeCode.RunAccounts` | internal/answer/exchange_code_redeem.go:82-176 | Under any interleaving every redeem row of every code, limited or not, stays accounted for by a mail or by a request that is on its way or was lost. |
| `ExchangeCode.RunLedger` | internal/answer/exchange_code_redeem.go:82-176 | From an empty table, under any interleaving: quota left, mails sent, and requests holding or having lost a row add up to the initial quota of a limited code. |
| `ExchangeCode.RunHandsOut` | internal/answer/exchange_code_redeem.go:97-151 | Under any interleaving every mail carries exactly its code's rewards, kind, id and count, in order. |
| `ExchangeCode.ServedStore` | internal/answer/exchange_code_redeem.go:50-182 | A served lone request adds one such mail, one row and takes one off a limited quota; a request that cannot be served does nothing. |
| `ExchangeCode.NeverOversold` | internal/answer/exchange_code_redeem.go:82-176 | From an empty table a limited code never sends more mails than its initial quota. |
| `Commission.BusyShips` | internal/orm/event_collection.go:114-145 | The set of ships that some active commission holds. |
| `Commission.CommissionStore.ShipsFit` | internal/answer/event_collection_start.go:79-108 | The flag loop passes exactly for owned ships of the right kinds with one at the required level. |
| `Commission.CommissionStore.Start` | internal/answer/event_collection_start.go:50-166 | Accepted exactly under the listed requirements when the row can be saved; takes the oil and stores the commission. A save that fails loses the oil. |
| `Commission.CommissionStore.GiveUp` | internal/answer/event_give_up.go:14-57 | Accepted exactly for an unexpired commission that is out and not over. |
| `Commission.CommissionStore.Finish` | internal/answer/event_finish.go:33-157 | Accepted exactly for a commission that is over with its ships still owned, a readable drop table and a payment that goes through; the next one may spawn. An unreadable drop table changes nothing, a payment that breaks off loses the row. |
| `Commission.CommissionStore.SpawnNext` | internal/answer/event_finish.go:404-511 | Spawns one of exactly the eligible templates with the returning ships, or nothing if there is none. |
| `Commission.Candidates` | internal/answer/event_finish.go:457-486 | The candidates are eligible, and there is none exactly when no template is. |
| `Commission.NextKeepsApart` | internal/answer/event_collection_start.go:119-166 | Start, give-up, finish and respawn keep the active ship lists pairwise disjoint. |
| `Commission.RunKeepsApart` | internal/answer/event_finish.go:84-157 | Over any run, under any tables, fleets and clocks, no ship is on two commissions at once. |
| `Commission.SentWithinOwnLimit` | internal/answer/event_collection_start.go:127-135 | After any request that sends a commission out, the active count is within that template's own team limit, if it has one; no other request raises the count. |
| `Commission.NewlyOutIsSent` | internal/answer/event_finish.go:457-511 | A commission that is out and was not before was sent by that request, under its own template. |
| `Commission.NextWithinLimit` | internal/answer/event_collection_start.go:127-135 | Where every template is limited, the active count stays within the largest limit. |
| `Commission.RunWithinLastLimit` | internal/answer/event_finish.go:457-486 | Over any run, under any tables, the active commissions never exceed the limit of the one sent out last. |
| `Commission.RunWithinLimit` | internal/answer/event_finish.go:457-486 | Where every template is limited, the active commissions never exceed the largest limit over any run. |
| `Commission.GiveUpOrFinish` | internal/answer/event_give_up.go:44-54 | Give-up and finish are never both possible; which one is decided by the finish time, and exactly when each is possible. |
| `Commission.GiveUpUndoesStart` | internal/answer/event_give_up.go:44-54 | Giving up restores the busy ships and active commissions; only the oil is gone. |
| `CommissionShips.StartAcceptedIff` | internal/answer/event_collection_start.go:50-166 | A start is accepted if and only if the ships are owned, suitable and at home, before the deadline, with oil and room left. |
| `CommissionShips.StartBusies` | internal/answer/event_collection_start.go:119-166 | An accepted start stores the requested ships, takes the oil, and makes exactly those ships busy besides the ones before. |
| `CommissionShips.FailuresLeave` | internal/answer/event_finish.go:105-157 | An unsaved start costs its oil, unreadable drops change nothing, and a payment that breaks off loses the row. |
| `CommissionShips.BusyShutsOut` | internal/answer/event_collection_start.go:119-155 | While a ship is away every start that names it is refused and changes nothing. |
| `CommissionShips.EndAcceptedIff` | internal/answer/event_give_up.go:14-57 | When a give-up and when a finish is accepted, condition by condition. |
| `CommissionShips.GiveUpFrees` | internal/answer/event_give_up.go:44-54 | A give-up empties the row; only ships that are elsewhere too stay busy. |
| `CommissionShips.EligibleIff` | internal/answer/event_finish.go:457-486 | The templates returning ships may be sent on to, condition by condition. |
| `CommissionShips.FinishPassesOn` | internal/answer/event_finish.go:84-157 | A finished row is gone; if another commission is sent out then, its ships are exactly the finished one's, and otherwise they are free. |
| `CommissionShips.OutUntilEnded` | internal/answer/event_finish.go:84-157 | A commission that is out stays as it is until a request ends it, and then is not out. |
| `CommissionShips.AwayUntilEnded` | internal/answer/event_collection_start.go:119-166 | Over any run the ships of a commission stay busy with it, and shut out of every other start, until it is given up or finished. |
| `ThemeCounters.ThemeBoard.LikeTheme` | internal/answer/backyard_theme_template_packets.go:388-421 | Row and counter together, once per commander and version. |
| `ThemeCounters.ThemeBoard.CollectTheme` | internal/answer/backyard_theme_template_packets.go:423-461 | Row and counter together unless the commander would exceed 30, then neither. |
| `ThemeCounters.ThemeBoard.CancelThemeCollection` | internal/answer/backyard_theme_template_packets.go:463-508 | Removes the commander's rows of the theme and lowers, in any order, exactly the counters of the versions held. |
| `ThemeCounters.ThemeBoard.Publish` | internal/answer/backyard_theme_template_packets.go:132-172 | Creates a version with zero counters for a saved slot, within two published slots. |
| `ThemeCounters.ThemeBoard.Unpublish` | internal/answer/backyard_theme_template_packets.go:174-204 | Clears the slot and deletes every version under its theme id. |
| `ThemeCounters.NextCounts` | internal/answer/backyard_theme_template_packets.go:141-166 | Every request keeps counters at most the rows, and keeps them equal if and only if it does not publish over rows already there. |
| `ThemeCounters.RunCounts` | internal/answer/backyard_theme_template_packets.go:395-502 | Over any run no counter exceeds its rows, no commander 30 collections or 2 published slots; on runs with fresh publications the counters are exact. |
| `ThemeCounters.CarefulIsFresh` | internal/answer/backyard_theme_template_packets.go:141-166 | Runs on which users act only on published versions and upload times are not reused have only fresh publications, so `RunCounts` makes their counters exact. |
| `ThemeCounters.CancelUndoesCollect` | internal/answer/backyard_theme_template_packets.go:463-508 | Cancelling right after a first collection restores the board. |
| `ThemeCounters.ThemeIdsSharedIff` | internal/orm/backyard_theme_templates.go:15-18 | Two slots share a theme id if and only if some digits can pass from the end of one commander's number to the front of the other's slot number. |
| `ThemeCounters.ThemeIdsDiffer` | internal/orm/backyard_theme_templates.go:15-18 | In particular, slots whose numbers have equally many digits share one only if they are the same slot. |
| `ThemeCounters.ThemeIdsCollide` | internal/orm/backyard_theme_templates.go:15-18 | An instance: slot 12 of commander 1 and slot 2 of commander 11 share one. |
| `ThemeCounters.DecimalInjective` | internal/orm/backyard_theme_templates.go:15-18 | A number is determined by its decimal digits. |
| `ThemeCounters.UnpublishTakes` | internal/answer/backyard_theme_template_packets.go:193-199 | Unpublishing a slot deletes another slot's version if and only if the two slots' digits slide into each other. |
| `ThemeCounters.UnpublishSparesOthers` | internal/answer/backyard_theme_template_packets.go:193-199 | It therefore spares every other slot with equally many digits. |
| `ThemeRows.LikesChange` | internal/answer/backyard_theme_template_packets.go:388-421 | A like adds its row and nothing removes one. |
| `ThemeRows.FavsChange` | internal/answer/backyard_theme_template_packets.go:423-508 | A collection within 30 adds its row, a cancellation takes the commander's rows of the theme, nothing else changes them. |
| `ThemeRows.SlotsChange` | internal/answer/backyard_theme_template_packets.go:132-204 | When a slot is saved, deleted, published or unpublished, and the time it then holds. |
| `ThemeRows.VersionsChange` | internal/answer/backyard_theme_template_packets.go:388-508 | Versions come by publishing and go with their theme id; counters move by one with their rows. |
| `ThemeRows.RunLikes` | internal/answer/backyard_theme_template_packets.go:388-421 | Over any run a row likes a version if and only if it did before or the run liked it. |
| `ThemeRows.LikeCounterIs` | internal/answer/backyard_theme_template_packets.go:388-421 | From an empty board with fresh publications a like counter is the number of commanders who liked the version. |
| `NewServerShop.Normalize` | internal/answer/new_server_shop_shared.go:238-271 | One good per entry: the stored one capped at the limit, or a fresh one; reports a change exactly when a record is absent, a good is missing or over its limit, or the lengths differ. |
| `NewServerShop.NormalTwice` | internal/answer/new_server_shop_shared.go:238-271 | With distinct entries normalising again changes nothing and reports no change. |
| `NewServerShop.SortedUnique` | internal/answer/new_server_shop_shared.go:346-362 | The list's values once each in ascending order. |
| `NewServerShop.AscendingUnique` | internal/answer/new_server_shop_shared.go:346-362 | There is only one such list. |
| `NewServerShop.NewServerShopStore.CheckChosen` | internal/answer/new_server_shop_purchase.go:91-124 | In any item order: passes exactly for allowed choices, and the units counted are the (mod 2^32) sum. |
| `NewServerShop.NewServerShopStore.Purchase` | internal/answer/new_server_shop_purchase.go:18-145 | Accepted exactly for an allowed choice within the count whose cost, even a cost of nothing, the commander has a row for, and that can be granted; a refused purchase changes nothing stored. |
| `NewServerShop.SelectableTrade` | internal/answer/new_server_shop_purchase.go:104-143 | A selectable good's count falls by as many as its record gains. |
| `NewServerShop.PurchaseKeeps` | internal/answer/new_server_shop_purchase.go:64-145 | Every request takes exactly its units, the 32-bit sum of its counts, off the good's count and keeps the shop consistent. |
| `NewServerShop.RunKeeps` | internal/answer/new_server_shop_purchase.go:64-145 | Over any run count left plus units (32-bit sums) sold is constant, Count + record length is the limit of a selectable good, and records are sorted without duplicates. |
| `NewServerShop.HandedOutIsDrops` | internal/answer/new_server_shop_purchase.go:111-124 | What is called handed out is the sum of the goods the purchase books. |
| `NewServerShop.HandedOutMatchesIff` | internal/answer/new_server_shop_purchase.go:111-124 | A purchase whose products fit 32 bits hands out at least `num` goods per unit taken off the count, and exactly that if and only if the sum of its counts fits 32 bits. |
| `NewServerShop.HandedOutMatchesAlways` | internal/answer/new_server_shop_purchase.go:111-124 | With no bound on the products: exactly `num` per unit if and only if the products lose as many words as the sum does, `num` times over. |
| `NewServerShop.OneUnitTwoPiles` | internal/answer/new_server_shop_purchase.go:111-124 | An instance: two picks that wrap to one unit of a good limited to one are accepted for the price of one and hand out 2^31 and 2^31 + 1 pieces. |
| `NewServerShop.RunHandsOutIff` | internal/answer/new_server_shop_purchase.go:64-145 | Over any run of purchases whose products fit, the goods handed out of an entry are `num` times what its count lost if and only if no accepted request's sum wraps, and otherwise more. |
| `NewServerShop.PlainOutcome` | internal/answer/new_server_shop_purchase.go:64-145 | Any list of picks of a good that is neither fixed nor selectable is accepted and settled exactly as `PlainBuy` writes out. |
| `NewServerShop.PlainIsLinear` | internal/answer/new_server_shop_purchase.go:111-135 | Where nothing wraps, units, cost and every drop of any list of picks are linear in what was asked for. |
| `NewServerShop.JointRequest` | internal/answer/new_server_shop_purchase.go:111-135 | Without any bound: units, cost and every drop of two lists of picks together are the word sums of those of each. |
| `NewServerShop.PurchaseInTwo` | internal/answer/new_server_shop_purchase.go:64-145 | For plain goods and any picks: buying one list then another ends like buying both at once, refused or accepted, where none of their sums wraps; if both are accepted, only there. |
| `ShopNumbers.ByItemInNumbers` | internal/answer/new_server_shop_purchase.go:75-81 | Picks are added up by item as words; item 0 and empty picks do not count. |
| `ShopNumbers.AcceptedIff` | internal/answer/new_server_shop_purchase.go:64-145 | For all three kinds of goods: accepted if and only if the picks are allowed, the units are within the count, and cost and kind are possible. |
| `ShopNumbers.PurchaseInNumbers` | internal/answer/new_server_shop_purchase.go:64-145 | For all three kinds: the units, the record, `costNum` for each unit off the wallet, and the pieces on their shelf, all as the words they are summed in. |
| `ShopNumbers.NormalInRows` | internal/answer/new_server_shop_shared.go:238-271 | A normalised good is the last stored one cut to the limit, or a whole new one. |
| `CityRebuild.DedupeUint32` | internal/answer/city_rebuild_handlers.go:474-488 | The first occurrence of every value, in order. |
| `CityRebuild.CityState.EndRecruit` | internal/answer/city_rebuild_handlers.go:57-105 | Moves exactly the requested recruits to the roles, if all of them are waiting. |
| `CityRebuild.CityState.BuildingAction` | internal/answer/city_rebuild_handlers.go:107-162 | Builds or recruits once each for the points, from the needed level on. |
| `CityRebuild.CityState.UpgradeBuff` | internal/answer/city_rebuild_handlers.go:164-217 | Buys levels up to the maximum for the sum of their costs, with the level counter and the sum as 32-bit words. |
| `CityRebuild.CityState.SumLevels` | internal/answer/city_rebuild_handlers.go:196-204 | The loop adds every level's cost, or fails where one is missing or the counter wraps, and terminates. |
| `CityRebuild.UpgradeInTwo` | internal/answer/city_rebuild_handlers.go:188-212 | Buying `a + b` levels succeeds exactly when `a` then `b` does, for the same points, to the same level; only the pending summary may differ. |
| `CityRebuild.WrappedRequestLowers` | internal/answer/city_rebuild_handlers.go:188-192 | An accepted upgrade lowers the level if and only if the level sum wraps; otherwise it adds the levels asked for. |
| `CityRebuild.WrappedRequestIsFree` | internal/answer/city_rebuild_handlers.go:188-212 | A request that wraps the target is accepted exactly when the wrapped target is within the maximum, and costs nothing. |
| `CityRebuild.NextIsOrderly` | internal/answer/city_rebuild_handlers.go:57-217 | Every request keeps builds and roles duplicate-free and recruits disjoint from roles, and charges the table's price as the 32-bit word the source sums it up to. |
| `CityRebuild.RunIsOrderly` | internal/answer/city_rebuild_handlers.go:57-217 | Over any run nothing is built or hired twice, no role is lost, and points left plus prices paid, each a 32-bit sum, are constant. |
| `CityRows.BuildInRows` | internal/answer/city_rebuild_handlers.go:107-162 | When a building request is accepted, and the building, role and points it leaves. |
| `CityRows.EndRecruitInRows` | internal/answer/city_rebuild_handlers.go:57-105 | Accepted exactly for waiting recruits; each becomes a role once and waits no more. |
| `CityRows.SpanIsSum` | internal/answer/city_rebuild_handlers.go:196-204 | The price of levels is the sum over the set of levels above the present one, if all are listed. |
| `CityRows.BuffInNumbers` | internal/answer/city_rebuild_handlers.go:164-217 | Without wrap of the level: when levels are bought, what they cost, and the level reached. |

## Left out

- Protobuf and JSON decoding, SQL text, message sending and logging: a request arrives decoded and is accepted or refused. The different refusal codes of one handler are one refusal.
- Concurrency outside `ExchangeCode`: other handlers run one at a time, also where the Go code reads before it opens its transaction. A handler with a transaction applies it completely or not at all.
- Rows in `internal/orm` beyond what is named in the tables above: adding and consuming resources, items and ships is a ledger of unbounded naturals, as in the database columns.
- Random drops, critical chances, experience multipliers and skill bonuses of battles; the spawned commission is any of the candidates.
- Payments that only decide whether a request goes on are the boolean `paid`; which tasks are satisfied is given as a set.
- String ids, platform names and code spelling: furniture ids, item keys and code matches are given resolved.
- The pop events, ship names and other response contents of the handlers.
- Goroutines of the packet decoder that share one packet counter: one stream is modelled, without timestamps and JSON output.
- Commander and equipment skins, in-memory caches of owned items, and aliasing between the commander's ship list and map.
- `UseTechSpeedupItem`, `PursueShipBlueprint`, love-letter unlocking, reward claims and contents, mail storerooms, buying and laying out dorm furniture: easy beside what is modelled.
- `CityRebuildChooseLevel`, `CityRebuildResultSummary` and `CityRebuildInitTime`: they set fields no modelled law speaks about.
- Duplicate ships within one commission request: the source accepts them, and `Commission` stores the list as given; the experience they earn twice is not followed.
- ShipExp.OwnedShip.UpgradeMaxLevel: material requirements and payment are the parameter `paid`; database failures after payment are not modelled.
- Shipyard.ShipyardStore.ItemUnlock: whether the item is allowed for the blueprint and consumed is the parameter `paid`.
- Shipyard.ShipyardStore.Mod: whether the items are consumed is the parameter `paid`.
- Commission.CommissionStore.Finish: how far the payment came before it broke off is not modelled, nor an empty row left by a spawn that fails between creating and saving it.
- Commission.CommissionStore.Start: an empty row left by a start that fails between creating and saving it is not modelled.
- EquipSlots.OwnedShip.Transform: coins and materials are the parameter `paid`.
- Dorm.DormStore.ClaimIntimacy: the coin balance is an unbounded column; the sum added is the 32-bit sum of the source.
- EquipChain.ComputeRevertRefunds: asks for a walk down that ends; where it does not, which `EquipChain.FiniteIff` says exactly, neither does the source's loop. EquipSlots asks for bases that end, likewise (`EquipSlots.AcyclicIff`).
- LoveLetter.LoveLetterState.RealizeGift: medals are a map by group; the sorted list they are stored as is not modelled, nor are requests of 2^32 or more items.
- ShipExp.Fleet.ApplyBattleUpdates: a row that cannot be saved is not modelled; the failures are those of the level table.
- NewServerShop.NewServerShopStore.Purchase: goods handed out are booked per kind and id without their own inventories' failures.
- ExchangeCode.RunIsSafe: administrators editing or deleting codes during a run are not modelled.
