# Dorios Trinkets — a verified model of the core

Dorios Trinkets is a Minecraft Bedrock add-on whose script core does five things:

- It resolves a player's **stat sheet** from the trinkets they wear. Each equipped trinket is a player tag; its registry record gives stat deltas, passive and active effect levels and immunities. Stats are clamped and quantised as the stat table says. Opposing effects cancel.
- It **injects trinkets into chests**. The first time a player opens a natural chest, biome and structure loot tables are merged, a nearby structure is recognised by counting blocks, and items are put into empty or filler slots. Chests that players placed, chests that were already opened and chests moved by pistons are recorded per 256×256 region in world properties, so they never receive loot.
- It gives **mob drops** to players who kill entities.
- It manages the **trinket inventory**: a proxy entity with thirteen named slots. It is loaded from the player's tags, and each tick misplaced, invalid or conditional items are sorted out. Using a trinket equips it, and a recover scroll hands every trinket back. A trinket that is handed back because its home slot is taken keeps its tag until the next tick's check of the tags, as the code adds the tag before it moves the item.
- It keeps **per-player tick state**: a signature of the equipment and tags that triggers a recompute, a periodic refresh of the passive effects, an extra-jump counter and a cancel of incoming effects the player is immune to.

The registry is filled by the `dorios:register_stat_data` script event.

The model has one module per concern:

- `Config`: the slot table, the stat table and registry records.
- `Host`: positions, stacks, effects and the player object with its tags, effects, inventory and dynamic properties.
- `StatsManager`: stat resolution and the stored sheet.
- `UpdateStats`: the per-player interval.
- `TrinketsInv`: the trinket inventory.
- `Structures`: the block scan and structure detection.
- `LootTables`: merging and layering loot tables.
- `ChestLedger`: the chest marks and the piston handler.
- `ChestInjection`: the slot pools and the loot draw.
- `LootInjector`: the chest loot injector and its handlers.
- `MobLoot`: the mob loot injector.
- `Registration`: the script event.
- Helpers: `Assoc` (insertion-ordered `Map`), `Strings` and `Wrappers`.

Code that mutates state is modelled imperatively:

- The injectors and the player are classes whose fields the methods reassign. The source's static class fields become the fields of one injector object.
- The proxy's container and a chest's container are arrays.
- Every loop of the source is a loop with invariants. Each method is proved against a specification function, and the properties are proved about that function.

Inputs the engine supplies are parameters:

- `Math.random` is an oracle `roll: nat -> real` whose every draw lies in [0, 1).
- The world's blocks are a map from positions to block ids.
- The outcome of each trinket's condition callback is the set `condOk` of ids whose condition passes.
- Dynamic properties are maps. The chest ledgers are a map from property id to the set of position keys stored there.

## Model

| member | source | states |
|---|---|---|
| Config.SlotTableIsBijective | BP/scripts/Core/config.js:17-31 | the slot table gives its thirteen names the pairwise distinct indices 0..12 |
| Config.SlotIndex | BP/scripts/Core/config.js:17-31 | `slots[name]` is defined exactly for the thirteen names and gives back the index of that name |
| Config.StatsConfigWellFormed | BP/scripts/Core/config.js:33-53 | every row has both bounds or neither, min ≤ default ≤ max, and a default and bounds that are multiples of its scale; the stat names are distinct |
| StatsManager.CalculateAllStats | BP/scripts/Core/stats_manager.js:113-200 | the computed sheet is the specification `Resolve` of the player's tags and the registry |
| StatsManager.ComputeStats | BP/scripts/Core/stats_manager.js:120-140 | the stats loop yields, for each configured stat, its resolved value and no other key |
| StatsManager.SumStat | BP/scripts/Core/stats_manager.js:124-129 | the total added to a stat's default is the sum, over the tags, of the deltas their records give it |
| StatsManager.ResolveStat | BP/scripts/Core/stats_manager.js:131-137 | with a scale the result is the largest multiple of the scale not above the clamped total; with bounds it lies within [min, max] |
| StatsManager.QuantizeDownIsLargest | BP/scripts/Core/stats_manager.js:135-137 | no multiple of the scale lies strictly between `scale * floor(t / scale)` and `t` |
| StatsManager.StatsWithinBounds | BP/scripts/Core/stats_manager.js:131-133 | every stat with configured bounds resolves within them, whatever the summed deltas |
| StatsManager.StatsAreMultiplesOfScale | BP/scripts/Core/stats_manager.js:135-137 | every stat with a scale resolves to an exact multiple of that scale |
| StatsManager.StatsFromAt | BP/scripts/Core/stats_manager.js:120-140 | the stats map has exactly the configured names as keys, each holding that row's resolved value |
| StatsManager.AccumulateLevels | BP/scripts/Core/stats_manager.js:143-155 | the effect loop yields, per effect any tag mentions, the sum of its levels over the tags |
| StatsManager.AddLevels | BP/scripts/Core/stats_manager.js:151-153 | adding one tag's effects extends the totals of the preceding tags to the totals including that tag |
| StatsManager.SumOverAbsentEffect | BP/scripts/Core/stats_manager.js:151-153 | an effect no tag mentions sums to zero, so it never appears in the sheet |
| StatsManager.EffectNamesMember | BP/scripts/Core/stats_manager.js:145-154 | an effect is accumulated exactly when some tag's record lists it in that category |
| StatsManager.CollectImmunities | BP/scripts/Core/stats_manager.js:157-163 | the immunity list is the array entries of the tags' records, each once, in order of first appearance |
| StatsManager.AddImmunities | BP/scripts/Core/stats_manager.js:159-162 | adding one tag's immunity array to the deduplicated list gives the deduplicated list of all names so far |
| StatsManager.ImmunitiesAreUnion | BP/scripts/Core/stats_manager.js:157-163 | the sheet's immunities have no duplicate and are exactly the union of the tags' immunity arrays |
| StatsManager.DedupProperties | BP/scripts/Core/stats_manager.js:198 | `[...new Set(s)]` has no duplicate and the same members as `s` |
| StatsManager.ResolveConflictsIn | BP/scripts/Core/stats_manager.js:165-192 | both effect maps end as the pairwise conflict resolution of the accumulated levels |
| StatsManager.ResolvePairIn | BP/scripts/Core/stats_manager.js:173-191 | one opposing pair is resolved as the specification of that pair says |
| StatsManager.ConflictResolution | BP/scripts/Core/stats_manager.js:166-192 | for each opposing pair, when either side is positive the larger side keeps the difference and the other is removed, a tie removes both, otherwise both are left; effects outside the pairs are untouched |
| StatsManager.ResolveAllOutcome | BP/scripts/Core/stats_manager.js:173-192 | resolving a list of pairs with distinct names gives each pair its own outcome and leaves every other effect untouched |
| StatsManager.LevelsAreSums | BP/scripts/Core/stats_manager.js:143-155 | an effect outside the opposing pairs ends with the summed level of its tags, and is present exactly when some tag mentions it |
| StatsManager.UnregisteredTagsGiveDefaults | BP/scripts/Core/stats_manager.js:113-200 | with no registered tag every stat is its default and there are no effects and no immunities |
| StatsManager.PermutationInvariance | BP/scripts/Core/stats_manager.js:118-163 | reordering the tags gives the same stats, passives and actives and the same immunity set |
| StatsManager.SumOverPermutation | BP/scripts/Core/stats_manager.js:124-129 | a stat's summed delta does not depend on the order of the tags |
| StatsManager.SumOverUnregistered | BP/scripts/Core/stats_manager.js:125-126 | tags without a registry record contribute nothing |
| StatsManager.GetStatCategory | BP/scripts/Core/stats_manager.js:72-78 | an unknown category or a missing property reads as `{}`; otherwise the stored value is returned |
| StatsManager.GetAllStats | BP/scripts/Core/stats_manager.js:91-103 | the four categories read exactly as `getStatCategory` reads each of them |
| StatsManager.SaveThenGet | BP/scripts/Core/stats_manager.js:58-78 | each category saved by `saveStatsToProperties` reads back unchanged |
| StatsManager.UpdatePlayerStats | BP/scripts/Core/stats_manager.js:15-23 | the stored sheet becomes the one resolved from the player's current tags |
| UpdateStats.TagChangeDetected | BP/scripts/Core/update_stats.js:36-45 | with the same equipment, two signatures agree exactly when the tag lists are equal (tags non-empty and free of `|`) |
| UpdateStats.EquipmentChangeDetected | BP/scripts/Core/update_stats.js:36-45 | with the same tags, two signatures agree exactly when every equipment slot holds the same id |
| UpdateStats.NextTick | BP/scripts/Core/update_stats.js:126-127 | the tick counter stays in [0, 1000], counting up and wrapping from 1000 to 0 |
| UpdateStats.TickCycle | BP/scripts/Core/update_stats.js:126-127 | after n runs from 0 the counter is n mod 1001 |
| UpdateStats.JumpStep | BP/scripts/Core/update_stats.js:112-123 | on the ground the counter refills to `extraJumps`; a falling, jumping player with jumps left spends one; otherwise it is kept |
| UpdateStats.JumpsStayNonNegative | BP/scripts/Core/update_stats.js:115-122 | the jump counter never goes negative |
| UpdateStats.AirborneJumps | BP/scripts/Core/update_stats.js:115-119 | in the air, each mid-air jump attempt spends one jump until none are left |
| UpdateStats.UpdateJumps | BP/scripts/Core/update_stats.js:112-124 | the stored counter takes one jump step when `extraJumps > 0` and is untouched otherwise |
| UpdateStats.Applied | BP/scripts/Core/update_stats.js:139-152 | each stored passive the engine accepts is (re)applied at level − 1 for 240 ticks; every other effect is kept as it was |
| UpdateStats.ApplyPassiveEffects | BP/scripts/Core/update_stats.js:139-152 | the player's effects become those of `Applied` for the stored passives |
| UpdateStats.EffectAddCancelled | BP/scripts/Core/update_stats.js:24-31 | an incoming effect is cancelled exactly for a player whose stored immunities are an array with an entry contained in the effect's type id |
| UpdateStats.ImmunityCancelsNamedEffect | BP/scripts/Core/update_stats.js:28-30 | a stored immunity cancels its effect whatever namespace prefix the effect type carries |
| UpdateStats.Tracker.constructor | BP/scripts/Core/update_stats.js:6-7 | no player has an interval, a signature or a tick yet |
| UpdateStats.Tracker.UpdateData | BP/scripts/Core/update_stats.js:70-73 | a player with an interval is left alone; otherwise an interval starts at tick 0 with the current signature recorded |
| UpdateStats.Tracker.CheckSignature | BP/scripts/Core/update_stats.js:85-93 | a changed signature is recorded and the stats recomputed; the passives are reapplied in either case |
| UpdateStats.Tracker.MaybeCheckSignature | BP/scripts/Core/update_stats.js:84-93 | on every 20th tick the signature block runs as above; on any other tick nothing changes |
| UpdateStats.Tracker.Run | BP/scripts/Core/update_stats.js:77-128 | an invalid player changes nothing; otherwise `trinketTick` runs first (the inventory entity is kept only while the scroll is held, and a loaded entity's slots end sorted and tagged), then every 20th tick checks the signature against the tags and effects the trinket tick left, the jump step runs and the tick advances |
| UpdateStats.Tracker.Interval | BP/scripts/Core/update_stats.js:84-128 | the signature block on every 20th tick, one jump step and the counter advance, wrapping 1000 to 0 |
| TrinketsInv.WithoutImmuneMeaning | BP/scripts/Core/trinkets_inv.js:208-219 | the clearing loop removes exactly the effects some immunity names, ignoring case and the `minecraft:` prefix; clearing twice is clearing once |
| TrinketsInv.NamespacedEffectIsCleared | BP/scripts/Core/trinkets_inv.js:209-214 | an immunity written without namespace in any case clears the vanilla effect `minecraft:<name>` |
| TrinketsInv.ClearImmuneEffects | BP/scripts/Core/trinkets_inv.js:208-219 | the player's effects lose exactly those an immunity names |
| TrinketsInv.ClearGlobalImmuneEffects | BP/scripts/Core/trinkets_inv.js:199-220 | effects are cleared against the stored immunities when these are an array, and left alone otherwise |
| TrinketsInv.ClearedGlobalIdempotent | BP/scripts/Core/trinkets_inv.js:199-220 | a second clearing pass changes nothing and no effect is ever added |
| TrinketsInv.ClearTrinketImmuneEffects | BP/scripts/Core/trinkets_inv.js:228-241 | effects are cleared against one record's immunities when these are an array |
| TrinketsInv.LastClaimantMeaning | BP/scripts/Core/trinkets_inv.js:64-73 | a slot is written exactly when some tag claims it, and it receives the last such tag |
| TrinketsInv.LoadEntityInv | BP/scripts/Core/trinkets_inv.js:58-74 | each slot holds the last trinket tag claiming it, or what it held before; a missing container changes nothing |
| TrinketsInv.LastClaimantInRange | BP/scripts/Core/trinkets_inv.js:69-72 | only the thirteen slot indices are ever written |
| TrinketsInv.ClaimedSlot | BP/scripts/Core/trinkets_inv.js:65-70 | a tag claims at most one slot: the index of its record's slot name |
| TrinketsInv.FoundMeaning | BP/scripts/Core/trinkets_inv.js:105-108 | `expectedTags` holds exactly the admissible items found in the visited slots |
| TrinketsInv.ItemsUpdate | BP/scripts/Core/trinkets_inv.js:96 | overwriting a slot takes its old item out of the container's bag and puts the new one in |
| TrinketsInv.VisitSlot | BP/scripts/Core/trinkets_inv.js:85-131 | one slot is processed as the loop body says, and no item is created or lost |
| TrinketsInv.Admit | BP/scripts/Core/trinkets_inv.js:104-130 | an admissible item is counted as found, handled as one step of the slot loop, the stored immunities cleared and its tag added if missing |
| TrinketsInv.Relocate | BP/scripts/Core/trinkets_inv.js:111-125 | an item in the wrong slot moves to its free home slot; if that slot is taken, the item is handed to the player |
| TrinketsInv.MoveItem | BP/scripts/Core/trinkets_inv.js:116 | `moveItem` into an empty slot moves the item and keeps the container's bag |
| TrinketsInv.TakeOut | BP/scripts/Core/trinkets_inv.js:96-101 | the slot is emptied and its item handed to the player |
| TrinketsInv.Keep | BP/scripts/Core/trinkets_inv.js:105-130 | an admissible item is relocated, the stored immunities are cleared and its tag is added if missing |
| TrinketsInv.ScanSlots | BP/scripts/Core/trinkets_inv.js:84-131 | after the slot loop every slot is placed, the found items are tagged, no item is lost, and effects are cleared once anything was found |
| TrinketsInv.DropStaleTags | BP/scripts/Core/trinkets_inv.js:134-142 | exactly the snapshot's trinket tags that were not found or whose condition fails are removed |
| TrinketsInv.FinalTags | BP/scripts/Core/trinkets_inv.js:128-142 | after both loops the player's tags are the found items plus the non-trinket tags it had |
| TrinketsInv.ValidateTrinketSlots | BP/scripts/Core/trinkets_inv.js:76-143 | each of the thirteen slots ends empty or holding an admissible trinket of that slot, which the player wears as a tag. Items already home stay and no item is created or lost. The trinket tags become exactly the found items, read from the slots before any move, so a trinket bounced back to the player because its home slot is taken still gets its tag. Nothing changes without both containers |
| TrinketsInv.ValidateSlots | BP/scripts/Core/trinkets_inv.js:81-142 | with both containers present: every slot settled, no item created or lost, the trinket tags exactly the found items, effects cleared once anything was found |
| TrinketsInv.EquippedTagIsNew | BP/scripts/Core/trinkets_inv.js:179-190 | an equipped trinket's tag is not already present: a worn copy would occupy its slot |
| TrinketsInv.DecrementTakesOne | BP/scripts/Core/trinkets_inv.js:192 | `changeItemAmount(slot, -1)` takes exactly one copy of the item out of the hand |
| TrinketsInv.FindWornInSlot | BP/scripts/Core/trinkets_inv.js:180-187 | the tag loop finds a match exactly when some tag's record names the slot |
| TrinketsInv.Equip | BP/scripts/Core/trinkets_inv.js:190-192 | the tag is added, the trinket's immunities are cleared and one item leaves the hand, keeping the player's possessions |
| TrinketsInv.TryEquipTrinket | BP/scripts/Core/trinkets_inv.js:159-193 | the decision is not-a-trinket, condition-failed, slot-taken or equipped, as the guards say. Only equipping changes anything, and the player's possessions never change |
| TrinketsInv.TryEquipTrinketAsWritten | BP/scripts/Core/trinkets_inv.js:159-193 | as the code is written: a failed condition hands the whole used stack back while the hand still holds it, so the player's possessions grow by that stack; the hand and the tags are unchanged |
| TrinketsInv.ConditionFailureIsReachable | BP/scripts/Core/trinkets_inv.js:168-176 | a conditional trinket whose condition fails reaches the branch that hands the item back |
| TrinketsInv.ReturnItem | BP/scripts/Core/trinkets_inv.js:170-175 | handing a stack to the player adds every item of it to what was given and to their possessions, and leaves the hand and the tags as they were |
| TrinketsInv.WornUnwornMembers | BP/scripts/Core/trinkets_inv.js:250-252 | the tags split into the trinket tags and the others |
| TrinketsInv.WornUnwornSplit | BP/scripts/Core/trinkets_inv.js:250-252 | the split loses no tag and adds none |
| TrinketsInv.UnequipAllTrinkets | BP/scripts/Core/trinkets_inv.js:245-262 | with an inventory every trinket tag is removed and handed back as one item, and the other tags stay in order; the player's possessions are unchanged |
| TrinketsInv.UnequipOne | BP/scripts/Core/trinkets_inv.js:251-261 | one loop step hands back and removes the tag when it is a trinket, and skips it otherwise |
| TrinketsInv.HandBack | BP/scripts/Core/trinkets_inv.js:254-261 | one trinket tag becomes one item given to the player |
| TrinketsInv.UnwornFreesEverySlot | BP/scripts/Core/trinkets_inv.js:245-262 | after unequipping, no slot is worn any more |
| TrinketsInv.OnItemUse | BP/scripts/Core/trinkets_inv.js:6-10 | the recover scroll first unequips everything, then equipping is tried with the corrected `TryEquipTrinket` of the Findings table. Possessions are unchanged, and after a recovery the slot is never found taken |
| TrinketsInv.Proxy.constructor | BP/scripts/Core/trinkets_inv.js:145-150 | a summoned inventory entity has empty slots and is not yet loaded |
| TrinketsInv.TrinketTick | BP/scripts/Core/trinkets_inv.js:12-56 | without the scroll the entity goes; without an entity one is summoned and nothing else happens; otherwise it is loaded once and validated, leaving every slot placed and worn |
| TrinketsInv.Refresh | BP/scripts/Core/trinkets_inv.js:37-54 | with the entity present it is loaded from the tags once and marked loaded; then, for a player with an inventory, every slot holds nothing or an admissible trinket of that slot that the player wears as a tag, and without an inventory nothing of the player changes |
| Host.Player.AddTag | BP/scripts/Core/trinkets_inv.js:129 | `addTag` adds a tag only when absent, keeping the tags duplicate-free |
| Host.Player.RemoveTag | BP/scripts/Core/trinkets_inv.js:140 | `removeTag` removes exactly that tag, one copy of it |
| Host.Player.GiveItem | BP/scripts/Core/trinkets_inv.js:97-101 | an item goes to the inventory when it has a free slot and to the ground otherwise, and counts as given either way |
| Host.Player.GiveStack | BP/scripts/Core/trinkets_inv.js:170-175 | a whole stack goes to the inventory when it has a free slot and to the ground otherwise; all `amount` items count as given |
| Host.WithoutRemovesOne | BP/scripts/Core/trinkets_inv.js:140 | removing a tag that occurs once takes exactly one copy out |
| Structures.CountBlocks | BP/scripts/Core/loot_injector.js:279-307 | the tally counts every block of the cube of the radius once per position, and the chest counter equals the chests in it |
| Structures.ScannedCounts | BP/scripts/Core/loot_injector.js:284-305 | every position of the cube that has a block contributes its id to the tally |
| Structures.Tally | BP/scripts/Core/loot_injector.js:294-304 | a missing block is skipped; any other is counted, a chest also in the chest counter |
| Structures.MeetsRequirement | BP/scripts/Core/loot_injector.js:316-335 | a list definition is met when every listed block is present, an object definition when every required count is reached |
| Structures.FirstMatchMeaning | BP/scripts/Core/loot_injector.js:313-336 | the match is the first definition met and no earlier one is; nothing matches exactly when none is met |
| Structures.ClassifyMeaning | BP/scripts/Core/loot_injector.js:309-338 | six or more chests give `chest_cluster`; otherwise the first definition met, and `default` when none is |
| Structures.PyramidBeforeTreasure | BP/scripts/Core/loot_injector.js:39-51 | a scan meeting both the desert-pyramid and the buried-treasure counts is a desert pyramid, because order decides |
| LootInjector.ChestLootInjector.constructor | BP/scripts/Core/loot_injector.js:24-63 | the six built-in definitions in order, one per id, and no loot |
| LootInjector.ChestLootInjector.RegisterStructure | BP/scripts/Core/loot_injector.js:15-19 | a known id is never overwritten; a new one is appended and tried last |
| LootInjector.RegisteredMeaning | BP/scripts/Core/loot_injector.js:72-128 | a new id stores the list as given; a known id keeps one entry per item, each from the old or the new list, with a chance no lower than any new entry's for that item; other ids are untouched |
| LootTables.MergeEntries | BP/scripts/Core/loot_injector.js:78-94 | the two loops produce the merged list of the specification |
| LootTables.IndexedGet | BP/scripts/Core/loot_injector.js:81-84 | the existing-loot loop keeps, for each item, its last registered entry |
| LootTables.ChallengedKeepsHighest | BP/scripts/Core/loot_injector.js:86-92 | after the new-loot loop each item's entry is the kept one or a new one, never lower than any new entry for it |
| LootTables.ChallengedTieKeeps | BP/scripts/Core/loot_injector.js:89 | a new entry replaces the kept one only with a strictly higher chance |
| LootTables.MergedLootMeaning | BP/scripts/Core/loot_injector.js:78-94 | the merged list names exactly the items of both lists, each once, from one of the lists, at the highest new chance or more |
| LootTables.MergedLootTieKeeps | BP/scripts/Core/loot_injector.js:86-94 | when no new entry beats the kept one, the kept entry survives the merge |
| LootTables.IndexedShape | BP/scripts/Core/loot_injector.js:79-84 | the map keeps one entry per item, stored under its own item |
| LootTables.MergeLootTables | BP/scripts/Core/loot_injector.js:359-391 | the merged table is the biome layer followed by the admitted structure layer |
| LootTables.AddBiomeLayer | BP/scripts/Core/loot_injector.js:364-371 | the biome loop sums each item's chances |
| LootTables.AddStructureLayer | BP/scripts/Core/loot_injector.js:374-388 | structure entries whose conditions fail are skipped; the others' chances are added on top |
| LootTables.AdmittedMeaning | BP/scripts/Core/loot_injector.js:377-381 | an entry passes exactly when it has no conditions, or its dimension and biome conditions hold |
| LootTables.AddChancesMeaning | BP/scripts/Core/loot_injector.js:366-369 | each item's value is what it held plus the sum of its entries' chances; one entry per item is kept |
| LootTables.FinalLootMeaning | BP/scripts/Core/loot_injector.js:359-391 | each item's chance is the sum over biome entries and admitted structure entries, one entry per item, and empty when both tables are missing |
| LootTables.ChanceSumAbsent | BP/scripts/Core/loot_injector.js:366-369 | entries for other items add nothing to an item's chance |
| Assoc.PutGet | BP/scripts/Core/loot_injector.js:366-369 | reading a `Map` after `set` gives the new value under that key and the old value elsewhere |
| Assoc.PutKeys | BP/scripts/Core/loot_injector.js:446 | `set` keeps the key order and appends a new key last, so iteration follows first insertion |
| Assoc.GetKeys | BP/scripts/Core/loot_injector.js:88 | `get` finds a key exactly when it is among the keys |
| ChestInjection.GetSlotPools | BP/scripts/Core/loot_injector.js:411-426 | the empty pool holds exactly the empty slots and the replaceable pool exactly the filler slots, each ascending; they are the pools `EmptyPool` and `FillerPool` name |
| ChestInjection.PoolsOfContainer | BP/scripts/Core/loot_injector.js:411-426 | the pools of any container are ascending and hold exactly its empty and its filler slots |
| ChestInjection.PickIndex | BP/scripts/Core/loot_injector.js:459 | `floor(random * length)` is a valid index into a non-empty pool |
| ChestInjection.Splice | BP/scripts/Core/loot_injector.js:463 | splicing takes out exactly the drawn slot, shortens the pool by one and keeps it duplicate-free |
| ChestInjection.Placements | BP/scripts/Core/loot_injector.js:446-466 | the walk over the entries places at most one item per entry, each in a slot of one of the pools and each an item of the table |
| ChestInjection.Adds | BP/scripts/Core/loot_injector.js:447-465 | one entry adds a placement exactly when its draw does not exceed its chance and a pool has a slot left; the placement holds its own item, in the empty pool's slot when there is one |
| ChestInjection.Next | BP/scripts/Core/loot_injector.js:447-463 | a skipped entry uses one draw and leaves the pools; a placed entry uses two and leaves one slot fewer |
| ChestInjection.PlacementsCons | BP/scripts/Core/loot_injector.js:446-466 | the walk is the first entry's placement followed by the walk over the rest from the pools and draw it leaves |
| ChestInjection.NoRoom | BP/scripts/Core/loot_injector.js:451-457 | once both pools are used up nothing more is placed |
| ChestInjection.PlacementsPrefix | BP/scripts/Core/loot_injector.js:446-466 | the placements of the first entries are a prefix of all placements: a later entry never changes an earlier one's slot |
| ChestInjection.EntryOutcome | BP/scripts/Core/loot_injector.js:446-466 | entry `t` adds nothing when its draw exceeds its chance or no slot is left, and otherwise exactly one placement of its item at the slot its pick draws, after the placements of the entries before it |
| ChestInjection.SureEntriesPlaced | BP/scripts/Core/loot_injector.js:446-466 | entries with chance at least 1 are never skipped: they take slots in table order until the pools run out |
| ChestInjection.SureEntriesCount | BP/scripts/Core/loot_injector.js:446-466 | with every chance at least 1, the number of placements is the smaller of the number of entries and the number of pool slots |
| ChestInjection.DrawSlot | BP/scripts/Core/loot_injector.js:449-463 | the drawn slot and the pools left are the placement and pools the walk's step prescribes |
| ChestInjection.InjectLoot | BP/scripts/Core/loot_injector.js:436-467 | the container ends as `Injected`: the placements of the walk applied in order to the old contents, with `written` their slots. Nothing changes for an empty table or a missing container |
| ChestInjection.PlacementsWritten | BP/scripts/Core/loot_injector.js:449-463 | the walk writes distinct pool slots, and a filler slot only once every empty slot is written |
| ChestInjection.PlacementsWrittenTake | BP/scripts/Core/loot_injector.js:449-463 | the same account when the first entry takes a slot: that slot comes out of its pool and the rest of the walk keeps the account |
| ChestInjection.TakeStep | BP/scripts/Core/loot_injector.js:458-463 | taking one slot, from the empty pool while it has one and from the filler pool after, keeps the slots written distinct and the pools disjoint from them |
| ChestInjection.PlaceMeaning | BP/scripts/Core/loot_injector.js:465 | a slot no placement names keeps its item; a placed slot holds the item of a placement for it |
| ChestInjection.InjectedMeaning | BP/scripts/Core/loot_injector.js:436-467 | the injected container has the promised shape: at most one slot per entry, no slot twice, only empty or filler slots written, each with an item of the table, other slots unchanged, filler only after every empty slot |
| ChestLedger.PosKeyInjective | BP/scripts/Core/loot_injector.js:136-138 | distinct positions have distinct keys |
| ChestLedger.RegionKeyMeaning | BP/scripts/Core/loot_injector.js:146-150 | two positions share a region key exactly when they share the floored 256-block cell in x and z |
| ChestLedger.BasesApart | BP/scripts/Core/loot_injector.js:159-161 | the placed and opened ledgers of any regions are different properties |
| ChestLedger.MarkBlocks | BP/scripts/Core/loot_injector.js:216-239 | after a mark the chest is marked and cannot receive loot, and marking again changes nothing |
| ChestLedger.MarkLocal | BP/scripts/Core/loot_injector.js:216-239 | marking one position leaves every mark of every other position as it was |
| ChestLedger.MarkKeeps | BP/scripts/Core/loot_injector.js:216-239 | a mark never removes an existing mark |
| ChestLedger.MarkKeepsOthersInjectable | BP/scripts/Core/loot_injector.js:198-239 | a mark changes injectability at its own position only |
| ChestLedger.ResetClears | BP/scripts/Core/loot_injector.js:248-261 | after a reset every position can receive loot, and every other property is kept |
| ChestLedger.World.SaveChestSet | BP/scripts/Core/loot_injector.js:183-186 | the region's ledger property holds the given set |
| ChestLedger.World.MarkChestOpened | BP/scripts/Core/loot_injector.js:216-224 | the position is added to its region's opened ledger |
| ChestLedger.World.MarkChestPlaced | BP/scripts/Core/loot_injector.js:231-239 | the position is added to its region's placed ledger |
| ChestLedger.World.MarkPosPlaced | BP/scripts/Core/loot_injector.js:573-580 | the position is added to its region's placed ledger |
| ChestLedger.World.CanInjectChest | BP/scripts/Core/loot_injector.js:198-209 | true exactly when the position is in neither ledger of its region |
| ChestLedger.World.IsChestMarkedAt | BP/scripts/Core/loot_injector.js:556-566 | true exactly when the chest cannot receive loot |
| ChestLedger.World.ResetChestTracking | BP/scripts/Core/loot_injector.js:248-261 | every property whose id starts with either ledger's key is deleted |
| ChestLedger.DirectionVector | BP/scripts/Core/loot_injector.js:645-655 | facings 0..5 give unit vectors and any other value the zero vector |
| ChestLedger.DirectionsDistinct | BP/scripts/Core/loot_injector.js:645-655 | the six facings point six different ways |
| ChestLedger.OnPistonActivate | BP/scripts/Core/loot_injector.js:608-637 | the ledgers become the piston loop's result over the attached locations, stepping −1 when expanding and +1 when retracting, as the code does; the comment beside it says expanding moves blocks by +dirVec, and which is right depends on the engine's `facing_direction` convention, which is not modelled |
| ChestLedger.PistonKeepsMarks | BP/scripts/Core/loot_injector.js:623-636 | the piston handler never removes a mark |
| ChestLedger.PistonIgnoresUnmarked | BP/scripts/Core/loot_injector.js:625 | when no attached location is marked, nothing changes |
| ChestLedger.PistonMarksBoth | BP/scripts/Core/loot_injector.js:627-635 | a marked attached location ends up marked placed, and so does the position its block moves to |
| ChestLedger.PistonMarksOnlyMoved | BP/scripts/Core/loot_injector.js:623-636 | every mark the handler adds is a placed mark on an attached location or its destination |
| LootInjector.ChestLootInjector.RegisterStructureLoot | BP/scripts/Core/loot_injector.js:72-95 | the structure tables become the registration of the list under the id; nothing else changes |
| LootInjector.ChestLootInjector.RegisterBiomeLoot | BP/scripts/Core/loot_injector.js:105-128 | the biome tables become the registration of the list under the id; nothing else changes |
| LootInjector.ChestLootInjector.RegisterTrinketLoot | BP/scripts/Core/loot_injector.js:516-548 | the biome and structure tables each receive the trinket's one-entry registrations from their array, in order, and are unchanged when the field is not an array |
| LootInjector.ContributedKeeps | BP/scripts/Core/loot_injector.js:516-548 | registering a trinket's loot never removes an item from a table |
| LootInjector.ContributedOffers | BP/scripts/Core/loot_injector.js:523-530 | every site with an id and a numeric chance lists the trinket afterwards |
| LootInjector.ContributedFrame | BP/scripts/Core/loot_injector.js:523 | a table that no valid site names is left exactly as it was |
| LootInjector.ContributedChance | BP/scripts/Core/loot_injector.js:523-545 | after the last valid site for a table, the trinket's entry there has at least that site's chance |
| LootInjector.ChestLootInjector.DetectNearbyStructure | BP/scripts/Core/loot_injector.js:275-339 | the result is the classification of the scanned cube against the definitions |
| LootInjector.ChestLootInjector.Resolve | BP/scripts/Core/loot_injector.js:476-508 | an opened or placed chest is left alone; otherwise it is marked opened and its container becomes `Injected` of the merged table, so only usable slots change, each to an item of that table; afterwards the chest can never receive loot again |
| LootInjector.ChestLootInjector.OnPlayerInteractWithBlock | BP/scripts/Core/loot_injector.js:598-601 | only a chest is resolved, and it cannot receive loot afterwards |
| LootInjector.OnPlayerPlaceBlock | BP/scripts/Core/loot_injector.js:603-606 | a chest a player places is marked placed; any other block changes nothing |
| LootInjector.SecondResolveIsInert | BP/scripts/Core/loot_injector.js:476-502 | opening a chest a second time injects nothing and leaves the ledgers as they are |
| MobLoot.ToDrop | BP/scripts/Core/loot_injector.js:736-741 | a drop takes the trinket as item and its conditions, with amount 1 and chance 0.10 when absent |
| MobLoot.DropsForCount | BP/scripts/Core/loot_injector.js:732-742 | each spec naming an entity adds exactly one drop of the trinket, with no merging |
| MobLoot.AppendedMeaning | BP/scripts/Core/loot_injector.js:729-743 | the registered map appends each named entity's new drops to its old list, leaves others untouched, and is the only map that does |
| MobLoot.NamelessHasNoDrops | BP/scripts/Core/loot_injector.js:732-742 | an entity no spec names receives no drops |
| MobLoot.MobLootInjector.constructor | BP/scripts/Core/loot_injector.js:682 | no entity has drops yet |
| MobLoot.MobLootInjector.RegisterTrinketDrop | BP/scripts/Core/loot_injector.js:729-743 | no drops field changes nothing; otherwise the drops map becomes the appended registration |
| MobLoot.Eligible | BP/scripts/Core/loot_injector.js:709-712 | a drop is eligible exactly when it has no dimension condition or names the entity's dimension |
| MobLoot.SkippedDropsDrawNothing | BP/scripts/Core/loot_injector.js:708-713 | a drop in another dimension consumes no random draw |
| MobLoot.SpawnsAreEligible | BP/scripts/Core/loot_injector.js:708-720 | at most one spawn per drop, each the item and amount of an eligible drop |
| MobLoot.SureDropSpawns | BP/scripts/Core/loot_injector.js:713 | an eligible drop with chance 1 or more always spawns |
| MobLoot.MobLootInjector.Resolve | BP/scripts/Core/loot_injector.js:704-721 | an entity type without drops spawns nothing; otherwise the spawns are those of its drops under the draws |
| MobLoot.MobLootInjector.OnEntityDie | BP/scripts/Core/loot_injector.js:747-750 | only a kill by a player rolls the drops |
| Registration.Registry.constructor | BP/scripts/Core/config.js:7 | the registry holds the given records |
| Registration.RegisterStatData | BP/scripts/Core/config.js:113-151 | a parse failure answers `registered: false` and a non-object answers nothing, both changing nothing; otherwise every valid entry is stored, its loot and drops forwarded, and `registered: true` sent; structure definitions are never touched |
| Registration.StoredLastWins | BP/scripts/Core/config.js:123-129 | an id holds the config of its last valid entry, whatever came before it |
| Registration.StoredUntouched | BP/scripts/Core/config.js:123-129 | an id that no valid entry carries is exactly as it was, present or absent |
| Registration.BiomeAfterOffers | BP/scripts/Core/config.js:131-133 | every biome an entry's loot names with a chance lists that entry's item afterwards |
| Registration.BiomeAfterKeeps | BP/scripts/Core/config.js:123-138 | a later entry never removes an item from a biome table |
| Registration.StructureAfterOffers | BP/scripts/Core/config.js:131-133 | every structure an entry's loot names with a chance lists that entry's item afterwards |
| Registration.StructureAfterKeeps | BP/scripts/Core/config.js:123-138 | a later entry never removes an item from a structure table |
| Strings.SplitJoin | BP/scripts/Core/update_stats.js:40-44 | splitting a `|`-join of separator-free parts gives the parts back |
| Strings.JoinInjective | BP/scripts/Core/update_stats.js:42 | joining separator-free parts is injective |
| Strings.ParseIntToString | BP/scripts/Core/loot_injector.js:137 | a printed coordinate reads back as itself and contains no comma |
| Strings.ToLower | BP/scripts/Core/trinkets_inv.js:212 | `toLowerCase` maps each character, keeping the length |

## Left out

- I/O, timing and UI are not modelled: scoreboards, `manaDisplay`, `displayStats`/`formatAllStats`, `applyVanillaStatsViaEvents`, console warnings and `system.runTimeout` scheduling. They produce output or engine side effects that none of the modelled state depends on.
- `trinketTick` does not model the scroll's slot lock (a delayed engine call), the teleport of the inventory entity (floating-point positions), or the entity lookup and summon; the entity is passed in, or `null`.
- `applyKnockback` in the jump block is not modelled: it is an engine call with a float vector.
- `active_abilities.js`, `register.js`, the register guide, the generated insight registry and `DoriosAPI` are not part of this model.
- Condition callbacks are not run. `condOk` stands for their outcomes during one call, so a callback that answers differently on two calls is not captured.
- Randomness is an oracle of draws in [0, 1); only that range is assumed of `Math.random`.
- Floating-point arithmetic is not modelled: chances are reals, and stats and effect levels are integers.
- JSON is abstracted. Dynamic properties hold values of a small JSON datatype. The chest ledgers are sets of position keys rather than JSON text. A property holding malformed JSON, which would throw in `JSON.parse`, is not modelled.
- Registry records are well-typed values. A loot or drops element that is not an object, which would throw part-way through a registration, is not modelled. Neither are inherited object keys such as `constructor`.
- Only the held stack and the mob drops carry an amount. Items in the trinket inventory's slots and in chest slots are single items: the source creates them with amount 1 (`new ItemStack(tag)`, `new ItemStack(itemId, 1)`), and a stack a player moves into a trinket slot by hand is counted as one item. Items handed out one at a time (`GiveItem`) are single items; the stack returned on a failed condition is handed back whole (`GiveStack`). Spawn failures and the player-location fallback of the mob loot are not modelled.
- `ChestLootInjector` and `MobLootInjector` keep their state in static fields. Here each is one object whose fields hold that state.
- Strings.ToLower: folds ASCII letters only, not the full Unicode case mapping of `toLowerCase`.
- TrinketsInv.ValidateTrinketSlots: requires that every registered slot name is one of the thirteen slots (`KnownSlots`). The source would look up `undefined` for an unknown name.
- TrinketsInv.TrinketTick: states the final slot contents only for an entity with an inventory. Teleporting is left out as above.
- UpdateStats.Tracker.Run: inherits the `KnownSlots` requirement of `TrinketTick`, which it runs first.
- TrinketsInv.OnItemUse: composes the corrected `TryEquipTrinket` rather than `tryEquipTrinket` as written, so the extra stack a failed condition gives (see Findings, and `TryEquipTrinketAsWritten`) does not appear in its contract.
- Effect ids are kept as the script names them. Passives are applied under their bare names (`speed`), while the immunity code matches the engine's namespaced ids (`minecraft:speed`); the engine's namespacing of a bare name is not modelled, so the effect map may hold both spellings where the engine holds one effect.
- The player type check in `clearGlobalImmuneEffects` and `clearTrinketImmuneEffects` is not modelled: every entity passed there is a player.
- LootTables.MergedLootMeaning: does not state how duplicate items inside one list registered for a new id resolve in a later merge. The last one is kept, as IndexedGet states.
- UpdateStats.TagChangeDetected: holds only for tags that are non-empty and contain no `|`, since the signature joins tags with `|`.

## Findings

| source | as written | input that shows it | evidently intended | confidence | as-written member | corrected member |
|---|---|---|---|---|---|---|
| BP/scripts/Core/trinkets_inv.js:168-176 | when a trinket's condition fails, the used stack is "returned" with `addItem`/`spawnItem`, but it never left the player's hand | a player uses a registered trinket whose condition returns false; the hand keeps the stack and the used stack is added again to the inventory (or dropped) | refuse to equip and change nothing, so the player's items are unchanged | medium, not executed | TrinketsInv.TryEquipTrinketAsWritten | TrinketsInv.TryEquipTrinket |
