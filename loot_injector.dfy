/**
  `ChestLootInjector`'s registries and its entry point `resolve`, with the
  chest events that call into it (BP/scripts/Core/loot_injector.js). The
  static fields become the fields of one object; the ledger lives in the
  `World`, the scan reads a map from positions to block ids.
 */
module LootInjector {
  import opened Wrappers
  import opened Assoc
  import opened Host
  import opened Config
  import opened LootTables
  import opened Structures
  import opened ChestLedger
  import opened ChestInjection

  /** `structureLoot` / `biomeLoot`: loot lists by structure or biome id. */
  type Tables = map<string, seq<LootEntry>>

  /** The scan radius `resolve` uses. */
  const ScanRadius: int := 6

  /** The tables after registering `loot` under `id`: the list as given for a new id, the merge otherwise. */
  function Registered(tables: Tables, id: string, loot: seq<LootEntry>): Tables
  {
    tables[id := if id in tables then MergedLoot(tables[id], loot) else loot]
  }

  /**
    A registration touches only its own id. There every item already listed or
    newly given is listed; a new id stores the list as given; a known id keeps
    one entry per item, never one with a lower chance than a new entry for it,
    and an entry that no new entry beats stays.
   */
  lemma RegisteredMeaning(tables: Tables, id: string, loot: seq<LootEntry>, k: string)
    ensures var r := Registered(tables, id, loot);
      && r.Keys == tables.Keys + {id}
      && (forall b :: b in tables && b != id ==> r[b] == tables[b])
      && (Mentions(r[id], k) <==> (id in tables && Mentions(tables[id], k)) || Mentions(loot, k))
      && (id !in tables ==> r[id] == loot)
      && (id in tables ==>
            && (forall i, j :: 0 <= i < j < |r[id]| ==> r[id][i].item != r[id][j].item)
            && forall i :: 0 <= i < |r[id]| && r[id][i].item == k ==>
                 && (r[id][i] in tables[id] || r[id][i] in loot)
                 && forall j :: 0 <= j < |loot| && loot[j].item == k ==> loot[j].chance <= r[id][i].chance)
  {
    if id in tables {
      MergedLootMeaning(tables[id], loot, k);
    }
  }

  // ---------------------------------------------------------------- a trinket's own loot

  /** One element of `loot.biomes` or `loot.structures`: the table id, the chance, the conditions. */
  datatype Site = Site(key: string, chance: Option<real>, conditions: Option<Conditions>)

  /** A site is registered only with a non-empty id and a numeric chance. */
  predicate Counts(s: Site)
  {
    s.key != "" && s.chance.Some?
  }

  function BiomeSites(specs: seq<BiomeLootSpec>): (r: seq<Site>)
    ensures |r| == |specs|
    ensures forall i :: 0 <= i < |specs| ==> r[i] == Site(specs[i].biome, specs[i].chance, None)
  {
    seq(|specs|, i requires 0 <= i < |specs| => Site(specs[i].biome, specs[i].chance, None))
  }

  function StructureSites(specs: seq<StructureLootSpec>): (r: seq<Site>)
    ensures |r| == |specs|
    ensures forall i :: 0 <= i < |specs| ==> r[i] == Site(specs[i].structure, specs[i].chance, specs[i].conditions)
  {
    seq(|specs|, i requires 0 <= i < |specs| => Site(specs[i].structure, specs[i].chance, specs[i].conditions))
  }

  /** One iteration of a `registerTrinketLoot` loop: a one-entry registration for the trinket, or nothing. */
  function Contribute(tables: Tables, trinketId: string, s: Site): Tables
  {
    if Counts(s) then Registered(tables, s.key, [LootEntry(trinketId, s.chance.value, s.conditions)])
    else tables
  }

  /** A `registerTrinketLoot` loop over its sites, in order. */
  function Contributed(tables: Tables, trinketId: string, sites: seq<Site>): Tables
  {
    if |sites| == 0 then tables
    else
      var n := |sites| - 1;
      Contribute(Contributed(tables, trinketId, sites[..n]), trinketId, sites[n])
  }

  /** Every table an item was listed in keeps listing it, and every table survives. */
  lemma {:induction false} ContributedKeeps(tables: Tables, trinketId: string, sites: seq<Site>, b: string, x: string)
    requires b in tables && Mentions(tables[b], x)
    ensures b in Contributed(tables, trinketId, sites) && Mentions(Contributed(tables, trinketId, sites)[b], x)
  {
    if |sites| > 0 {
      var n := |sites| - 1;
      var t := Contributed(tables, trinketId, sites[..n]);
      ContributedKeeps(tables, trinketId, sites[..n], b, x);
      if Counts(sites[n]) {
        RegisteredMeaning(t, sites[n].key, [LootEntry(trinketId, sites[n].chance.value, sites[n].conditions)], x);
      }
    }
  }

  /** Every table a registered site names lists the trinket afterwards. */
  lemma {:induction false} ContributedOffers(tables: Tables, trinketId: string, sites: seq<Site>, i: nat)
    requires i < |sites| && Counts(sites[i])
    ensures var r := Contributed(tables, trinketId, sites);
      sites[i].key in r && Mentions(r[sites[i].key], trinketId)
  {
    var n := |sites| - 1;
    var t := Contributed(tables, trinketId, sites[..n]);
    if i == n {
      var e := LootEntry(trinketId, sites[n].chance.value, sites[n].conditions);
      RegisteredMeaning(t, sites[n].key, [e], trinketId);
      assert [e][0].item == trinketId;
    } else {
      assert sites[..n][i] == sites[i];
      ContributedOffers(tables, trinketId, sites[..n], i);
      ContributedKeeps(t, trinketId, [sites[n]], sites[i].key, trinketId);
      assert [sites[n]][..0] == [];
    }
  }

  /** A table no registered site names is left exactly as it was, present or absent. */
  lemma {:induction false} ContributedFrame(tables: Tables, trinketId: string, sites: seq<Site>, b: string)
    requires forall i :: 0 <= i < |sites| && Counts(sites[i]) ==> sites[i].key != b
    ensures var r := Contributed(tables, trinketId, sites);
      (b in r <==> b in tables) && (b in tables ==> r[b] == tables[b])
  {
    if |sites| > 0 {
      var n := |sites| - 1;
      assert forall i :: 0 <= i < n ==> sites[..n][i] == sites[i];
      ContributedFrame(tables, trinketId, sites[..n], b);
    }
  }

  /**
    After the last registered site naming a table, every entry of the trinket
    there has at least that site's chance.
   */
  lemma {:induction false} ContributedChance(tables: Tables, trinketId: string, sites: seq<Site>, i: nat)
    requires i < |sites| && Counts(sites[i])
    requires forall j :: i < j < |sites| && Counts(sites[j]) ==> sites[j].key != sites[i].key
    ensures var r := Contributed(tables, trinketId, sites);
      sites[i].key in r &&
      forall e :: e in r[sites[i].key] && e.item == trinketId ==> e.chance >= sites[i].chance.value
  {
    var n := |sites| - 1;
    var t := Contributed(tables, trinketId, sites[..n]);
    var key := sites[i].key;
    if i == n {
      var e := LootEntry(trinketId, sites[n].chance.value, sites[n].conditions);
      RegisteredMeaning(t, key, [e], trinketId);
      var r := Registered(t, key, [e]);
      forall x: LootEntry | x in r[key] && x.item == trinketId ensures x.chance >= e.chance {
        var k :| 0 <= k < |r[key]| && r[key][k] == x;
        if key in t {
          assert [e][0].item == trinketId;
        }
      }
    } else {
      assert sites[..n][i] == sites[i];
      forall j | i < j < n && Counts(sites[..n][j]) ensures sites[..n][j].key != key {
        assert sites[..n][j] == sites[j];
      }
      ContributedChance(tables, trinketId, sites[..n], i);
      ContributedFrame(t, trinketId, [sites[n]], key);
      assert [sites[n]][..0] == [];
    }
  }

  // ---------------------------------------------------------------- the injector

  class ChestLootInjector {
    /** The structure definitions, in declaration and registration order. */
    var structures: Table<Requirement>
    var structureLoot: Tables
    var biomeLoot: Tables

    /** One definition per structure id. */
    ghost predicate Valid()
      reads this
    {
      Distinct(structures)
    }

    /** The static initialisers: the six built-in definitions and no loot. */
    constructor ()
      ensures Valid()
      ensures structures == DefaultStructures && structureLoot == map[] && biomeLoot == map[]
    {
      structures := DefaultStructures;
      structureLoot := map[];
      biomeLoot := map[];
      assert Keys(DefaultStructures[5..]) == ["pillager_outpost"];
      assert Keys(DefaultStructures[4..]) == ["bastion", "pillager_outpost"];
      assert Keys(DefaultStructures[3..]) == ["nether_fortress", "bastion", "pillager_outpost"];
      assert Keys(DefaultStructures[2..]) == ["buried_treasure", "nether_fortress", "bastion", "pillager_outpost"];
      assert Keys(DefaultStructures[1..]) ==
        ["ruined_portal", "buried_treasure", "nether_fortress", "bastion", "pillager_outpost"];
    }

    /** `registerStructure`: a known id is never overwritten; a new one goes last, so it is tried last. */
    method RegisterStructure(id: string, definition: Requirement)
      requires Valid()
      modifies this
      ensures Valid()
      ensures Get(old(structures), id).Some? ==> structures == old(structures)
      ensures Get(old(structures), id).None? ==> structures == old(structures) + [(id, definition)]
      ensures structureLoot == old(structureLoot) && biomeLoot == old(biomeLoot)
    {
      if Get(structures, id).Some? {
        return;
      }
      PutAbsentAppends(structures, id, definition);
      PutDistinct(structures, id, definition);
      structures := Put(structures, id, definition);
    }

    /** `registerStructureLoot`. */
    method RegisterStructureLoot(structureId: string, loot: seq<LootEntry>)
      modifies this
      ensures structureLoot == Registered(old(structureLoot), structureId, loot)
      ensures structures == old(structures) && biomeLoot == old(biomeLoot)
    {
      if structureId !in structureLoot {
        structureLoot := structureLoot[structureId := loot];
        return;
      }
      var merged := MergeEntries(structureLoot[structureId], loot);
      structureLoot := structureLoot[structureId := merged];
    }

    /** `registerBiomeLoot`. */
    method RegisterBiomeLoot(biomeId: string, loot: seq<LootEntry>)
      modifies this
      ensures biomeLoot == Registered(old(biomeLoot), biomeId, loot)
      ensures structures == old(structures) && structureLoot == old(structureLoot)
    {
      if biomeId !in biomeLoot {
        biomeLoot := biomeLoot[biomeId := loot];
        return;
      }
      var merged := MergeEntries(biomeLoot[biomeId], loot);
      biomeLoot := biomeLoot[biomeId := merged];
    }

    /**
      `registerTrinketLoot`: one single-entry registration per biome site, then
      per structure site, skipping a site without an id or a numeric chance.
     */
    method RegisterTrinketLoot(trinketId: string, loot: Option<LootSpec>)
      modifies this
      ensures biomeLoot == if loot.Some? && loot.value.biomes.Some?
        then Contributed(old(biomeLoot), trinketId, BiomeSites(loot.value.biomes.value)) else old(biomeLoot)
      ensures structureLoot == if loot.Some? && loot.value.structures.Some?
        then Contributed(old(structureLoot), trinketId, StructureSites(loot.value.structures.value)) else old(structureLoot)
      ensures structures == old(structures)
    {
      if loot.None? {
        return;
      }
      if loot.value.biomes.Some? {
        var specs := loot.value.biomes.value;
        ghost var sites := BiomeSites(specs);
        for i := 0 to |specs|
          invariant biomeLoot == Contributed(old(biomeLoot), trinketId, sites[..i])
          invariant structures == old(structures) && structureLoot == old(structureLoot)
        {
          assert sites[..i + 1][..i] == sites[..i];
          var entry := specs[i];
          if entry.biome == "" || entry.chance.None? {
            continue;
          }
          RegisterBiomeLoot(entry.biome, [LootEntry(trinketId, entry.chance.value, None)]);
        }
        assert sites[..|specs|] == sites;
      }
      if loot.value.structures.Some? {
        var specs := loot.value.structures.value;
        ghost var sites := StructureSites(specs);
        ghost var biomes := biomeLoot;
        for i := 0 to |specs|
          invariant structureLoot == Contributed(old(structureLoot), trinketId, sites[..i])
          invariant structures == old(structures) && biomeLoot == biomes
        {
          assert sites[..i + 1][..i] == sites[..i];
          var entry := specs[i];
          if entry.structure == "" || entry.chance.None? {
            continue;
          }
          RegisterStructureLoot(entry.structure, [LootEntry(trinketId, entry.chance.value, entry.conditions)]);
        }
        assert sites[..|specs|] == sites;
      }
    }

    /**
      `detectNearbyStructure`: tally the cube of the given radius around the
      origin, then classify the tally against the definitions in order.
     */
    method DetectNearbyStructure(blocks: map<Pos, string>, origin: Pos, radius: int) returns (structureId: string)
      ensures structureId == Classify(structures, Scanned(blocks, origin, radius))
    {
      var blockCount, chestCount := CountBlocks(blocks, origin, radius);
      if chestCount >= 6 {
        return ChestCluster;
      }
      for i := 0 to |structures|
        invariant FirstMatch(structures[i..], blockCount) == FirstMatch(structures, blockCount)
      {
        assert structures[i..][1..] == structures[i + 1..];
        var (id, requirement) := structures[i];
        var valid := MeetsRequirement(blockCount, requirement);
        if valid {
          return id;
        }
      }
      return Default;
    }

    /** `biomeLoot[biomeId] ?? null` and its structure counterpart. */
    function TableFor(tables: Tables, id: string): Option<seq<LootEntry>>
    {
      if id in tables then Some(tables[id]) else None
    }

    /** The merged table a chest at `pos` is filled from. */
    ghost function ChestTable(blocks: map<Pos, string>, pos: Pos, biomeId: string, dimensionId: string): Table<real>
      reads this
    {
      var structureId := Classify(structures, Scanned(blocks, pos, ScanRadius));
      FinalLoot(TableFor(biomeLoot, biomeId), TableFor(structureLoot, structureId), biomeId, dimensionId)
    }

    /**
      `resolve`: a chest that was placed or opened before is left alone;
      otherwise it is marked opened before anything is injected, even when the
      merged table is empty, and then filled from that table as `Injected`
      describes. Afterwards the
      chest can never receive loot again.
     */
    method Resolve(world: World, blocks: map<Pos, string>, pos: Pos, biomeId: string, dimensionId: string,
                   container: array?<Option<string>>, roll: nat -> real)
      requires IsRandom(roll)
      modifies world, container
      ensures !CanInject(world.props, pos)
      ensures !CanInject(old(world.props), pos) ==>
        world.props == old(world.props) && (container != null ==> container[..] == old(container[..]))
      ensures CanInject(old(world.props), pos) ==> world.props == WithMark(old(world.props), OpenedChestsKey, pos)
      ensures CanInject(old(world.props), pos) && container != null ==>
        container[..] == Injected(ChestTable(blocks, pos, biomeId, dimensionId), old(container[..]), roll)
      ensures container != null ==> forall s :: 0 <= s < container.Length && container[s] != old(container[s]) ==>
        && Usable(old(container[s]))
        && container[s].Some?
        && container[s].value in Keys(ChestTable(blocks, pos, biomeId, dimensionId))
    {
      var can := world.CanInjectChest(pos);
      if !can {
        return;
      }
      var structureId := DetectNearbyStructure(blocks, pos, ScanRadius);
      var biomeTable := TableFor(biomeLoot, biomeId);
      var structureTable := TableFor(structureLoot, structureId);
      var finalLoot := MergeLootTables(biomeTable, structureTable, biomeId, dimensionId);
      world.MarkChestOpened(pos);
      MarkBlocks(old(world.props), OpenedChestsKey, pos);
      if |finalLoot| == 0 {
        assert container != null ==> Plan(finalLoot, container[..], roll) == [];
        return;
      }
      ghost var written := InjectLoot(finalLoot, container, roll);
    }

    /** The `playerInteractWithBlock` handler: only a chest is resolved. */
    method OnPlayerInteractWithBlock(world: World, blocks: map<Pos, string>, typeId: string, pos: Pos,
                                     biomeId: string, dimensionId: string,
                                     container: array?<Option<string>>, roll: nat -> real)
      requires IsRandom(roll)
      modifies world, container
      ensures typeId != Chest ==> world.props == old(world.props) && (container != null ==> container[..] == old(container[..]))
      ensures typeId == Chest ==> !CanInject(world.props, pos)
    {
      if typeId != Chest {
        return;
      }
      Resolve(world, blocks, pos, biomeId, dimensionId, container, roll);
    }
  }

  /** The `playerPlaceBlock` handler: a chest a player places is marked and never receives loot. */
  method OnPlayerPlaceBlock(world: World, typeId: string, pos: Pos)
    modifies world
    ensures world.props == if typeId == Chest then WithMark(old(world.props), PlacedChestsKey, pos) else old(world.props)
  {
    if typeId != Chest {
      return;
    }
    world.MarkChestPlaced(pos);
  }

  /** Opening a chest a second time changes nothing: the first `resolve` left it marked. */
  lemma SecondResolveIsInert(props: Ledger, pos: Pos)
    ensures !CanInject(WithMark(props, OpenedChestsKey, pos), pos)
    ensures WithMark(WithMark(props, OpenedChestsKey, pos), OpenedChestsKey, pos) == WithMark(props, OpenedChestsKey, pos)
  {
    MarkBlocks(props, OpenedChestsKey, pos);
  }
}
