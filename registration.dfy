/**
  The `dorios:register_stat_data` script event (BP/scripts/Core/config.js):
  registrants send a JSON object of contribution records keyed by item id;
  each valid record is stored in the registry and its loot and drops are
  forwarded to the loot injectors.
 */
module Registration {
  import opened Wrappers
  import opened Config
  import opened LootInjector
  import opened MobLoot
  import opened LootTables

  /**
    The message as `JSON.parse` leaves it: a parse failure, a value that is
    not an object (or is null), or the object's entries in order. An entry's
    config is None when it is falsy or not an object.
   */
  datatype Payload = ParseFailed | NotAnObject | Entries(entries: seq<(string, Option<Entry>)>)

  /** The shared `data` registry. */
  class Registry {
    var data: map<string, Entry>

    constructor (data: map<string, Entry>)
      ensures this.data == data
    {
      this.data := data;
    }
  }

  /** The registry after the loop: every valid entry written in turn. */
  function Stored(data: map<string, Entry>, entries: seq<(string, Option<Entry>)>): map<string, Entry>
  {
    if |entries| == 0 then data
    else
      var n := |entries| - 1;
      var prev := Stored(data, entries[..n]);
      if entries[n].1.Some? then prev[entries[n].0 := entries[n].1.value] else prev
  }

  /** `biomeLoot` after the loop forwards every valid entry's loot. */
  function BiomeAfter(tables: Tables, entries: seq<(string, Option<Entry>)>): Tables
  {
    if |entries| == 0 then tables
    else
      var n := |entries| - 1;
      var prev := BiomeAfter(tables, entries[..n]);
      var (id, config) := entries[n];
      if config.Some? && config.value.loot.Some? && config.value.loot.value.biomes.Some?
      then Contributed(prev, id, BiomeSites(config.value.loot.value.biomes.value))
      else prev
  }

  /** `structureLoot` after the loop. */
  function StructureAfter(tables: Tables, entries: seq<(string, Option<Entry>)>): Tables
  {
    if |entries| == 0 then tables
    else
      var n := |entries| - 1;
      var prev := StructureAfter(tables, entries[..n]);
      var (id, config) := entries[n];
      if config.Some? && config.value.loot.Some? && config.value.loot.value.structures.Some?
      then Contributed(prev, id, StructureSites(config.value.loot.value.structures.value))
      else prev
  }

  /** `entityDrops` after the loop. */
  function DropsAfter(m: map<string, seq<Drop>>, entries: seq<(string, Option<Entry>)>): map<string, seq<Drop>>
  {
    if |entries| == 0 then m
    else
      var n := |entries| - 1;
      var prev := DropsAfter(m, entries[..n]);
      var (id, config) := entries[n];
      if config.Some? && config.value.drops.Some? then Appended(prev, id, config.value.drops.value) else prev
  }

  /** Last write wins: an id holds the config of the last valid entry that carries it. */
  lemma {:induction false} StoredLastWins(data: map<string, Entry>, entries: seq<(string, Option<Entry>)>, i: nat)
    requires i < |entries| && entries[i].1.Some?
    requires forall j :: i < j < |entries| && entries[j].0 == entries[i].0 ==> entries[j].1.None?
    ensures entries[i].0 in Stored(data, entries) && Stored(data, entries)[entries[i].0] == entries[i].1.value
  {
    var n := |entries| - 1;
    if i < n {
      var init := entries[..n];
      assert forall j :: i < j < n ==> init[j] == entries[j];
      assert init[i] == entries[i];
      StoredLastWins(data, init, i);
    }
  }

  /** An id no valid entry carries is exactly as it was, present or absent. */
  lemma {:induction false} StoredUntouched(data: map<string, Entry>, entries: seq<(string, Option<Entry>)>, id: string)
    requires forall i :: 0 <= i < |entries| && entries[i].0 == id ==> entries[i].1.None?
    ensures id in Stored(data, entries) <==> id in data
    ensures id in data ==> Stored(data, entries)[id] == data[id]
  {
    if |entries| > 0 {
      var init := entries[..|entries| - 1];
      assert forall i :: 0 <= i < |init| ==> init[i] == entries[i];
      StoredUntouched(data, init, id);
    }
  }

  /** A later registration never removes an item from a biome table. */
  lemma {:induction false} BiomeAfterKeeps(tables: Tables, entries: seq<(string, Option<Entry>)>, b: string, x: string)
    requires b in tables && Mentions(tables[b], x)
    ensures b in BiomeAfter(tables, entries) && Mentions(BiomeAfter(tables, entries)[b], x)
  {
    if |entries| > 0 {
      var n := |entries| - 1;
      BiomeAfterKeeps(tables, entries[..n], b, x);
      var (id, config) := entries[n];
      if config.Some? && config.value.loot.Some? && config.value.loot.value.biomes.Some? {
        ContributedKeeps(BiomeAfter(tables, entries[..n]), id, BiomeSites(config.value.loot.value.biomes.value), b, x);
      }
    }
  }

  /** Forwarding: every biome an entry's loot names with a chance lists that entry's item afterwards. */
  lemma {:induction false} BiomeAfterOffers(tables: Tables, entries: seq<(string, Option<Entry>)>, i: nat, k: nat)
    requires i < |entries| && entries[i].1.Some?
    requires entries[i].1.value.loot.Some? && entries[i].1.value.loot.value.biomes.Some?
    requires var specs := entries[i].1.value.loot.value.biomes.value;
      k < |specs| && specs[k].biome != "" && specs[k].chance.Some?
    ensures var b := entries[i].1.value.loot.value.biomes.value[k].biome;
      b in BiomeAfter(tables, entries) && Mentions(BiomeAfter(tables, entries)[b], entries[i].0)
  {
    var n := |entries| - 1;
    var specs := entries[i].1.value.loot.value.biomes.value;
    var b := specs[k].biome;
    if i == n {
      ContributedOffers(BiomeAfter(tables, entries[..n]), entries[i].0, BiomeSites(specs), k);
    } else {
      assert entries[..n][i] == entries[i];
      BiomeAfterOffers(tables, entries[..n], i, k);
      BiomeAfterKeeps(BiomeAfter(tables, entries[..n]), [entries[n]], b, entries[i].0);
      assert [entries[n]][..0] == [];
    }
  }

  /** A later registration never removes an item from a structure table. */
  lemma {:induction false} StructureAfterKeeps(tables: Tables, entries: seq<(string, Option<Entry>)>, b: string, x: string)
    requires b in tables && Mentions(tables[b], x)
    ensures b in StructureAfter(tables, entries) && Mentions(StructureAfter(tables, entries)[b], x)
  {
    if |entries| > 0 {
      var n := |entries| - 1;
      StructureAfterKeeps(tables, entries[..n], b, x);
      var (id, config) := entries[n];
      if config.Some? && config.value.loot.Some? && config.value.loot.value.structures.Some? {
        ContributedKeeps(StructureAfter(tables, entries[..n]), id, StructureSites(config.value.loot.value.structures.value), b, x);
      }
    }
  }

  /** Forwarding: every structure an entry's loot names with a chance lists that entry's item afterwards. */
  lemma {:induction false} StructureAfterOffers(tables: Tables, entries: seq<(string, Option<Entry>)>, i: nat, k: nat)
    requires i < |entries| && entries[i].1.Some?
    requires entries[i].1.value.loot.Some? && entries[i].1.value.loot.value.structures.Some?
    requires var specs := entries[i].1.value.loot.value.structures.value;
      k < |specs| && specs[k].structure != "" && specs[k].chance.Some?
    ensures var b := entries[i].1.value.loot.value.structures.value[k].structure;
      b in StructureAfter(tables, entries) && Mentions(StructureAfter(tables, entries)[b], entries[i].0)
  {
    var n := |entries| - 1;
    var specs := entries[i].1.value.loot.value.structures.value;
    var b := specs[k].structure;
    if i == n {
      ContributedOffers(StructureAfter(tables, entries[..n]), entries[i].0, StructureSites(specs), k);
    } else {
      assert entries[..n][i] == entries[i];
      StructureAfterOffers(tables, entries[..n], i, k);
      StructureAfterKeeps(StructureAfter(tables, entries[..n]), [entries[n]], b, entries[i].0);
      assert [entries[n]][..0] == [];
    }
  }

  /**
    The handler. A parse failure answers `{registered: false}`; a value that
    is not an object changes nothing and sends no answer; otherwise each
    entry with an object config is stored, its loot and drops registered, and
    `{registered: true}` is sent even when entries were skipped. The answer
    sent, if any, is returned.
   */
  method RegisterStatData(payload: Payload, registry: Registry, chest: ChestLootInjector, mob: MobLootInjector)
    returns (confirmation: Option<bool>)
    modifies registry, chest, mob
    ensures payload.ParseFailed? ==> confirmation == Some(false)
    ensures payload.NotAnObject? ==> confirmation == None
    ensures !payload.Entries? ==>
      && registry.data == old(registry.data)
      && chest.biomeLoot == old(chest.biomeLoot) && chest.structureLoot == old(chest.structureLoot)
      && mob.entityDrops == old(mob.entityDrops)
    ensures payload.Entries? ==>
      && confirmation == Some(true)
      && registry.data == Stored(old(registry.data), payload.entries)
      && chest.biomeLoot == BiomeAfter(old(chest.biomeLoot), payload.entries)
      && chest.structureLoot == StructureAfter(old(chest.structureLoot), payload.entries)
      && mob.entityDrops == DropsAfter(old(mob.entityDrops), payload.entries)
    ensures chest.structures == old(chest.structures)
  {
    match payload
    case ParseFailed =>
      return Some(false);
    case NotAnObject =>
      return None;
    case Entries(entries) =>
      for i := 0 to |entries|
        invariant registry.data == Stored(old(registry.data), entries[..i])
        invariant chest.biomeLoot == BiomeAfter(old(chest.biomeLoot), entries[..i])
        invariant chest.structureLoot == StructureAfter(old(chest.structureLoot), entries[..i])
        invariant mob.entityDrops == DropsAfter(old(mob.entityDrops), entries[..i])
        invariant chest.structures == old(chest.structures)
      {
        assert entries[..i + 1][..i] == entries[..i];
        var (id, config) := entries[i];
        if config.None? {
          continue;
        }
        registry.data := registry.data[id := config.value];
        if config.value.loot.Some? {
          chest.RegisterTrinketLoot(id, config.value.loot);
        }
        if config.value.drops.Some? {
          mob.RegisterTrinketDrop(id, config.value.drops);
        }
      }
      assert entries[..|entries|] == entries;
      return Some(true);
  }
}
