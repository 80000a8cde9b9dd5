/**
  The mod's fixed configuration (`slots`, `statsConfig`) and the shape of a
  contribution record as registrants send it (BP/scripts/Core/config.js).
 */
module Config {
  import opened Wrappers

  /** Optional filters on a loot or drop contribution; `dimension` is "" when absent. */
  datatype Conditions = Conditions(dimension: string, biomes: Option<seq<string>>)

  /** One `loot.biomes` element; `chance` is None when it is not a number. */
  datatype BiomeLootSpec = BiomeLootSpec(biome: string, chance: Option<real>)

  /** One `loot.structures` element. */
  datatype StructureLootSpec = StructureLootSpec(structure: string, chance: Option<real>, conditions: Option<Conditions>)

  /** The `loot` field; each list is None when it is not an array. */
  datatype LootSpec = LootSpec(biomes: Option<seq<BiomeLootSpec>>, structures: Option<seq<StructureLootSpec>>)

  /** One `drops` element; `chance` and `amount` are None when null or undefined. */
  datatype DropSpec = DropSpec(entity: string, chance: Option<real>, amount: Option<int>, conditions: Option<Conditions>)

  /**
    A contribution record. `trinket` is the slot name ("" when absent, which the
    source treats alike); `hasCondition` says whether a `condition` callback was
    registered (its outcome for a player is supplied by the caller);
    `immunities` is None when the field is not an array.
   */
  datatype Entry = Entry(
    trinket: string,
    hasCondition: bool,
    stats: map<string, int>,
    passives: map<string, int>,
    actives: map<string, int>,
    immunities: Option<seq<string>>,
    loot: Option<LootSpec>,
    drops: Option<seq<DropSpec>>)

  /** Whether the entry's condition, if it has one, passes for the player: `condOk` lists the ids whose condition passes. */
  predicate PassesCondition(e: Entry, id: string, condOk: set<string>)
  {
    !e.hasCondition || id in condOk
  }

  /** The trinket slots in declaration order; the slot named SlotNames[i] has index i. */
  const SlotNames: seq<string> := [
    "head", "body", "feet", "necklace", "ring", "charm", "talisman",
    "gauntlet", "heartycharm", "doll", "witherring", "archaiccharm", "amulet"]

  const SlotCount: nat := 13

  /** `slots[name]`: the index of a slot name, None for an unknown name. */
  function SlotIndex(name: string): (r: Option<nat>)
    ensures r.Some? <==> name in SlotNames
    ensures r.Some? ==> r.value < SlotCount && SlotNames[r.value] == name
  {
    IndexOf(SlotNames, name)
  }

  function IndexOf(s: seq<string>, x: string): (r: Option<nat>)
    ensures r.Some? <==> x in s
    ensures r.Some? ==> r.value < |s| && s[r.value] == x
  {
    if |s| == 0 then None
    else if s[0] == x then Some(0)
    else match IndexOf(s[1..], x)
      case None => None
      case Some(k) => Some(k + 1)
  }

  lemma SlotNamesDistinct()
    ensures forall i, j :: 0 <= i < j < |SlotNames| ==> SlotNames[i] != SlotNames[j]
  {
    forall i, j | 0 <= i < j < |SlotNames| ensures SlotNames[i] != SlotNames[j] {
      var a, b := SlotNames[i], SlotNames[j];
      if |a| == |b| {
        assert a[0] != b[0] || a[1] != b[1] || a[2] != b[2];
      }
    }
  }

  /** The slot table maps the thirteen names to pairwise distinct indices 0..12. */
  lemma SlotTableIsBijective()
    ensures |SlotNames| == SlotCount
    ensures forall i, j :: 0 <= i < j < SlotCount ==> SlotNames[i] != SlotNames[j]
    ensures forall i :: 0 <= i < SlotCount ==> SlotIndex(SlotNames[i]) == Some(i)
  {
    SlotNamesDistinct();
    forall i | 0 <= i < SlotCount ensures SlotIndex(SlotNames[i]) == Some(i) {
      var r := SlotIndex(SlotNames[i]);
      assert SlotNames[r.value] == SlotNames[i];
    }
  }

  /** One `statsConfig` row; `scale` is 0 when absent (the source tests it with `if (scale)`). */
  datatype StatConfig = StatConfig(base: int, min: Option<int>, max: Option<int>, scale: nat)

  const StatsConfig: seq<(string, StatConfig)> := [
    ("health", StatConfig(20, Some(2), Some(100), 2)),
    ("mana", StatConfig(100, None, None, 0)),
    ("attack", StatConfig(0, None, None, 0)),
    ("attackMulti", StatConfig(0, None, None, 0)),
    ("knockback", StatConfig(0, None, None, 0)),
    ("knockbackRes", StatConfig(0, Some(0), Some(100), 1)),
    ("damageReduction", StatConfig(0, Some(-100), Some(100), 1)),
    ("speed", StatConfig(100, None, None, 0)),
    ("waterSpeed", StatConfig(100, None, None, 0)),
    ("lavaSpeed", StatConfig(100, None, None, 0)),
    ("healthRegen", StatConfig(0, None, None, 0)),
    ("lifeSteal", StatConfig(0, None, None, 0)),
    ("manaRegen", StatConfig(5, None, None, 0)),
    ("manaSteal", StatConfig(0, None, None, 0)),
    ("critMulti", StatConfig(25, None, None, 0)),
    ("critChance", StatConfig(5, None, None, 0)),
    ("thorns", StatConfig(0, None, None, 0)),
    ("fireAspect", StatConfig(0, None, None, 0)),
    ("extraJumps", StatConfig(0, None, None, 0))]

  /**
    A row keeps clamp-then-floor inside its bounds and leaves its default
    untouched: min <= default <= max, and min, max and the default are
    multiples of the scale.
   */
  predicate WellFormedStat(c: StatConfig)
  {
    && (c.min.Some? && c.max.Some? ==> c.min.value <= c.base <= c.max.value)
    && (c.min.Some? <==> c.max.Some?)
    && (c.scale > 0 ==> c.base % c.scale == 0)
    && (c.scale > 0 && c.min.Some? ==> c.min.value % c.scale == 0 && c.max.value % c.scale == 0)
  }

  predicate WellFormedStats(cfg: seq<(string, StatConfig)>)
  {
    && (forall i :: 0 <= i < |cfg| ==> WellFormedStat(cfg[i].1))
    && (forall i, j :: 0 <= i < j < |cfg| ==> cfg[i].0 != cfg[j].0)
  }

  lemma StatNamesDistinct()
    ensures forall i, j :: 0 <= i < j < |StatsConfig| ==> StatsConfig[i].0 != StatsConfig[j].0
  {
    forall i, j | 0 <= i < j < |StatsConfig| ensures StatsConfig[i].0 != StatsConfig[j].0 {
      var a, b := StatsConfig[i].0, StatsConfig[j].0;
      assert |a| != |b| || a[0] != b[0] || a[1] != b[1] || a[2] != b[2] || (|a| > 4 && a[4] != b[4]);
    }
  }

  /** Every row of the stat table is well formed and the stat names are distinct. */
  lemma StatsConfigWellFormed()
    ensures WellFormedStats(StatsConfig)
  {
    StatNamesDistinct();
    forall i | 0 <= i < 7 ensures WellFormedStat(StatsConfig[i].1) {
    }
    forall i | 7 <= i < |StatsConfig| ensures WellFormedStat(StatsConfig[i].1) {
    }
  }
}
