/**
  The chest loot tables of `ChestLootInjector`: merging a registration into
  the table already kept for a biome or structure (`registerBiomeLoot`,
  `registerStructureLoot`), and combining the biome and structure tables of
  one chest into the chances it is filled with (`mergeLootTables`).
  Chances are reals; they are only compared and summed.
 */
module LootTables {
  import opened Wrappers
  import opened Assoc
  import opened Config

  /** One registered loot entry; biome entries carry no conditions. */
  datatype LootEntry = LootEntry(item: string, chance: real, conditions: Option<Conditions>)

  predicate Mentions(entries: seq<LootEntry>, k: string)
  {
    exists i :: 0 <= i < |entries| && entries[i].item == k
  }

  /** Every entry of the table is stored under its own item. */
  predicate Keyed(t: Table<LootEntry>)
  {
    forall e :: e in t ==> e.1.item == e.0
  }

  // ---------------------------------------------------------------- merging a registration

  /** The `Map` after the "existing loot" loop: each item set to its entries in turn. */
  function Indexed(entries: seq<LootEntry>): Table<LootEntry>
  {
    if |entries| == 0 then []
    else
      var n := |entries| - 1;
      Put(Indexed(entries[..n]), entries[n].item, entries[n])
  }

  /** One step of the "new loot" loop: `e` replaces the kept entry only with a strictly higher chance. */
  function Challenge(t: Table<LootEntry>, e: LootEntry): Table<LootEntry>
  {
    match Get(t, e.item)
    case None => Put(t, e.item, e)
    case Some(prev) => if e.chance > prev.chance then Put(t, e.item, e) else t
  }

  /** The "new loot" loop over `loot`. */
  function Challenged(t: Table<LootEntry>, loot: seq<LootEntry>): Table<LootEntry>
  {
    if |loot| == 0 then t
    else
      var n := |loot| - 1;
      Challenge(Challenged(t, loot[..n]), loot[n])
  }

  /** The list a repeated registration leaves behind: `Array.from(map.values())`. */
  function MergedLoot(existing: seq<LootEntry>, loot: seq<LootEntry>): seq<LootEntry>
  {
    Values(Challenged(Indexed(existing), loot))
  }

  /** The existing-loot loop keeps one entry per item, stored under its item. */
  lemma {:induction false} IndexedShape(entries: seq<LootEntry>)
    ensures Distinct(Indexed(entries)) && Keyed(Indexed(entries))
  {
    if |entries| > 0 {
      var n := |entries| - 1;
      IndexedShape(entries[..n]);
      PutDistinct(Indexed(entries[..n]), entries[n].item, entries[n]);
      PutMembers(Indexed(entries[..n]), entries[n].item, entries[n]);
    }
  }

  /** The existing-loot loop keeps, for each item named, the last entry registered for it. */
  lemma {:induction false} IndexedGet(entries: seq<LootEntry>, k: string)
    ensures Get(Indexed(entries), k).Some? <==> Mentions(entries, k)
    ensures Get(Indexed(entries), k).Some? ==>
      exists i :: 0 <= i < |entries| && entries[i] == Get(Indexed(entries), k).value
        && forall j :: i < j < |entries| ==> entries[j].item != k
  {
    if |entries| > 0 {
      var n := |entries| - 1;
      var t := Indexed(entries[..n]);
      IndexedGet(entries[..n], k);
      PutGet(t, entries[n].item, entries[n], k);
      if entries[n].item == k {
        assert entries[n] == Get(Indexed(entries), k).value;
      } else {
        if Mentions(entries, k) {
          var i :| 0 <= i < |entries| && entries[i].item == k;
          assert entries[..n][i].item == k;
        }
        if Get(t, k).Some? {
          var i :| 0 <= i < n && entries[..n][i] == Get(t, k).value
            && forall j :: i < j < n ==> entries[..n][j].item != k;
          assert entries[i] == Get(Indexed(entries), k).value;
        }
      }
    }
  }

  /** One step of the new-loot loop, read back at key `k`. */
  lemma ChallengeGet(u: Table<LootEntry>, e: LootEntry, k: string)
    ensures Get(Challenge(u, e), k) ==
      if k == e.item && (Get(u, k).None? || e.chance > Get(u, k).value.chance) then Some(e) else Get(u, k)
  {
    PutGet(u, e.item, e, k);
  }

  /** The new-loot loop keeps one entry per item, stored under its item. */
  lemma {:induction false} ChallengedShape(t: Table<LootEntry>, loot: seq<LootEntry>)
    requires Distinct(t) && Keyed(t)
    ensures Distinct(Challenged(t, loot)) && Keyed(Challenged(t, loot))
  {
    if |loot| > 0 {
      var n := |loot| - 1;
      var u := Challenged(t, loot[..n]);
      ChallengedShape(t, loot[..n]);
      PutDistinct(u, loot[n].item, loot[n]);
      PutMembers(u, loot[n].item, loot[n]);
    }
  }

  /**
    After the new-loot loop an item is present exactly when it was before or
    some new entry names it; the kept entry is the old one or a new one, and
    its chance is at least that of every new entry for the item.
   */
  lemma {:induction false} ChallengedKeepsHighest(t: Table<LootEntry>, loot: seq<LootEntry>, k: string)
    ensures Get(Challenged(t, loot), k).Some? <==> Get(t, k).Some? || Mentions(loot, k)
    ensures Get(Challenged(t, loot), k).Some? ==>
      var c := Get(Challenged(t, loot), k).value;
      && (Get(t, k) == Some(c) || c in loot)
      && forall i :: 0 <= i < |loot| && loot[i].item == k ==> loot[i].chance <= c.chance
  {
    if |loot| > 0 {
      var n := |loot| - 1;
      var u := Challenged(t, loot[..n]);
      ChallengedKeepsHighest(t, loot[..n], k);
      ChallengeGet(u, loot[n], k);
      if Mentions(loot[..n], k) {
        var i :| 0 <= i < n && loot[..n][i].item == k;
        assert loot[i].item == k;
      }
      if Mentions(loot, k) && loot[n].item != k {
        var i :| 0 <= i < |loot| && loot[i].item == k;
        assert loot[..n][i].item == k;
      }
      if Get(Challenged(t, loot), k).Some? {
        var c := Get(Challenged(t, loot), k).value;
        forall i | 0 <= i < |loot| && loot[i].item == k
          ensures loot[i].chance <= c.chance
        {
          if i < n {
            assert loot[..n][i] == loot[i];
          }
        }
        if c != loot[n] && Get(t, k) != Some(c) {
          assert c in loot[..n];
        }
      }
    }
  }

  /** A tie keeps the existing entry: it is replaced only by a strictly higher chance. */
  lemma {:induction false} ChallengedTieKeeps(t: Table<LootEntry>, loot: seq<LootEntry>, k: string, x: LootEntry)
    requires Get(t, k) == Some(x)
    requires forall i :: 0 <= i < |loot| && loot[i].item == k ==> loot[i].chance <= x.chance
    ensures Get(Challenged(t, loot), k) == Some(x)
  {
    if |loot| > 0 {
      var n := |loot| - 1;
      ChallengedTieKeeps(t, loot[..n], k, x);
      ChallengeGet(Challenged(t, loot[..n]), loot[n], k);
    }
  }

  /**
    A repeated registration leaves one entry per item, for exactly the items
    of the old and the new list; each kept entry is an old or a new one, and
    none of the new entries for its item has a higher chance.
   */
  lemma MergedLootMeaning(existing: seq<LootEntry>, loot: seq<LootEntry>, k: string)
    ensures var m := MergedLoot(existing, loot);
      && (forall i, j :: 0 <= i < j < |m| ==> m[i].item != m[j].item)
      && (Mentions(m, k) <==> Mentions(existing, k) || Mentions(loot, k))
      && forall i :: 0 <= i < |m| && m[i].item == k ==>
           && (m[i] in existing || m[i] in loot)
           && forall j :: 0 <= j < |loot| && loot[j].item == k ==> loot[j].chance <= m[i].chance
  {
    var t0 := Indexed(existing);
    var t := Challenged(t0, loot);
    var m := MergedLoot(existing, loot);
    IndexedShape(existing);
    IndexedGet(existing, k);
    ChallengedShape(t0, loot);
    ChallengedKeepsHighest(t0, loot, k);
    DistinctItems(t);
    GetKeys(t0, k);
    GetKeys(t, k);
    if Mentions(m, k) {
      var i :| 0 <= i < |m| && m[i].item == k;
      assert t[i] in t;
      GetDistinct(t, i);
    }
    if Get(t, k).Some? {
      var i :| 0 <= i < |t| && t[i] == (k, Get(t, k).value);
      assert m[i].item == k;
    }
    forall i | 0 <= i < |m| && m[i].item == k
      ensures m[i] in existing || m[i] in loot
      ensures forall j :: 0 <= j < |loot| && loot[j].item == k ==> loot[j].chance <= m[i].chance
    {
      assert t[i] in t;
      GetDistinct(t, i);
      if m[i] !in loot {
        var x :| 0 <= x < |existing| && existing[x] == Get(t0, k).value
          && forall j :: x < j < |existing| ==> existing[j].item != k;
      }
    }
  }

  /** A repeated registration where no new entry beats the kept one leaves that entry. */
  lemma MergedLootTieKeeps(existing: seq<LootEntry>, loot: seq<LootEntry>, k: string, x: LootEntry)
    requires Get(Indexed(existing), k) == Some(x)
    requires forall i :: 0 <= i < |loot| && loot[i].item == k ==> loot[i].chance <= x.chance
    ensures x in MergedLoot(existing, loot)
  {
    ChallengedTieKeeps(Indexed(existing), loot, k, x);
    var t := Challenged(Indexed(existing), loot);
    GetKeys(t, k);
    var i :| 0 <= i < |t| && t[i] == (k, x);
    assert MergedLoot(existing, loot)[i] == x;
  }

  lemma DistinctItems(t: Table<LootEntry>)
    requires Distinct(t) && Keyed(t)
    ensures forall i, j :: 0 <= i < j < |t| ==> t[i].1.item != t[j].1.item
  {
    forall i, j | 0 <= i < j < |t| ensures t[i].1.item != t[j].1.item {
      assert t[i] in t && t[j] in t;
      DistinctKeysAt(t, i, j);
    }
  }

  lemma {:induction false} DistinctKeysAt(t: Table<LootEntry>, i: nat, j: nat)
    requires Distinct(t) && i < j < |t|
    ensures t[i].0 != t[j].0
  {
    KeysMembers(t[1..]);
    if i == 0 {
      assert t[j].0 == Keys(t[1..])[j - 1];
    } else {
      DistinctKeysAt(t[1..], i - 1, j - 1);
    }
  }

  /** The two loops of `registerStructureLoot` / `registerBiomeLoot` on an existing list. */
  method MergeEntries(existing: seq<LootEntry>, loot: seq<LootEntry>) returns (merged: seq<LootEntry>)
    ensures merged == MergedLoot(existing, loot)
  {
    var m: Table<LootEntry> := [];
    for i := 0 to |existing|
      invariant m == Indexed(existing[..i])
    {
      assert existing[..i + 1][..i] == existing[..i];
      m := Put(m, existing[i].item, existing[i]);
    }
    assert existing[..|existing|] == existing;
    ghost var t0 := m;
    for i := 0 to |loot|
      invariant m == Challenged(t0, loot[..i])
    {
      assert loot[..i + 1][..i] == loot[..i];
      var entry := loot[i];
      var prev := Get(m, entry.item);
      if prev.None? || entry.chance > prev.value.chance {
        m := Put(m, entry.item, entry);
      }
    }
    assert loot[..|loot|] == loot;
    merged := Values(m);
  }

  // ---------------------------------------------------------------- one chest's table

  /** A structure entry's conditions hold for the chest's biome and dimension. */
  predicate Admits(c: Option<Conditions>, biomeId: string, dimensionId: string)
  {
    c.None? ||
    ((c.value.dimension == "" || c.value.dimension == dimensionId) &&
     (c.value.biomes.None? || biomeId in c.value.biomes.value))
  }

  /** The structure entries that pass their conditions. */
  function Admitted(entries: seq<LootEntry>, biomeId: string, dimensionId: string): seq<LootEntry>
  {
    if |entries| == 0 then []
    else
      var n := |entries| - 1;
      var rest := Admitted(entries[..n], biomeId, dimensionId);
      if Admits(entries[n].conditions, biomeId, dimensionId) then rest + [entries[n]] else rest
  }

  /** The sum of the chances of the entries for item `k`. */
  function ChanceSum(entries: seq<LootEntry>, k: string): real
  {
    if |entries| == 0 then 0.0
    else
      var n := |entries| - 1;
      ChanceSum(entries[..n], k) + (if entries[n].item == k then entries[n].chance else 0.0)
  }

  /** `finalLoot.set(item, (finalLoot.get(item) ?? 0) + chance)` for each entry in turn. */
  function AddChances(t: Table<real>, entries: seq<LootEntry>): Table<real>
  {
    if |entries| == 0 then t
    else
      var n := |entries| - 1;
      var u := AddChances(t, entries[..n]);
      Put(u, entries[n].item, Get(u, entries[n].item).GetOr(0.0) + entries[n].chance)
  }

  /** The table `mergeLootTables` returns; a missing table adds nothing. */
  function FinalLoot(biomeTable: Option<seq<LootEntry>>, structureTable: Option<seq<LootEntry>>,
                     biomeId: string, dimensionId: string): Table<real>
  {
    var base := AddChances([], biomeTable.GetOr([]));
    AddChances(base, Admitted(structureTable.GetOr([]), biomeId, dimensionId))
  }

  /** An entry survives the filter exactly when its conditions hold. */
  lemma {:induction false} AdmittedMeaning(entries: seq<LootEntry>, biomeId: string, dimensionId: string)
    ensures forall e :: e in Admitted(entries, biomeId, dimensionId) <==>
      e in entries && Admits(e.conditions, biomeId, dimensionId)
  {
    if |entries| > 0 {
      var n := |entries| - 1;
      AdmittedMeaning(entries[..n], biomeId, dimensionId);
      assert entries == entries[..n] + [entries[n]];
    }
  }

  /** Entries for other items add nothing to an item's chance. */
  lemma {:induction false} ChanceSumAbsent(entries: seq<LootEntry>, k: string)
    requires !Mentions(entries, k)
    ensures ChanceSum(entries, k) == 0.0
  {
    if |entries| > 0 {
      var n := |entries| - 1;
      ChanceSumAbsent(entries[..n], k);
    }
  }

  /** Adding entries sums their chances onto what the table held for each item. */
  lemma {:induction false} AddChancesMeaning(t: Table<real>, entries: seq<LootEntry>, k: string)
    ensures Get(AddChances(t, entries), k) ==
      if Get(t, k).Some? || Mentions(entries, k) then Some(Get(t, k).GetOr(0.0) + ChanceSum(entries, k)) else None
    ensures Distinct(t) ==> Distinct(AddChances(t, entries))
  {
    if |entries| > 0 {
      var n := |entries| - 1;
      AddChancesMeaning(t, entries[..n], k);
      var u := AddChances(t, entries[..n]);
      if !Mentions(entries[..n], k) {
        ChanceSumAbsent(entries[..n], k);
      }
      PutGet(u, entries[n].item, Get(u, entries[n].item).GetOr(0.0) + entries[n].chance, k);
      if Distinct(t) {
        PutDistinct(u, entries[n].item, Get(u, entries[n].item).GetOr(0.0) + entries[n].chance);
      }
      if Mentions(entries[..n], k) {
        var i :| 0 <= i < n && entries[..n][i].item == k;
        assert entries[i].item == k;
      }
      if Mentions(entries, k) && entries[n].item != k {
        var i :| 0 <= i < |entries| && entries[i].item == k;
        assert entries[..n][i].item == k;
      }
    }
  }

  /**
    The chance of an item in a chest's table is the sum of its biome entries
    and of its structure entries whose conditions hold; items named by no
    such entry are absent, and every item appears once.
   */
  lemma FinalLootMeaning(biomeTable: Option<seq<LootEntry>>, structureTable: Option<seq<LootEntry>>,
                         biomeId: string, dimensionId: string, k: string)
    ensures var biome := biomeTable.GetOr([]);
      var structure := Admitted(structureTable.GetOr([]), biomeId, dimensionId);
      Get(FinalLoot(biomeTable, structureTable, biomeId, dimensionId), k) ==
        if Mentions(biome, k) || Mentions(structure, k)
        then Some(ChanceSum(biome, k) + ChanceSum(structure, k))
        else None
    ensures Distinct(FinalLoot(biomeTable, structureTable, biomeId, dimensionId))
    ensures biomeTable.None? && structureTable.None? ==> FinalLoot(biomeTable, structureTable, biomeId, dimensionId) == []
  {
    var biome := biomeTable.GetOr([]);
    var structure := Admitted(structureTable.GetOr([]), biomeId, dimensionId);
    AddChancesMeaning([], biome, k);
    if !Mentions(biome, k) {
      ChanceSumAbsent(biome, k);
    }
    if !Mentions(structure, k) {
      ChanceSumAbsent(structure, k);
    }
    AddChancesMeaning(AddChances([], biome), structure, k);
    assert Admitted([], biomeId, dimensionId) == [];
  }

  /** `mergeLootTables`: biome entries first, then the structure entries that pass their conditions. */
  method MergeLootTables(biomeTable: Option<seq<LootEntry>>, structureTable: Option<seq<LootEntry>>,
                         biomeId: string, dimensionId: string) returns (finalLoot: Table<real>)
    ensures finalLoot == FinalLoot(biomeTable, structureTable, biomeId, dimensionId)
  {
    finalLoot := [];
    if biomeTable.Some? {
      finalLoot := AddBiomeLayer(biomeTable.value);
    }
    if structureTable.Some? {
      finalLoot := AddStructureLayer(finalLoot, structureTable.value, biomeId, dimensionId);
    }
  }

  /** The biome loop of `mergeLootTables`. */
  method AddBiomeLayer(entries: seq<LootEntry>) returns (finalLoot: Table<real>)
    ensures finalLoot == AddChances([], entries)
  {
    finalLoot := [];
    for i := 0 to |entries|
      invariant finalLoot == AddChances([], entries[..i])
    {
      assert entries[..i + 1][..i] == entries[..i];
      var entry := entries[i];
      finalLoot := Put(finalLoot, entry.item, Get(finalLoot, entry.item).GetOr(0.0) + entry.chance);
    }
    assert entries[..|entries|] == entries;
  }

  /** The structure loop of `mergeLootTables`: entries whose conditions fail are skipped. */
  method AddStructureLayer(base: Table<real>, entries: seq<LootEntry>, biomeId: string, dimensionId: string)
    returns (finalLoot: Table<real>)
    ensures finalLoot == AddChances(base, Admitted(entries, biomeId, dimensionId))
  {
    finalLoot := base;
    for i := 0 to |entries|
      invariant finalLoot == AddChances(base, Admitted(entries[..i], biomeId, dimensionId))
    {
      assert entries[..i + 1][..i] == entries[..i];
      var entry := entries[i];
      var cond := entry.conditions;
      if cond.Some? {
        if cond.value.dimension != "" && cond.value.dimension != dimensionId {
          continue;
        }
        if cond.value.biomes.Some? && biomeId !in cond.value.biomes.value {
          continue;
        }
      }
      finalLoot := Put(finalLoot, entry.item, Get(finalLoot, entry.item).GetOr(0.0) + entry.chance);
    }
    assert entries[..|entries|] == entries;
  }
}
