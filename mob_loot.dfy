/**
  `MobLootInjector` (BP/scripts/Core/loot_injector.js): trinket drops
  registered per entity type, and the roll made for each when a player kills
  such an entity. What is spawned is returned as a list of (item, amount).
 */
module MobLoot {
  import opened Wrappers
  import opened Config
  import opened ChestInjection

  /** One registered drop. */
  datatype Drop = Drop(item: string, amount: int, chance: real, conditions: Option<Conditions>)

  const DefaultAmount: int := 1
  const DefaultChance: real := 0.10

  /** The drop a `drops` element registers: `amount ?? 1`, `chance ?? 0.10`. */
  function ToDrop(trinketId: string, spec: DropSpec): (d: Drop)
    ensures d.item == trinketId && d.conditions == spec.conditions
    ensures d.amount == if spec.amount.Some? then spec.amount.value else 1
    ensures d.chance == if spec.chance.Some? then spec.chance.value else 0.10
  {
    Drop(trinketId, spec.amount.GetOr(DefaultAmount), spec.chance.GetOr(DefaultChance), spec.conditions)
  }

  /** The drops the specs register for `entity`, in order. */
  function DropsFor(trinketId: string, specs: seq<DropSpec>, entity: string): seq<Drop>
  {
    if |specs| == 0 then []
    else
      var n := |specs| - 1;
      DropsFor(trinketId, specs[..n], entity) + (if specs[n].entity == entity then [ToDrop(trinketId, specs[n])] else [])
  }

  predicate Names(specs: seq<DropSpec>, entity: string)
  {
    exists i :: 0 <= i < |specs| && specs[i].entity == entity
  }

  /** How many specs name `entity`: each one adds exactly one drop, with no merge by item. */
  function Occurrences(specs: seq<DropSpec>, entity: string): nat
  {
    if |specs| == 0 then 0
    else
      var n := |specs| - 1;
      Occurrences(specs[..n], entity) + (if specs[n].entity == entity then 1 else 0)
  }

  lemma {:induction false} DropsForCount(trinketId: string, specs: seq<DropSpec>, entity: string)
    ensures |DropsFor(trinketId, specs, entity)| == Occurrences(specs, entity)
    ensures forall d :: d in DropsFor(trinketId, specs, entity) ==> d.item == trinketId
  {
    if |specs| > 0 {
      DropsForCount(trinketId, specs[..|specs| - 1], entity);
    }
  }

  /** The dimension condition: met when absent or naming the dead entity's dimension. */
  predicate InDimension(c: Option<Conditions>, dimensionId: string)
  {
    c.None? || c.value.dimension == "" || c.value.dimension == dimensionId
  }

  /**
    The drops spawned when the entity dies in `dimensionId`, the n-th draw of
    `roll` being `Math.random()` for the n-th drop whose condition is met,
    counting from draw `k`; a drop spawns when its draw does not exceed its chance.
   */
  function Spawns(drops: seq<Drop>, dimensionId: string, roll: nat -> real, k: nat): seq<(string, int)>
    decreases |drops|
  {
    if |drops| == 0 then []
    else if !InDimension(drops[0].conditions, dimensionId) then Spawns(drops[1..], dimensionId, roll, k)
    else
      (if roll(k) <= drops[0].chance then [(drops[0].item, drops[0].amount)] else [])
      + Spawns(drops[1..], dimensionId, roll, k + 1)
  }

  /** The drops whose dimension condition is met. */
  function Eligible(drops: seq<Drop>, dimensionId: string): (r: seq<Drop>)
    ensures forall d :: d in r <==> d in drops && InDimension(d.conditions, dimensionId)
  {
    if |drops| == 0 then []
    else
      var rest := Eligible(drops[1..], dimensionId);
      assert forall d :: d in drops <==> d == drops[0] || d in drops[1..];
      if InDimension(drops[0].conditions, dimensionId) then [drops[0]] + rest else rest
  }

  /** A drop in another dimension consumes no draw: the outcome is that of the eligible drops alone. */
  lemma {:induction false} SkippedDropsDrawNothing(drops: seq<Drop>, dimensionId: string, roll: nat -> real, k: nat)
    ensures Spawns(drops, dimensionId, roll, k) == Spawns(Eligible(drops, dimensionId), dimensionId, roll, k)
  {
    if |drops| > 0 {
      SkippedDropsDrawNothing(drops[1..], dimensionId, roll, k);
      SkippedDropsDrawNothing(drops[1..], dimensionId, roll, k + 1);
      if InDimension(drops[0].conditions, dimensionId) {
        assert ([drops[0]] + Eligible(drops[1..], dimensionId))[1..] == Eligible(drops[1..], dimensionId);
      }
    }
  }

  /** Everything spawned is an eligible drop's item and amount, at most one spawn per drop. */
  lemma {:induction false} SpawnsAreEligible(drops: seq<Drop>, dimensionId: string, roll: nat -> real, k: nat)
    ensures |Spawns(drops, dimensionId, roll, k)| <= |drops|
    ensures forall x :: x in Spawns(drops, dimensionId, roll, k) ==>
      exists d :: d in drops && InDimension(d.conditions, dimensionId) && x == (d.item, d.amount)
  {
    if |drops| > 0 {
      SpawnsAreEligible(drops[1..], dimensionId, roll, k);
      SpawnsAreEligible(drops[1..], dimensionId, roll, k + 1);
      forall x | x in Spawns(drops, dimensionId, roll, k)
        ensures exists d :: d in drops && InDimension(d.conditions, dimensionId) && x == (d.item, d.amount)
      {
        if x !in Spawns(drops[1..], dimensionId, roll, k) && x !in Spawns(drops[1..], dimensionId, roll, k + 1) {
          assert x == (drops[0].item, drops[0].amount);
        } else if x in Spawns(drops[1..], dimensionId, roll, k) {
          var d :| d in drops[1..] && InDimension(d.conditions, dimensionId) && x == (d.item, d.amount);
          assert d in drops;
        } else {
          var d :| d in drops[1..] && InDimension(d.conditions, dimensionId) && x == (d.item, d.amount);
          assert d in drops;
        }
      }
    }
  }

  /** With draws in [0, 1), an eligible drop of chance 1 or more always spawns. */
  lemma {:induction false} SureDropSpawns(drops: seq<Drop>, dimensionId: string, roll: nat -> real, k: nat, i: nat)
    requires IsRandom(roll)
    requires i < |drops| && drops[i].chance >= 1.0 && InDimension(drops[i].conditions, dimensionId)
    ensures (drops[i].item, drops[i].amount) in Spawns(drops, dimensionId, roll, k)
  {
    if i > 0 {
      assert drops[1..][i - 1] == drops[i];
      SureDropSpawns(drops[1..], dimensionId, roll, k, i - 1);
      SureDropSpawns(drops[1..], dimensionId, roll, k + 1, i - 1);
    } else {
      assert roll(k) < 1.0;
    }
  }

  /** `entityDrops[e]`, an absent list read as empty. */
  function Lookup(m: map<string, seq<Drop>>, e: string): seq<Drop>
  {
    if e in m then m[e] else []
  }

  /**
    `m` is `m0` after registering the trinket's drop specs: an entity has a
    list exactly when it had one or a spec names it, and its list is the old
    one followed by one drop per spec naming it, in order.
   */
  ghost predicate Registrations(m0: map<string, seq<Drop>>, m: map<string, seq<Drop>>, trinketId: string, specs: seq<DropSpec>)
  {
    && (forall e :: e in m <==> e in m0 || Names(specs, e))
    && (forall e :: Lookup(m, e) == Lookup(m0, e) + DropsFor(trinketId, specs, e))
  }

  /** The entities the specs name. */
  function Entities(specs: seq<DropSpec>): (r: set<string>)
    ensures forall e :: e in r <==> Names(specs, e)
  {
    set i | 0 <= i < |specs| :: specs[i].entity
  }

  /** `entityDrops` after registering the specs of one trinket. */
  function Appended(m0: map<string, seq<Drop>>, trinketId: string, specs: seq<DropSpec>): map<string, seq<Drop>>
  {
    map e | e in m0.Keys + Entities(specs) :: Lookup(m0, e) + DropsFor(trinketId, specs, e)
  }

  /** The registered map is the one the relation describes, and only that one. */
  lemma AppendedMeaning(m0: map<string, seq<Drop>>, m: map<string, seq<Drop>>, trinketId: string, specs: seq<DropSpec>)
    ensures Registrations(m0, Appended(m0, trinketId, specs), trinketId, specs)
    ensures Registrations(m0, m, trinketId, specs) ==> m == Appended(m0, trinketId, specs)
  {
    var a := Appended(m0, trinketId, specs);
    forall e ensures Lookup(a, e) == Lookup(m0, e) + DropsFor(trinketId, specs, e) {
      if e !in a {
        NamelessHasNoDrops(trinketId, specs, e);
      }
    }
    if Registrations(m0, m, trinketId, specs) {
      assert m.Keys == a.Keys;
      forall e | e in m ensures m[e] == a[e] {
        assert Lookup(m, e) == Lookup(a, e);
      }
    }
  }

  lemma {:induction false} NamelessHasNoDrops(trinketId: string, specs: seq<DropSpec>, e: string)
    requires !Names(specs, e)
    ensures DropsFor(trinketId, specs, e) == []
  {
    if |specs| > 0 {
      var n := |specs| - 1;
      NamelessHasNoDrops(trinketId, specs[..n], e);
    }
  }

  /** The entities named by a list are those named before its last spec, and that spec's. */
  lemma NamesStep(specs: seq<DropSpec>)
    requires |specs| > 0
    ensures forall e :: Names(specs, e) <==> Names(specs[..|specs| - 1], e) || specs[|specs| - 1].entity == e
  {
    var n := |specs| - 1;
    forall e | Names(specs, e) && specs[n].entity != e ensures Names(specs[..n], e) {
      var j :| 0 <= j < |specs| && specs[j].entity == e;
      assert specs[..n][j].entity == e;
    }
    forall e | Names(specs[..n], e) ensures Names(specs, e) {
      var j :| 0 <= j < n && specs[..n][j].entity == e;
      assert specs[j].entity == e;
    }
  }

  /** Registering one more spec appends one drop to its entity's list. */
  lemma RegistrationStep(m0: map<string, seq<Drop>>, m: map<string, seq<Drop>>, trinketId: string, specs: seq<DropSpec>)
    requires |specs| > 0
    requires Registrations(m0, m, trinketId, specs[..|specs| - 1])
    ensures var n := |specs| - 1;
      Registrations(m0, m[specs[n].entity := Lookup(m, specs[n].entity) + [ToDrop(trinketId, specs[n])]], trinketId, specs)
  {
    var n := |specs| - 1;
    var entity := specs[n].entity;
    var m' := m[entity := Lookup(m, entity) + [ToDrop(trinketId, specs[n])]];
    NamesStep(specs);
    var d := ToDrop(trinketId, specs[n]);
    forall e ensures Lookup(m', e) == Lookup(m0, e) + DropsFor(trinketId, specs, e) {
      var prev := DropsFor(trinketId, specs[..n], e);
      assert Lookup(m, e) == Lookup(m0, e) + prev;
      if e == entity {
        assert DropsFor(trinketId, specs, e) == prev + [d];
        assert Lookup(m', e) == (Lookup(m0, e) + prev) + [d];
      } else {
        assert DropsFor(trinketId, specs, e) == prev + [];
        assert Lookup(m', e) == Lookup(m, e);
      }
    }
  }

  class MobLootInjector {
    /** `entityDrops`: the drops by entity type id. */
    var entityDrops: map<string, seq<Drop>>

    constructor ()
      ensures entityDrops == map[]
    {
      entityDrops := map[];
    }

    /**
      `registerTrinketDrop`: one drop appended per `drops` element under its
      entity, creating the list on first use; nothing without `drops`.
     */
    method RegisterTrinketDrop(trinketId: string, drops: Option<seq<DropSpec>>)
      modifies this
      ensures drops.None? ==> entityDrops == old(entityDrops)
      ensures drops.Some? ==> entityDrops == Appended(old(entityDrops), trinketId, drops.value)
    {
      if drops.None? {
        return;
      }
      var specs := drops.value;
      for i := 0 to |specs|
        invariant Registrations(old(entityDrops), entityDrops, trinketId, specs[..i])
      {
        var entity := specs[i].entity;
        assert specs[..i + 1][..i] == specs[..i];
        RegistrationStep(old(entityDrops), entityDrops, trinketId, specs[..i + 1]);
        ghost var m := entityDrops;
        if entity !in entityDrops {
          entityDrops := entityDrops[entity := []];
        }
        entityDrops := entityDrops[entity := entityDrops[entity] + [ToDrop(trinketId, specs[i])]];
        assert entityDrops == m[entity := Lookup(m, entity) + [ToDrop(trinketId, specs[i])]];
      }
      assert specs[..|specs|] == specs;
      AppendedMeaning(old(entityDrops), entityDrops, trinketId, specs);
    }

    /**
      `resolve`: nothing for an entity type without drops; otherwise each drop
      in order is skipped when its dimension condition fails, and else spawns
      when its draw does not exceed its chance.
     */
    method Resolve(deadType: string, dimensionId: string, roll: nat -> real) returns (spawned: seq<(string, int)>)
      ensures deadType !in entityDrops ==> spawned == []
      ensures deadType in entityDrops ==> spawned == Spawns(entityDrops[deadType], dimensionId, roll, 0)
    {
      spawned := [];
      if deadType !in entityDrops {
        return;
      }
      var drops := entityDrops[deadType];
      var k := 0;
      for i := 0 to |drops|
        invariant spawned + Spawns(drops[i..], dimensionId, roll, k) == Spawns(drops, dimensionId, roll, 0)
      {
        assert drops[i..][1..] == drops[i + 1..];
        var drop := drops[i];
        if drop.conditions.Some? && drop.conditions.value.dimension != "" && drop.conditions.value.dimension != dimensionId {
          continue;
        }
        var r := roll(k);
        k := k + 1;
        if r <= drop.chance {
          spawned := spawned + [(drop.item, drop.amount)];
        }
      }
    }

    /** The `entityDie` handler: only a kill by a player rolls the drops. */
    method OnEntityDie(killedByPlayer: bool, deadType: string, dimensionId: string, roll: nat -> real)
      returns (spawned: seq<(string, int)>)
      ensures !killedByPlayer ==> spawned == []
      ensures killedByPlayer && deadType in entityDrops ==> spawned == Spawns(entityDrops[deadType], dimensionId, roll, 0)
    {
      spawned := [];
      if !killedByPlayer {
        return;
      }
      spawned := Resolve(deadType, dimensionId, roll);
    }
  }
}
