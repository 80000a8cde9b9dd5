/**
  The per-player update loop (BP/scripts/Core/update_stats.js): a change
  signature over equipment and tags, the interval that re-resolves stats when
  the signature changes, refreshes passive effects, drives the extra-jump
  counter and wraps its tick counter, and the immunity check on effect adds.
 */
module UpdateStats {
  import opened Wrappers
  import opened Strings
  import opened Host
  import opened Config
  import opened StatsManager
  import TrinketsInv

  // ---------------------------------------------------------------------------
  // Change signature

  /** The equipment slots the signature reads, in order. */
  const EquipmentSlots: seq<string> := ["Head", "Chest", "Legs", "Feet", "Mainhand", "Offhand"]

  /** `equipment?.[slot]?.typeId ?? 'none'` for each slot; `equipment` holds the occupied slots. */
  function SlotIds(equipment: map<string, string>): (ids: seq<string>)
    ensures |ids| == |EquipmentSlots|
    ensures forall i :: 0 <= i < |ids| ==>
      ids[i] == if EquipmentSlots[i] in equipment then equipment[EquipmentSlots[i]] else "none"
  {
    seq(|EquipmentSlots|, i requires 0 <= i < |EquipmentSlots| =>
      if EquipmentSlots[i] in equipment then equipment[EquipmentSlots[i]] else "none")
  }

  /** `equipmentAndTagsString`: the six slot ids joined by `|`, a colon, then the tags joined by `|`. */
  function EquipmentAndTagsString(equipment: map<string, string>, tags: seq<string>): string
  {
    Join(SlotIds(equipment), '|') + ":" + Join(tags, '|')
  }

  predicate SeparatorFree(parts: seq<string>)
  {
    forall i :: 0 <= i < |parts| ==> '|' !in parts[i]
  }

  predicate IdsSeparatorFree(equipment: map<string, string>)
  {
    forall slot :: slot in equipment ==> '|' !in equipment[slot]
  }

  /**
    With the equipment unchanged, the signature changes exactly when the tag
    list does (tags are non-empty and never contain `|`).
   */
  lemma TagChangeDetected(equipment: map<string, string>, t1: seq<string>, t2: seq<string>)
    requires SeparatorFree(t1) && SeparatorFree(t2)
    requires forall i :: 0 <= i < |t1| ==> |t1[i]| > 0
    requires forall i :: 0 <= i < |t2| ==> |t2[i]| > 0
    ensures EquipmentAndTagsString(equipment, t1) == EquipmentAndTagsString(equipment, t2) <==> t1 == t2
  {
    var prefix := Join(SlotIds(equipment), '|') + ":";
    if EquipmentAndTagsString(equipment, t1) == EquipmentAndTagsString(equipment, t2) {
      var s1, s2 := Join(t1, '|'), Join(t2, '|');
      assert s1 == (prefix + s1)[|prefix|..];
      assert s2 == (prefix + s2)[|prefix|..];
      JoinEmpty(t1, '|');
      JoinEmpty(t2, '|');
      if |t1| > 0 {
        JoinInjective(t1, t2, '|');
      }
    }
  }

  /**
    With the tags unchanged, the signature changes exactly when one of the
    six slot ids does (item ids never contain `|`).
   */
  lemma EquipmentChangeDetected(e1: map<string, string>, e2: map<string, string>, tags: seq<string>)
    requires IdsSeparatorFree(e1) && IdsSeparatorFree(e2)
    ensures EquipmentAndTagsString(e1, tags) == EquipmentAndTagsString(e2, tags) <==> SlotIds(e1) == SlotIds(e2)
  {
    var ids1, ids2 := SlotIds(e1), SlotIds(e2);
    if EquipmentAndTagsString(e1, tags) == EquipmentAndTagsString(e2, tags) {
      var suffix := ":" + Join(tags, '|');
      var j1, j2 := Join(ids1, '|'), Join(ids2, '|');
      assert j1 + ":" + Join(tags, '|') == j1 + suffix;
      assert j2 + ":" + Join(tags, '|') == j2 + suffix;
      assert j1 == (j1 + suffix)[..|j1 + suffix| - |suffix|];
      assert j2 == (j2 + suffix)[..|j2 + suffix| - |suffix|];
      SlotIdsSeparatorFree(e1);
      SlotIdsSeparatorFree(e2);
      JoinInjective(ids1, ids2, '|');
    }
  }

  lemma SlotIdsSeparatorFree(e: map<string, string>)
    requires IdsSeparatorFree(e)
    ensures forall i :: 0 <= i < |SlotIds(e)| ==> '|' !in SlotIds(e)[i]
  {
  }

  // ---------------------------------------------------------------------------
  // Tick counter

  /** `tick++; if (tick > 1000) tick = 0`: the counter stays within [0, 1000]. */
  function NextTick(t: int): (r: int)
    requires 0 <= t <= 1000
    ensures 0 <= r <= 1000
    ensures t < 1000 ==> r == t + 1
    ensures t == 1000 ==> r == 0
  {
    if t + 1 > 1000 then 0 else t + 1
  }

  /** The counter after `n` runs from `t`. */
  function TickAfter(t: int, n: nat): (r: int)
    requires 0 <= t <= 1000
    ensures 0 <= r <= 1000
  {
    if n == 0 then t else NextTick(TickAfter(t, n - 1))
  }

  /** The counter runs through a cycle of 1001 values: `n` runs from 0 leave it at `n mod 1001`. */
  lemma {:induction false} TickCycle(n: nat)
    ensures TickAfter(0, n) == n % 1001
  {
    if n > 0 {
      TickCycle(n - 1);
      var q, r := (n - 1) / 1001, (n - 1) % 1001;
      assert n - 1 == 1001 * q + r && 0 <= r < 1001;
      assert TickAfter(0, n) == NextTick(r);
      if r < 1000 {
        RemainderOf(n, q, r + 1);
      } else {
        RemainderOf(n, q + 1, 0);
      }
    }
  }

  /** The remainder modulo 1001 is the one of any division with a remainder in range. */
  lemma RemainderOf(x: int, q: int, r: int)
    requires x == 1001 * q + r && 0 <= r < 1001
    ensures x % 1001 == r
  {
  }

  // ---------------------------------------------------------------------------
  // Extra jumps

  /** What the player is doing on one run. */
  datatype Motion = Motion(falling: bool, jumping: bool, onGround: bool)

  /**
    One run of the extra-jump block (while `stats.extraJumps > 0`): a mid-air
    jump uses one charge when one is left, and touching the ground refills the
    counter to `extra`.
   */
  function JumpStep(jumps: int, extra: int, m: Motion): (r: int)
    ensures m.onGround ==> r == extra
    ensures !m.onGround && m.falling && m.jumping && jumps > 0 ==> r == jumps - 1
    ensures !m.onGround && !(m.falling && m.jumping && jumps > 0) ==> r == jumps
  {
    var j := if m.falling && jumps > 0 && m.jumping then jumps - 1 else jumps;
    if m.onGround then extra else j
  }

  /** The counter never goes negative from a non-negative start. */
  lemma JumpsStayNonNegative(jumps: int, extra: int, m: Motion)
    requires jumps >= 0 && extra > 0
    ensures JumpStep(jumps, extra, m) >= 0
  {
  }

  function JumpRun(jumps: int, extra: int, ms: seq<Motion>): int
    decreases |ms|
  {
    if |ms| == 0 then jumps else JumpRun(JumpStep(jumps, extra, ms[0]), extra, ms[1..])
  }

  /** How many runs try a mid-air jump (falling and jumping). */
  function Attempts(ms: seq<Motion>): nat
  {
    if |ms| == 0 then 0 else (if ms[0].falling && ms[0].jumping then 1 else 0) + Attempts(ms[1..])
  }

  /**
    Between two groundings the counter only counts down: after any number of
    airborne runs it is the start value minus the jump attempts, but never
    below zero, so at most `jumps` extra jumps are granted.
   */
  lemma {:induction false} AirborneJumps(jumps: int, extra: int, ms: seq<Motion>)
    requires jumps >= 0
    requires forall i :: 0 <= i < |ms| ==> !ms[i].onGround
    ensures JumpRun(jumps, extra, ms) == if jumps >= Attempts(ms) then jumps - Attempts(ms) else 0
  {
    if |ms| > 0 {
      AirborneJumps(JumpStep(jumps, extra, ms[0]), extra, ms[1..]);
    }
  }

  // ---------------------------------------------------------------------------
  // Passive effects

  /**
    What `applyPassiveEffects` leaves on the player: every stored passive that
    the host accepts is (re)applied for 240 ticks with amplifier `level - 1`;
    one the host rejects (it throws) is skipped and the rest still go on.
   */
  function Applied(effects: map<string, Effect>, passives: map<string, int>, rejected: set<string>): (r: map<string, Effect>)
    ensures forall e :: e in passives && e !in rejected ==> e in r && r[e] == Effect(passives[e] - 1, 240)
    ensures forall e :: (e !in passives || e in rejected) ==> (e in r <==> e in effects) && (e in effects ==> r[e] == effects[e])
  {
    map e | e in effects.Keys + (passives.Keys - rejected) ::
      if e in passives && e !in rejected then Effect(passives[e] - 1, 240) else effects[e]
  }

  /** The passive levels as stored; anything but an object of numbers applies nothing. */
  function StoredPassives(props: map<string, Json>): map<string, int>
  {
    match GetStatCategory(props, "passives")
    case Obj(fields) => fields
    case Arr(_) => map[]
  }

  /** `applyPassiveEffects`: one `addEffect` per stored passive, each in its own try/catch. */
  method ApplyPassiveEffects(player: Player, rejected: set<string>)
    modifies player`effects
    ensures player.effects == Applied(old(player.effects), StoredPassives(player.props), rejected)
  {
    var passives := StoredPassives(player.props);
    var todo := passives.Keys;
    ghost var start := player.effects;
    ghost var done: set<string> := {};
    while todo != {}
      invariant todo !! done && todo + done == passives.Keys
      invariant player.effects.Keys == start.Keys + (done - rejected)
      invariant forall e :: e in player.effects ==>
        player.effects[e] == if e in done && e !in rejected then Effect(passives[e] - 1, 240) else start[e]
      decreases todo
    {
      var name :| name in todo;
      if name !in rejected {
        player.effects := player.effects[name := Effect(passives[name] - 1, 240)];
      }
      todo := todo - {name};
      done := done + {name};
    }
  }

  /** `stats?.extraJumps`, with a missing value read as 0 (so `> 0` fails alike). */
  function ExtraJumps(props: map<string, Json>): int
  {
    var stats := GetStatCategory(props, "stats");
    if stats.Obj? && "extraJumps" in stats.fields then stats.fields["extraJumps"] else 0
  }

  /** The counter after the extra-jump block: one jump step when `extraJumps > 0`, untouched otherwise. */
  function JumpsAfter(jumps: int, props: map<string, Json>, motion: Motion): int
  {
    if ExtraJumps(props) > 0 then JumpStep(jumps, ExtraJumps(props), motion) else jumps
  }

  /** The extra-jump block of the interval. */
  method UpdateJumps(player: Player, motion: Motion)
    modifies player`jumps
    ensures player.jumps == JumpsAfter(old(player.jumps), player.props, motion)
  {
    var extra := ExtraJumps(player.props);
    if extra > 0 {
      var jumps := player.jumps;
      if motion.falling && jumps > 0 && motion.jumping {
        jumps := jumps - 1;
      }
      if motion.onGround {
        jumps := extra;
      }
      player.jumps := jumps;
    }
  }

  // ---------------------------------------------------------------------------
  // The effect-add immunity check

  /**
    The `effectAdd` handler: the add is cancelled when the entity is a player
    whose stored immunities (an array) hold a name that occurs in the effect
    type, compared case-sensitively. A stored object has no `forEach`, so the
    handler throws before cancelling anything.
   */
  method EffectAddCancelled(isPlayer: bool, props: map<string, Json>, effectType: string) returns (cancel: bool)
    ensures cancel <==> (isPlayer && GetStatCategory(props, "immunities").Arr? &&
      exists i :: 0 <= i < |GetStatCategory(props, "immunities").items| &&
        Contains(effectType, GetStatCategory(props, "immunities").items[i]))
  {
    cancel := false;
    if !isPlayer {
      return;
    }
    var immunities := GetStatCategory(props, "immunities");
    if immunities.Obj? {
      return;
    }
    var items := immunities.items;
    for k := 0 to |items|
      invariant cancel <==> exists i :: 0 <= i < k && Contains(effectType, items[i])
    {
      if Contains(effectType, items[k]) {
        cancel := true;
      }
    }
  }

  /** A stored immunity cancels its effect whether or not the type carries a namespace. */
  lemma ImmunityCancelsNamedEffect(props: map<string, Json>, namespace: string, name: string)
    requires GetStatCategory(props, "immunities").Arr? && name in GetStatCategory(props, "immunities").items
    ensures exists i :: (0 <= i < |GetStatCategory(props, "immunities").items| &&
      Contains(namespace + name, GetStatCategory(props, "immunities").items[i]))
  {
    var items := GetStatCategory(props, "immunities").items;
    var i :| 0 <= i < |items| && items[i] == name;
    ContainsSuffix(namespace, name);
  }

  // ---------------------------------------------------------------------------
  // The interval

  /**
    What the signature block of one run leaves behind: on every 20th tick the
    stored signature is replaced and the stat sheet recomputed exactly when the
    signature of `equipment` and `tags` differs from the stored one, and passives are refreshed;
    on other ticks nothing changes.
   */
  ghost predicate SignatureBlock(tick: int, previous0: map<string, string>, previous: map<string, string>,
                                 props0: map<string, Json>, props: map<string, Json>,
                                 effects0: map<string, Effect>, effects: map<string, Effect>,
                                 equipment: map<string, string>, tags: seq<string>, id: string,
                                 data: map<string, Entry>, rejected: set<string>)
  {
    if tick % 20 == 0 then
      var current := EquipmentAndTagsString(equipment, tags);
      var sheet := Resolve(tags, data);
      var changed := id !in previous0 || previous0[id] != current;
      && (changed ==> previous == previous0[id := current] && props == SaveStats(props0, sheet))
      && (!changed ==> previous == previous0 && props == props0)
      && effects == Applied(effects0, StoredPassives(props), rejected)
    else
      previous == previous0 && props == props0 && effects == effects0
  }

  /**
    The module's global state: `previousEquipmentMap`, the ids with a running
    interval (`intervalMap`), and each interval's own `tick` variable.
   */
  class Tracker {
    var previous: map<string, string>
    var intervals: set<string>
    var ticks: map<string, int>

    ghost predicate Valid()
      reads this
    {
      && ticks.Keys == intervals
      && (forall id :: id in ticks ==> 0 <= ticks[id] <= 1000)
    }

    constructor ()
      ensures Valid()
      ensures previous == map[] && intervals == {} && ticks == map[]
    {
      previous := map[];
      intervals := {};
      ticks := map[];
    }

    /** `updateData`: start an interval for a player that has none, recording its current signature. */
    method UpdateData(id: string, signature: string)
      requires Valid()
      modifies this
      ensures Valid()
      ensures old(id in intervals) ==> previous == old(previous) && intervals == old(intervals) && ticks == old(ticks)
      ensures old(id !in intervals) ==>
        && previous == old(previous)[id := signature]
        && intervals == old(intervals) + {id}
        && ticks == old(ticks)[id := 0]
    {
      if id in intervals {
        return;
      }
      previous := previous[id := signature];
      ticks := ticks[id := 0];
      intervals := intervals + {id};
    }

    /**
      The block that runs on every 20th tick: the stored signature is replaced
      and the stat sheet recomputed only when the signature changed; passives
      are refreshed either way.
     */
    method CheckSignature(player: Player, equipment: map<string, string>, data: map<string, Entry>, rejected: set<string>)
      modifies this`previous, player`props, player`effects
      ensures var current := EquipmentAndTagsString(equipment, player.tags);
        var changed := player.id !in old(previous) || old(previous[player.id]) != current;
        && (changed ==> previous == old(previous)[player.id := current] &&
                        player.props == SaveStats(old(player.props), Resolve(player.tags, data)))
        && (!changed ==> previous == old(previous) && player.props == old(player.props))
        && player.effects == Applied(old(player.effects), StoredPassives(player.props), rejected)
    {
      var id := player.id;
      var current := EquipmentAndTagsString(equipment, player.tags);
      if id !in previous || previous[id] != current {
        previous := previous[id := current];
        UpdatePlayerStats(player, data);
      }
      ApplyPassiveEffects(player, rejected);
    }

    /** The signature block, which runs only when `tick` is a multiple of 20. */
    method MaybeCheckSignature(player: Player, tick: int, equipment: map<string, string>, data: map<string, Entry>, rejected: set<string>)
      modifies this`previous, player`props, player`effects
      ensures SignatureBlock(tick, old(previous), previous, old(player.props), player.props,
                             old(player.effects), player.effects, equipment, player.tags,
                             player.id, data, rejected)
    {
      if tick % 20 == 0 {
        CheckSignature(player, equipment, data, rejected);
      }
    }

    /**
      One run of a player's interval: `trinketTick` first, then the signature
      block on every 20th tick, reading the tags and effects the trinket tick
      left (`ticked` names those effects), then the extra-jump block, and the
      tick counter advances. A player that is no longer valid is left alone
      and its counter does not move. `proxy` is the player's inventory entity
      and `next` the one the trinket tick leaves.
     */
    method Run(player: Player, valid: bool, equipment: map<string, string>, data: map<string, Entry>,
               motion: Motion, rejected: set<string>,
               proxy: TrinketsInv.Proxy?, size: nat, condOk: set<string>)
      returns (next: TrinketsInv.Proxy?, ghost ticked: map<string, Effect>)
      requires Valid() && player.id in intervals
      requires player.Valid() && TrinketsInv.KnownSlots(data) && size >= SlotCount
      requires proxy != null ==> proxy.container.Length >= SlotCount
      modifies this`previous, this`ticks, player`props, player`effects, player`jumps
      modifies player`tags, player`freeSlots, player`received, player`dropped
      modifies if proxy == null then {} else {proxy, proxy.container}
      ensures Valid() && player.Valid()
      ensures !valid ==> (previous == old(previous) && ticks == old(ticks) &&
        player.props == old(player.props) && player.effects == old(player.effects) && player.jumps == old(player.jumps) &&
        player.tags == old(player.tags) && player.Given() == old(player.Given()) && next == proxy)
      ensures valid ==> (next == null <==> player.hand.None? || player.hand.value.typeId != TrinketsInv.Scroll)
      ensures valid && (next == null || proxy == null) ==>
        player.tags == old(player.tags) && ticked == old(player.effects) && player.Given() == old(player.Given())
      ensures valid && next != null && proxy != null && player.hasInventory ==>
        && next == proxy
        && (forall k :: 0 <= k < SlotCount ==> TrinketsInv.Placed(data, condOk, next.container[k], k))
        && (forall k :: 0 <= k < SlotCount && next.container[k].Some? ==> next.container[k].value in player.tags)
      ensures valid ==> ticks == old(ticks)[player.id := NextTick(old(ticks[player.id]))]
      ensures valid ==> SignatureBlock(old(ticks[player.id]), old(previous), previous, old(player.props), player.props,
                                       ticked, player.effects, equipment, player.tags,
                                       player.id, data, rejected)
      ensures valid ==> player.jumps == JumpsAfter(old(player.jumps), player.props, motion)
    {
      ticked := player.effects;
      if !valid {
        return proxy, ticked;
      }
      next := TrinketsInv.TrinketTick(player, proxy, size, data, condOk);
      ticked := player.effects;
      assert ticks == old(ticks) && previous == old(previous);
      assert player.props == old(player.props) && player.jumps == old(player.jumps);
      Interval(player, equipment, data, motion, rejected);
    }

    /** What a run does after `trinketTick`: the signature block, the extra-jump block and the tick. */
    method Interval(player: Player, equipment: map<string, string>, data: map<string, Entry>,
                    motion: Motion, rejected: set<string>)
      requires Valid() && player.id in intervals
      modifies this`previous, this`ticks, player`props, player`effects, player`jumps
      ensures Valid()
      ensures ticks == old(ticks)[player.id := NextTick(old(ticks[player.id]))]
      ensures SignatureBlock(old(ticks[player.id]), old(previous), previous, old(player.props), player.props,
                             old(player.effects), player.effects, equipment, player.tags,
                             player.id, data, rejected)
      ensures player.jumps == JumpsAfter(old(player.jumps), player.props, motion)
    {
      var id := player.id;
      var tick := ticks[id];
      MaybeCheckSignature(player, tick, equipment, data, rejected);
      UpdateJumps(player, motion);
      tick := tick + 1;
      if tick > 1000 {
        tick := 0;
      }
      ticks := ticks[id := tick];
    }
  }
}
