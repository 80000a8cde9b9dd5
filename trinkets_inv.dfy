/**
  The trinket inventory (BP/scripts/Core/trinkets_inv.js). While a player holds
  the scroll, a proxy entity carries a thirteen-slot container that mirrors the
  trinkets the player wears; worn trinkets are recorded as tags on the player.
  The proxy container is an array of optional item ids, indexed by slot.
 */
module TrinketsInv {
  import opened Wrappers
  import opened Strings
  import opened Host
  import opened Config
  import StatsManager

  /** `entry?.trinket` is truthy: the id is registered and names a slot. */
  predicate IsTrinket(data: map<string, Entry>, id: string)
  {
    id in data && data[id].trinket != ""
  }

  /** An item that may stay in the trinket inventory: a registered trinket whose condition passes. */
  predicate Admissible(data: map<string, Entry>, condOk: set<string>, id: string)
  {
    IsTrinket(data, id) && PassesCondition(data[id], id, condOk)
  }

  /** Every slot name used by a registration is one of the thirteen slots. */
  predicate KnownSlots(data: map<string, Entry>)
  {
    forall id :: id in data && data[id].trinket != "" ==> data[id].trinket in SlotNames
  }

  /** `slots[entry.trinket]`: the slot a trinket belongs in. */
  function Home(data: map<string, Entry>, id: string): (r: nat)
    requires KnownSlots(data) && IsTrinket(data, id)
    ensures r < SlotCount && SlotNames[r] == data[id].trinket
  {
    SlotIndex(data[id].trinket).value
  }

  /** The tag `t` claims slot `i`: it is a trinket whose slot name has index `i`. */
  predicate Claims(data: map<string, Entry>, t: string, i: nat)
  {
    IsTrinket(data, t) && i < SlotCount && data[t].trinket == SlotNames[i]
  }

  // ---------------------------------------------------------------- effects

  /** `typeId.replace("minecraft:", "")`: the first occurrence of the namespace is dropped. */
  function EffectName(typeId: string): string
  {
    ReplaceFirst(typeId, "minecraft:", "")
  }

  /** `immunities.some(im => im.toLowerCase() === effectName.toLowerCase())`. */
  predicate ImmuneTo(immunities: seq<string>, typeId: string)
  {
    exists k :: 0 <= k < |immunities| && EqualsIgnoringCase(immunities[k], EffectName(typeId))
  }

  /** The effects that survive a clearing pass against `immunities`. */
  function WithoutImmune(effects: map<string, Effect>, immunities: seq<string>): map<string, Effect>
  {
    map e | e in effects && !ImmuneTo(immunities, e) :: effects[e]
  }

  /**
    Clearing removes exactly the effects an immunity names, keeps the others
    unchanged, and a second pass changes nothing.
   */
  lemma WithoutImmuneMeaning(effects: map<string, Effect>, immunities: seq<string>)
    ensures forall e :: e in WithoutImmune(effects, immunities) <==> e in effects && !ImmuneTo(immunities, e)
    ensures forall e :: e in WithoutImmune(effects, immunities) ==> WithoutImmune(effects, immunities)[e] == effects[e]
    ensures WithoutImmune(WithoutImmune(effects, immunities), immunities) == WithoutImmune(effects, immunities)
  {
  }

  /** An immunity written without namespace and in any case matches the vanilla effect `minecraft:<name>`. */
  lemma NamespacedEffectIsCleared(effects: map<string, Effect>, immunities: seq<string>, k: nat, name: string)
    requires k < |immunities| && EqualsIgnoringCase(immunities[k], name)
    requires "minecraft:" + name in effects
    ensures "minecraft:" + name !in WithoutImmune(effects, immunities)
  {
    var typeId := "minecraft:" + name;
    assert HasPrefix(typeId, "minecraft:");
    assert typeId[|"minecraft:"|..] == name;
    assert EffectName(typeId) == name;
  }

  /** The stored immunities as `clearGlobalImmuneEffects` reads them: None unless they are an array. */
  function StoredImmunities(props: map<string, Json>): (r: Option<seq<string>>)
    ensures r.Some? <==> StatsManager.GetStatCategory(props, "immunities").Arr?
  {
    match StatsManager.GetStatCategory(props, "immunities")
    case Arr(items) => Some(items)
    case Obj(_) => None
  }

  /** The effects left after `clearGlobalImmuneEffects`. */
  function ClearedGlobal(effects: map<string, Effect>, props: map<string, Json>): map<string, Effect>
  {
    match StoredImmunities(props)
    case Some(imm) => WithoutImmune(effects, imm)
    case None => effects
  }

  /** The effects after the slot loop: cleared of the stored immunities once any admissible item was `found`. */
  function EffectsAfterScan(effects: map<string, Effect>, props: map<string, Json>, found: set<string>): map<string, Effect>
  {
    if found == {} then effects else ClearedGlobal(effects, props)
  }

  /** The effects left after `clearTrinketImmuneEffects` for one entry. */
  function ClearedFor(effects: map<string, Effect>, e: Entry): map<string, Effect>
  {
    match e.immunities
    case Some(imm) => WithoutImmune(effects, imm)
    case None => effects
  }

  /** Clearing against the stored immunities twice is clearing once. */
  lemma ClearedGlobalIdempotent(effects: map<string, Effect>, props: map<string, Json>)
    ensures ClearedGlobal(ClearedGlobal(effects, props), props) == ClearedGlobal(effects, props)
    ensures forall e :: e in ClearedGlobal(effects, props) ==> e in effects
  {
    if StoredImmunities(props).Some? {
      WithoutImmuneMeaning(effects, StoredImmunities(props).value);
    }
  }

  /** The loop over `getEffects()` that removes every effect an immunity names. */
  method ClearImmuneEffects(player: Player, immunities: seq<string>)
    modifies player`effects
    ensures player.effects == WithoutImmune(old(player.effects), immunities)
  {
    ghost var effects0 := player.effects;
    var todo := player.effects.Keys;
    while todo != {}
      invariant todo <= effects0.Keys
      invariant forall e :: e in player.effects <==> e in effects0 && (e in todo || !ImmuneTo(immunities, e))
      invariant forall e :: e in player.effects ==> player.effects[e] == effects0[e]
      decreases todo
    {
      var e :| e in todo;
      if ImmuneTo(immunities, e) {
        player.effects := player.effects - {e};
      }
      todo := todo - {e};
    }
    assert player.effects == WithoutImmune(effects0, immunities);
  }

  /** `clearGlobalImmuneEffects`: clear against the immunities stored on the player, when they are an array. */
  method ClearGlobalImmuneEffects(player: Player)
    modifies player`effects
    ensures player.effects == ClearedGlobal(old(player.effects), player.props)
  {
    var immunities := StatsManager.GetStatCategory(player.props, "immunities");
    if immunities.Arr? {
      ClearImmuneEffects(player, immunities.items);
    }
  }

  /** `clearTrinketImmuneEffects`: clear against one entry's immunities, when they are an array. */
  method ClearTrinketImmuneEffects(player: Player, e: Entry)
    modifies player`effects
    ensures player.effects == ClearedFor(old(player.effects), e)
  {
    if e.immunities.Some? {
      ClearImmuneEffects(player, e.immunities.value);
    }
  }

  // ---------------------------------------------------------------- loading the proxy

  /** The last tag of `tags` that claims slot `i`: the one `loadEntityInv` leaves there. */
  function LastClaimant(tags: seq<string>, data: map<string, Entry>, i: nat): Option<string>
  {
    if |tags| == 0 then None
    else if Claims(data, tags[|tags| - 1], i) then Some(tags[|tags| - 1])
    else LastClaimant(tags[..|tags| - 1], data, i)
  }

  /**
    A slot is filled exactly when some tag claims it, and then with the last
    tag that does.
   */
  lemma {:induction false} LastClaimantMeaning(tags: seq<string>, data: map<string, Entry>, i: nat)
    ensures LastClaimant(tags, data, i).None? <==> forall k :: 0 <= k < |tags| ==> !Claims(data, tags[k], i)
    ensures LastClaimant(tags, data, i).Some? ==>
      exists k :: 0 <= k < |tags| && tags[k] == LastClaimant(tags, data, i).value && Claims(data, tags[k], i) &&
        forall j :: k < j < |tags| ==> !Claims(data, tags[j], i)
  {
    if |tags| > 0 {
      var n := |tags| - 1;
      var pre := tags[..n];
      LastClaimantMeaning(pre, data, i);
      if !Claims(data, tags[n], i) {
        assert forall k :: 0 <= k < n ==> tags[k] == pre[k];
        if LastClaimant(pre, data, i).Some? {
          var k :| 0 <= k < |pre| && pre[k] == LastClaimant(pre, data, i).value && Claims(data, pre[k], i) &&
            forall j :: k < j < |pre| ==> !Claims(data, pre[j], i);
          assert tags[k] == pre[k];
        }
      }
    }
  }

  /** What slot `i` holds after loading: the last tag claiming it, or what it held before. */
  function Loaded(tags: seq<string>, data: map<string, Entry>, i: nat, before: Option<string>): Option<string>
  {
    if LastClaimant(tags, data, i).Some? then LastClaimant(tags, data, i) else before
  }

  /** Only slot indices 0..12 are ever claimed, so the rest of the container is left alone. */
  lemma {:induction false} LastClaimantInRange(tags: seq<string>, data: map<string, Entry>, i: nat)
    ensures LastClaimant(tags, data, i).Some? ==> i < SlotCount
  {
    if |tags| > 0 {
      LastClaimantInRange(tags[..|tags| - 1], data, i);
    }
  }

  /**
    `loadEntityInv`: each trinket tag of the player is put into its slot of the
    proxy container; a tag naming an unknown slot is skipped, and when two tags
    claim one slot the later one wins.
   */
  method LoadEntityInv(tags: seq<string>, container: array?<Option<string>>, data: map<string, Entry>)
    requires container != null ==> container.Length >= SlotCount
    modifies container
    ensures container != null ==>
      forall i :: 0 <= i < container.Length ==> container[i] == Loaded(tags, data, i, old(container[i]))
  {
    if container == null {
      return;
    }
    for k := 0 to |tags|
      invariant forall i :: 0 <= i < container.Length ==>
        container[i] == Loaded(tags[..k], data, i, old(container[i]))
    {
      var tag := tags[k];
      ClaimedSlot(data, tag);
      LoadStep(tags, k, data);
      if tag !in data || data[tag].trinket == "" {
        continue;
      }
      var index := SlotIndex(data[tag].trinket);
      if index.None? {
        continue;
      }
      container[index.value] := Some(tag);
    }
    assert tags[..|tags|] == tags;
  }

  /** A tag claims at most one slot: the index of its slot name, if it has one. */
  lemma ClaimedSlot(data: map<string, Entry>, t: string)
    ensures forall i: nat :: Claims(data, t, i) <==> IsTrinket(data, t) && SlotIndex(data[t].trinket) == Some(i)
  {
    forall i: nat | Claims(data, t, i) ensures SlotIndex(data[t].trinket) == Some(i) {
      SlotTableIsBijective();
      assert SlotIndex(SlotNames[i]) == Some(i);
    }
  }

  lemma LoadStep(tags: seq<string>, k: nat, data: map<string, Entry>)
    requires k < |tags|
    ensures forall i :: (LastClaimant(tags[..k + 1], data, i) ==
      if Claims(data, tags[k], i) then Some(tags[k]) else LastClaimant(tags[..k], data, i))
  {
    assert tags[..k + 1][..k] == tags[..k];
  }

  // ---------------------------------------------------------------- validating the proxy

  function ItemOf(o: Option<string>): multiset<string>
  {
    if o.Some? then multiset{o.value} else multiset{}
  }

  /** The items in a container, as a bag of ids. */
  function Items(c: seq<Option<string>>): multiset<string>
  {
    if |c| == 0 then multiset{} else Items(c[..|c| - 1]) + ItemOf(c[|c| - 1])
  }

  lemma BagReorder(a: multiset<string>, p: multiset<string>, y: multiset<string>, z: multiset<string>, w: multiset<string>)
    requires a + y == p + z
    ensures a + w + y == p + w + z
  {
    assert a + w + y == (a + y) + w;
  }

  /** Overwriting one slot takes its old item out of the bag and puts the new one in. */
  lemma {:induction false} ItemsUpdate(c: seq<Option<string>>, i: nat, x: Option<string>)
    requires i < |c|
    ensures Items(c[i := x]) + ItemOf(c[i]) == Items(c) + ItemOf(x)
  {
    var n := |c| - 1;
    var d := c[i := x];
    if i == n {
      assert d[..n] == c[..n];
      assert Items(d) == Items(c[..n]) + ItemOf(x);
      assert Items(c) == Items(c[..n]) + ItemOf(c[n]);
    } else {
      var c0 := c[..n];
      var d0 := c0[i := x];
      assert d[..n] == d0;
      assert c0[i] == c[i];
      ItemsUpdate(c0, i, x);
      assert Items(d) == Items(d0) + ItemOf(c[n]) by {
        assert d[n] == c[n];
      }
      assert Items(c) == Items(c0) + ItemOf(c[n]);
      BagReorder(Items(d0), Items(c0), ItemOf(c[i]), ItemOf(x), ItemOf(c[n]));
    }
  }

  /** Slot `i` holds nothing, or an admissible trinket that belongs in slot `i`. */
  predicate Placed(data: map<string, Entry>, condOk: set<string>, o: Option<string>, i: nat)
  {
    o.None? || (Admissible(data, condOk, o.value) && i < SlotCount && data[o.value].trinket == SlotNames[i])
  }

  /** `expectedTags` after the first `n` slots: the admissible items found in them. */
  function Found(c: seq<Option<string>>, data: map<string, Entry>, condOk: set<string>, n: nat): set<string>
    requires n <= |c|
  {
    set k | 0 <= k < n && c[k].Some? && Admissible(data, condOk, c[k].value) :: c[k].value
  }

  lemma FoundStep(c: seq<Option<string>>, data: map<string, Entry>, condOk: set<string>, n: nat)
    requires n < |c|
    ensures Found(c, data, condOk, n + 1) ==
      Found(c, data, condOk, n) + (if c[n].Some? && Admissible(data, condOk, c[n].value) then {c[n].value} else {})
  {
  }

  /** The found items are exactly the admissible ones in the first `n` slots. */
  lemma FoundMeaning(c: seq<Option<string>>, data: map<string, Entry>, condOk: set<string>, n: nat, id: string)
    requires n <= |c|
    ensures id in Found(c, data, condOk, n) <==> Admissible(data, condOk, id) && exists k :: 0 <= k < n && c[k] == Some(id)
  {
  }

  /**
    What one iteration of the slot loop does to the container `c` (giving `d`)
    and which item it counts as expected.
   */
  ghost predicate SlotStep(data: map<string, Entry>, condOk: set<string>,
                           c: seq<Option<string>>, d: seq<Option<string>>, i: nat, found: Option<string>)
  {
    && KnownSlots(data) && i < SlotCount <= |c|
    && (c[i].None? ==> found.None? && d == c)
    && (c[i].Some? && !Admissible(data, condOk, c[i].value) ==> found.None? && d == c[i := None])
    && (c[i].Some? && Admissible(data, condOk, c[i].value) ==>
          var id := c[i].value;
          var home := Home(data, id);
          && found == Some(id)
          && (home == i ==> d == c)
          && (home != i && c[home].None? ==> d == c[home := Some(id)][i := None])
          && (home != i && c[home].Some? ==> d == c[i := None]))
  }

  /**
    The container half of the slot loop's state before slot `i`, against the
    container `c0` it started from: the slots already visited are placed, the
    later ones are as they were or have received an expected item, and items
    already in their own slot have not moved.
   */
  ghost predicate Slots(data: map<string, Entry>, condOk: set<string>,
                        c0: seq<Option<string>>, c: seq<Option<string>>, i: nat, expected: set<string>)
  {
    && |c| == |c0| && SlotCount <= |c0| && i <= SlotCount
    && (forall j :: SlotCount <= j < |c| ==> c[j] == c0[j])
    && (forall k :: 0 <= k < i ==> Placed(data, condOk, c[k], k))
    && (forall k :: 0 <= k < i && c[k].Some? ==> c[k].value in expected)
    && (forall j :: i <= j < SlotCount ==>
          c[j] == c0[j] || (c0[j].None? && c[j].Some? && Placed(data, condOk, c[j], j) && c[j].value in expected))
    && (forall k :: 0 <= k < SlotCount && c0[k].Some? && Placed(data, condOk, c0[k], k) ==> c[k] == c0[k])
  }

  /** The slot loop's state: the container half, and `expected` holds the admissible items found so far. */
  ghost predicate ScanInv(data: map<string, Entry>, condOk: set<string>,
                          c0: seq<Option<string>>, c: seq<Option<string>>, i: nat, expected: set<string>)
  {
    Slots(data, condOk, c0, c, i, expected) && expected == Found(c0, data, condOk, i)
  }

  /** One iteration keeps the loop state. */
  lemma ScanStep(data: map<string, Entry>, condOk: set<string>, c0: seq<Option<string>>,
                 c: seq<Option<string>>, d: seq<Option<string>>, i: nat, expected: set<string>, found: Option<string>)
    requires i < SlotCount
    requires ScanInv(data, condOk, c0, c, i, expected)
    requires SlotStep(data, condOk, c, d, i, found)
    ensures ScanInv(data, condOk, c0, d, i + 1, if found.Some? then expected + {found.value} else expected)
  {
    var e := if found.Some? then expected + {found.value} else expected;
    FoundStep(c0, data, condOk, i);
    if c[i].None? {
      SlotsKeep(data, condOk, c0, c, i, expected, e);
    } else if !Admissible(data, condOk, c[i].value) {
      SlotsClear(data, condOk, c0, c, i, expected, e);
    } else {
      var id := c[i].value;
      var home := Home(data, id);
      assert Placed(data, condOk, Some(id), home);
      if home == i {
        SlotsKeep(data, condOk, c0, c, i, expected, e);
      } else {
        if c0[i].Some? && Placed(data, condOk, c0[i], i) {
          SlotNamesDistinct();
          assert false;
        }
        if c[home].None? {
          SlotsMove(data, condOk, c0, c, i, home, id, expected, e);
        } else {
          SlotsClear(data, condOk, c0, c, i, expected, e);
        }
      }
    }
  }

  /** Slot `i` is left as it is and already placed. */
  lemma SlotsKeep(data: map<string, Entry>, condOk: set<string>, c0: seq<Option<string>>,
                  c: seq<Option<string>>, i: nat, expected: set<string>, e: set<string>)
    requires i < SlotCount && Slots(data, condOk, c0, c, i, expected) && expected <= e
    requires Placed(data, condOk, c[i], i) && (c[i].Some? ==> c[i].value in e)
    ensures Slots(data, condOk, c0, c, i + 1, e)
  {
  }

  /** Slot `i` is emptied; it did not hold an item already in its own slot. */
  lemma SlotsClear(data: map<string, Entry>, condOk: set<string>, c0: seq<Option<string>>,
                   c: seq<Option<string>>, i: nat, expected: set<string>, e: set<string>)
    requires i < SlotCount && Slots(data, condOk, c0, c, i, expected) && expected <= e
    requires !(c0[i].Some? && Placed(data, condOk, c0[i], i))
    ensures Slots(data, condOk, c0, c[i := None], i + 1, e)
  {
  }

  /** The item in slot `i` moves to its empty slot `home`; slot `i` did not hold an item already in its own slot. */
  lemma SlotsMove(data: map<string, Entry>, condOk: set<string>, c0: seq<Option<string>>,
                  c: seq<Option<string>>, i: nat, home: nat, id: string, expected: set<string>, e: set<string>)
    requires i < SlotCount && home < SlotCount && home != i
    requires Slots(data, condOk, c0, c, i, expected) && expected <= e && id in e
    requires c[home].None? && Placed(data, condOk, Some(id), home)
    requires !(c0[i].Some? && Placed(data, condOk, c0[i], i))
    ensures Slots(data, condOk, c0, c[home := Some(id)][i := None], i + 1, e)
  {
  }

  /**
    One iteration of the slot loop of `validateTrinketSlots`, for slot `i`.
    An item that is not an admissible trinket is taken out and given back.
    An admissible one is counted as expected; when it sits in another slot it
    moves to its own slot if that is empty, and is otherwise taken out and
    given back; either way the stored immunities are cleared and its tag is
    added when the tag snapshot lacks it.
   */
  method VisitSlot(player: Player, container: array<Option<string>>, i: nat,
                   data: map<string, Entry>, condOk: set<string>, currentTags: seq<string>)
    returns (found: Option<string>)
    requires player.Valid() && KnownSlots(data)
    requires i < SlotCount <= container.Length
    modifies container, player`tags, player`effects, player`freeSlots, player`received, player`dropped
    ensures player.Valid()
    ensures Items(container[..]) + player.Given() == old(Items(container[..]) + player.Given())
    ensures SlotStep(data, condOk, old(container[..]), container[..], i, found)
    ensures found.None? ==> player.tags == old(player.tags) && player.effects == old(player.effects)
    ensures found.Some? ==>
      && player.effects == ClearedGlobal(old(player.effects), player.props)
      && player.tags == (if found.value in currentTags || found.value in old(player.tags) then old(player.tags) else old(player.tags) + [found.value])
  {
    ghost var c := container[..];
    var item := container[i];
    if item.None? {
      PassIsStep(data, condOk, c, i);
      return None;
    }
    var id := item.value;
    if id !in data || data[id].trinket == "" || !PassesCondition(data[id], id, condOk) {
      TakeOut(player, container, i);
      RejectIsStep(data, condOk, c, container[..], i);
      return None;
    }
    found := Admit(player, container, i, data, condOk, currentTags);
  }

  lemma PassIsStep(data: map<string, Entry>, condOk: set<string>, c: seq<Option<string>>, i: nat)
    requires KnownSlots(data) && i < SlotCount <= |c| && c[i].None?
    ensures SlotStep(data, condOk, c, c, i, None)
  {
  }

  lemma RejectIsStep(data: map<string, Entry>, condOk: set<string>, c: seq<Option<string>>, d: seq<Option<string>>, i: nat)
    requires KnownSlots(data) && i < SlotCount <= |c|
    requires c[i].Some? && !Admissible(data, condOk, c[i].value) && d == c[i := None]
    ensures SlotStep(data, condOk, c, d, i, None)
  {
  }

  /** The admissible branch of `VisitSlot`, stated as a loop step. */
  method Admit(player: Player, container: array<Option<string>>, i: nat,
               data: map<string, Entry>, condOk: set<string>, currentTags: seq<string>)
    returns (found: Option<string>)
    requires player.Valid() && KnownSlots(data)
    requires i < SlotCount <= container.Length
    requires container[i].Some? && Admissible(data, condOk, container[i].value)
    modifies container, player`tags, player`effects, player`freeSlots, player`received, player`dropped
    ensures player.Valid()
    ensures found == old(container[i])
    ensures Items(container[..]) + player.Given() == old(Items(container[..]) + player.Given())
    ensures SlotStep(data, condOk, old(container[..]), container[..], i, found)
    ensures player.effects == ClearedGlobal(old(player.effects), player.props)
    ensures player.tags == (if found.value in currentTags || found.value in old(player.tags) then old(player.tags) else old(player.tags) + [found.value])
  {
    ghost var c := container[..];
    found := container[i];
    var home := Home(data, found.value);
    Keep(player, container, i, home, currentTags);
    ghost var d := container[..];
    assert home == i ==> d == c;
    assert home != i && c[home].None? ==> d == c[home := c[i]][i := None];
    assert home != i && c[home].Some? ==> d == c[i := None];
    KeepIsStep(data, condOk, c, d, i);
  }

  lemma KeepIsStep(data: map<string, Entry>, condOk: set<string>, c: seq<Option<string>>, d: seq<Option<string>>, i: nat)
    requires KnownSlots(data) && i < SlotCount <= |c|
    requires c[i].Some? && Admissible(data, condOk, c[i].value)
    requires var home := Home(data, c[i].value);
      && (home == i ==> d == c)
      && (home != i && c[home].None? ==> d == c[home := c[i]][i := None])
      && (home != i && c[home].Some? ==> d == c[i := None])
    ensures SlotStep(data, condOk, c, d, i, c[i])
  {
  }

  /** The admissible branch of one iteration: relocate the item, clear immune effects, add its tag. */
  method Keep(player: Player, container: array<Option<string>>, i: nat, home: nat, currentTags: seq<string>)
    requires player.Valid()
    requires i < container.Length && home < container.Length && container[i].Some?
    modifies container, player`tags, player`effects, player`freeSlots, player`received, player`dropped
    ensures player.Valid()
    ensures Items(container[..]) + player.Given() == old(Items(container[..]) + player.Given())
    ensures var id := old(container[i]).value;
      && player.effects == ClearedGlobal(old(player.effects), player.props)
      && player.tags == (if id in currentTags || id in old(player.tags) then old(player.tags) else old(player.tags) + [id])
      && (home == i ==> container[..] == old(container[..]))
      && (home != i && old(container[home]).None? ==> container[..] == old(container[..])[home := old(container[i])][i := None])
      && (home != i && old(container[home]).Some? ==> container[..] == old(container[..])[i := None])
  {
    var id := container[i].value;
    Relocate(player, container, i, home);
    ClearGlobalImmuneEffects(player);
    if id !in currentTags {
      player.AddTag(id);
    }
  }

  /**
    An item found in slot `i` that belongs in slot `home`: it stays when the
    two agree, moves when its own slot is empty, and is otherwise taken out
    and given back.
   */
  method Relocate(player: Player, container: array<Option<string>>, i: nat, home: nat)
    requires i < container.Length && home < container.Length && container[i].Some?
    modifies container, player`freeSlots, player`received, player`dropped
    ensures Items(container[..]) + player.Given() == old(Items(container[..]) + player.Given())
    ensures home == i ==> container[..] == old(container[..]) && player.Given() == old(player.Given())
    ensures home != i && old(container[home]).None? ==>
      container[..] == old(container[..])[home := old(container[i])][i := None] && player.Given() == old(player.Given())
    ensures home != i && old(container[home]).Some? ==>
      container[..] == old(container[..])[i := None]
  {
    if home != i {
      if container[home].None? {
        MoveItem(container, i, home);
      } else {
        TakeOut(player, container, i);
      }
    }
  }

  /** `container.setItem(index)` followed by giving the item back to the player. */
  method TakeOut(player: Player, container: array<Option<string>>, i: nat)
    requires i < container.Length && container[i].Some?
    modifies container, player`freeSlots, player`received, player`dropped
    ensures container[..] == old(container[..])[i := None]
    ensures player.Given() == old(player.Given()) + multiset{old(container[i]).value}
    ensures Items(container[..]) + player.Given() == old(Items(container[..]) + player.Given())
  {
    var item := container[i];
    ghost var c, g := container[..], player.Given();
    ItemsUpdate(c, i, None);
    container[i] := None;
    assert container[..] == c[i := None];
    player.GiveItem(item.value);
    BagShift(Items(c[i := None]), Items(c), g, ItemOf(c[i]));
  }

  /** Bag bookkeeping: what leaves one bag and enters another keeps the total. */
  lemma BagShift(a: multiset<string>, b: multiset<string>, g: multiset<string>, x: multiset<string>)
    requires a + x == b + multiset{}
    ensures a + (g + x) == b + g
  {
    assert forall y :: (a + x)[y] == b[y];
    assert forall y :: (a + (g + x))[y] == (b + g)[y];
  }

  /** Moving one copy of `x` from one part of a bag to another keeps the whole. */
  lemma BagMove(h: multiset<string>, g: multiset<string>, m: multiset<string>, x: string)
    requires x in m
    ensures h + (g + multiset{x}) + (m - multiset{x}) == h + g + m
  {
    forall y ensures (h + (g + multiset{x}) + (m - multiset{x}))[y] == (h + g + m)[y] {
    }
  }

  lemma BagSwap(a: multiset<string>, d: multiset<string>, c: multiset<string>, x: multiset<string>)
    requires a + x == d + multiset{}
    requires d + multiset{} == c + x
    ensures a == c
  {
    forall y ensures a[y] == c[y] {
      assert (a + x)[y] == (d + multiset{})[y] == (c + x)[y];
    }
  }

  /** `container.moveItem(from, to, container)` into an empty slot. */
  method MoveItem(container: array<Option<string>>, from: nat, to: nat)
    requires from < container.Length && to < container.Length && from != to
    requires container[to].None?
    modifies container
    ensures container[..] == old(container[..])[to := old(container[from])][from := None]
    ensures Items(container[..]) == old(Items(container[..]))
  {
    var item := container[from];
    ghost var c := container[..];
    ghost var d := c[to := item];
    ItemsUpdate(c, to, item);
    container[to] := item;
    assert container[..] == d;
    ItemsUpdate(d, from, None);
    container[from] := None;
    assert container[..] == d[from := None];
    assert d[from] == item && c[to] == None;
    BagSwap(Items(d[from := None]), Items(d), Items(c), ItemOf(item));
  }

  /** A tag the final loop removes: a trinket that was not found, or whose condition fails. */
  predicate Stale(data: map<string, Entry>, condOk: set<string>, expected: set<string>, t: string)
  {
    IsTrinket(data, t) && (t !in expected || !PassesCondition(data[t], t, condOk))
  }

  /** The final loop of `validateTrinketSlots` over the tag snapshot. */
  method DropStaleTags(player: Player, snapshot: seq<string>, expected: set<string>,
                       data: map<string, Entry>, condOk: set<string>)
    requires player.Valid()
    modifies player`tags
    ensures player.Valid()
    ensures forall t :: t in player.tags <==> t in old(player.tags) && !(t in snapshot && Stale(data, condOk, expected, t))
  {
    for k := 0 to |snapshot|
      invariant player.Valid()
      invariant forall t :: t in player.tags <==> t in old(player.tags) && !(t in snapshot[..k] && Stale(data, condOk, expected, t))
    {
      var tag := snapshot[k];
      assert snapshot[..k + 1] == snapshot[..k] + [tag];
      if tag !in data || data[tag].trinket == "" {
        continue;
      }
      var condition := PassesCondition(data[tag], tag, condOk);
      if tag !in expected || !condition {
        player.RemoveTag(tag);
      }
    }
    assert snapshot[..|snapshot|] == snapshot;
  }

  /**
    `validateTrinketSlots`. Afterwards every one of the thirteen slots is empty
    or holds an admissible trinket that belongs there; an item already in its
    own slot stays; no item is created or lost (what leaves the container is
    given to the player); the player's trinket tags are exactly the admissible
    items that were found, other tags are untouched; and the stored immunities
    have been cleared once any admissible item was found.
   */
  method ValidateTrinketSlots(player: Player, container: array?<Option<string>>,
                              data: map<string, Entry>, condOk: set<string>)
    requires player.Valid() && KnownSlots(data)
    requires container != null ==> container.Length >= SlotCount
    modifies container, player`tags, player`effects, player`freeSlots, player`received, player`dropped
    ensures player.Valid()
    ensures container == null || !player.hasInventory ==>
      && player.tags == old(player.tags) && player.effects == old(player.effects)
      && player.received == old(player.received) && player.dropped == old(player.dropped)
      && (container != null ==> container[..] == old(container[..]))
    ensures container != null && player.hasInventory ==>
      var found := Found(old(container[..]), data, condOk, SlotCount);
      && Settled(data, condOk, old(container[..]), container[..], found)
      && Items(container[..]) + player.Given() == old(Items(container[..]) + player.Given())
      && (forall t :: t in player.tags <==> t in found || (t in old(player.tags) && !IsTrinket(data, t)))
      && player.effects == EffectsAfterScan(old(player.effects), player.props, found)
  {
    if container == null || !player.hasInventory {
      return;
    }
    ValidateSlots(player, container, data, condOk);
  }

  /** The body of `validateTrinketSlots` once the container is there and the player has an inventory. */
  method ValidateSlots(player: Player, container: array<Option<string>>, data: map<string, Entry>, condOk: set<string>)
    requires player.Valid() && KnownSlots(data)
    requires container.Length >= SlotCount
    modifies container, player`tags, player`effects, player`freeSlots, player`received, player`dropped
    ensures player.Valid()
    ensures var found := Found(old(container[..]), data, condOk, SlotCount);
      && Settled(data, condOk, old(container[..]), container[..], found)
      && Items(container[..]) + player.Given() == old(Items(container[..]) + player.Given())
      && (forall t :: t in player.tags <==> t in found || (t in old(player.tags) && !IsTrinket(data, t)))
      && player.effects == EffectsAfterScan(old(player.effects), player.props, found)
  {
    ghost var c0 := container[..];
    var currentTags := player.tags;
    var expected := ScanSlots(player, container, data, condOk);
    ghost var c1, scanned, given := container[..], player.tags, player.Given();
    DropStaleTags(player, currentTags, expected, data, condOk);
    FinalTags(data, condOk, c0, currentTags, scanned, player.tags, expected);
    assert container[..] == c1 && player.Given() == given;
  }

  /**
    The container `c` after the slot loop, against the container `c0` it
    started from: each of the thirteen slots is empty or holds an admissible
    trinket that belongs there and is among the `found` items, an item that
    was already in its own slot is still there, and the slots past the
    thirteenth are as they were.
   */
  ghost predicate Settled(data: map<string, Entry>, condOk: set<string>,
                          c0: seq<Option<string>>, c: seq<Option<string>>, found: set<string>)
  {
    && |c| == |c0| >= SlotCount
    && (forall k :: 0 <= k < SlotCount ==> Placed(data, condOk, c[k], k))
    && (forall k :: 0 <= k < SlotCount && c[k].Some? ==> c[k].value in found)
    && (forall k :: 0 <= k < SlotCount && c0[k].Some? && Placed(data, condOk, c0[k], k) ==> c[k] == c0[k])
    && (forall j :: SlotCount <= j < |c| ==> c[j] == c0[j])
  }

  lemma SlotsSettled(data: map<string, Entry>, condOk: set<string>,
                     c0: seq<Option<string>>, c: seq<Option<string>>, expected: set<string>)
    requires ScanInv(data, condOk, c0, c, SlotCount, expected)
    ensures expected == Found(c0, data, condOk, SlotCount)
    ensures Settled(data, condOk, c0, c, expected)
  {
  }

  /** The slot loop of `validateTrinketSlots`; `expected` is its `expectedTags`. */
  method ScanSlots(player: Player, container: array<Option<string>>, data: map<string, Entry>, condOk: set<string>)
    returns (expected: set<string>)
    requires player.Valid() && KnownSlots(data)
    requires container.Length >= SlotCount
    modifies container, player`tags, player`effects, player`freeSlots, player`received, player`dropped
    ensures player.Valid()
    ensures expected == Found(old(container[..]), data, condOk, SlotCount)
    ensures Settled(data, condOk, old(container[..]), container[..], expected)
    ensures Items(container[..]) + player.Given() == old(Items(container[..]) + player.Given())
    ensures forall t :: t in player.tags <==> t in old(player.tags) || t in expected
    ensures player.effects == EffectsAfterScan(old(player.effects), player.props, expected)
  {
    ghost var c0 := container[..];
    ghost var tags0 := player.tags;
    ghost var effects0 := player.effects;
    ghost var total0 := Items(container[..]) + player.Given();
    var currentTags := player.tags;
    expected := {};
    for i := 0 to SlotCount
      invariant player.Valid()
      invariant ScanInv(data, condOk, c0, container[..], i, expected)
      invariant Items(container[..]) + player.Given() == total0
      invariant forall t :: t in player.tags <==> t in tags0 || t in expected
      invariant player.effects == EffectsAfterScan(effects0, player.props, expected)
    {
      expected := ScanOne(player, container, i, data, condOk, currentTags, c0, effects0, total0, expected);
    }
    SlotsSettled(data, condOk, c0, container[..], expected);
  }

  /** One pass of the slot loop, with the loop's invariant as its contract. */
  method ScanOne(player: Player, container: array<Option<string>>, i: nat, data: map<string, Entry>, condOk: set<string>,
                 currentTags: seq<string>, ghost c0: seq<Option<string>>,
                 ghost effects0: map<string, Effect>, ghost total0: multiset<string>, expected: set<string>)
    returns (next: set<string>)
    requires player.Valid() && KnownSlots(data)
    requires i < SlotCount <= container.Length
    requires ScanInv(data, condOk, c0, container[..], i, expected)
    requires Items(container[..]) + player.Given() == total0
    requires forall t :: t in player.tags <==> t in currentTags || t in expected
    requires player.effects == EffectsAfterScan(effects0, player.props, expected)
    modifies container, player`tags, player`effects, player`freeSlots, player`received, player`dropped
    ensures player.Valid()
    ensures ScanInv(data, condOk, c0, container[..], i + 1, next)
    ensures Items(container[..]) + player.Given() == total0
    ensures forall t :: t in player.tags <==> t in currentTags || t in next
    ensures player.effects == EffectsAfterScan(effects0, player.props, next)
  {
    ghost var c := container[..];
    ghost var tags1, effects1 := player.tags, player.effects;
    var found := VisitSlot(player, container, i, data, condOk, currentTags);
    ScanStep(data, condOk, c0, c, container[..], i, expected, found);
    EffectsStep(effects0, effects1, player.effects, player.props, expected, found);
    next := expected;
    if found.Some? {
      next := expected + {found.value};
      TagsGrow(currentTags, tags1, player.tags, expected, found.value);
    }
  }

  lemma EffectsStep(effects0: map<string, Effect>, before: map<string, Effect>, after: map<string, Effect>,
                    props: map<string, Json>, expected: set<string>, found: Option<string>)
    requires before == EffectsAfterScan(effects0, props, expected)
    requires found.None? ==> after == before
    requires found.Some? ==> after == ClearedGlobal(before, props)
    ensures after == EffectsAfterScan(effects0, props, if found.Some? then expected + {found.value} else expected)
  {
    ClearedGlobalIdempotent(effects0, props);
    if found.Some? {
      assert found.value in expected + {found.value};
    }
  }

  lemma TagsGrow(tags0: seq<string>, before: seq<string>, after: seq<string>, expected: set<string>, id: string)
    requires forall t :: t in before <==> t in tags0 || t in expected
    requires after == before || after == before + [id]
    requires id in after
    ensures forall t :: t in after <==> t in tags0 || t in expected + {id}
  {
  }

  /**
    The tags after both loops: the slot loop added the expected ids, the final
    loop removed the stale ones among the snapshot, so the trinket tags left
    are exactly the expected ones.
   */
  lemma FinalTags(data: map<string, Entry>, condOk: set<string>, c0: seq<Option<string>>,
                  tags0: seq<string>, scanned: seq<string>, final: seq<string>, expected: set<string>)
    requires SlotCount <= |c0| && expected == Found(c0, data, condOk, SlotCount)
    requires forall t :: t in scanned <==> t in tags0 || t in expected
    requires forall t :: t in final <==> t in scanned && !(t in tags0 && Stale(data, condOk, expected, t))
    ensures forall t :: t in final <==> t in expected || (t in tags0 && !IsTrinket(data, t))
  {
    forall t | t in expected ensures Admissible(data, condOk, t) {
      FoundMeaning(c0, data, condOk, SlotCount, t);
    }
  }

  // ---------------------------------------------------------------- equipping by use

  /** What `tryEquipTrinket` decides for the used stack. */
  datatype EquipOutcome = NotATrinket | ConditionFailed | SlotTaken | Equipped

  /** Some tag of the player is registered for `slot`. */
  predicate SlotWorn(tags: seq<string>, data: map<string, Entry>, slot: string)
  {
    exists k :: 0 <= k < |tags| && tags[k] in data && data[tags[k]].trinket == slot
  }

  /** The branch `tryEquipTrinket` takes for the used stack `hand`. */
  function EquipDecision(hand: Option<Stack>, tags: seq<string>, data: map<string, Entry>, condOk: set<string>): EquipOutcome
  {
    if hand.None? || hand.value.typeId == "" || !IsTrinket(data, hand.value.typeId) then NotATrinket
    else
      var id := hand.value.typeId;
      if !PassesCondition(data[id], id, condOk) then ConditionFailed
      else if SlotWorn(tags, data, data[id].trinket) then SlotTaken
      else Equipped
  }

  /** An equipped trinket's tag is new: a worn copy would already occupy its slot. */
  lemma EquippedTagIsNew(hand: Option<Stack>, tags: seq<string>, data: map<string, Entry>, condOk: set<string>)
    requires EquipDecision(hand, tags, data, condOk) == Equipped
    ensures hand.Some? && IsTrinket(data, hand.value.typeId) && hand.value.typeId !in tags
  {
  }

  /** `changeItemAmount(selectedSlot, -1)`: one item fewer, the slot emptied at zero. */
  function Decremented(hand: Option<Stack>): Option<Stack>
    requires hand.Some?
  {
    if hand.value.amount > 1 then Some(Stack(hand.value.typeId, hand.value.amount - 1)) else None
  }

  /** Taking one item from the held stack removes exactly one copy of its id. */
  lemma DecrementTakesOne(hand: Option<Stack>)
    requires hand.Some? && hand.value.amount >= 1
    ensures HandItems(Decremented(hand)) + multiset{hand.value.typeId} == HandItems(hand)
  {
    var x := hand.value.typeId;
    var m := HandItems(Decremented(hand)) + multiset{x};
    forall y ensures m[y] == HandItems(hand)[y] {
    }
  }

  /** The loop over `player.getTags()` looking for a tag registered for `slot`. */
  method FindWornInSlot(tags: seq<string>, data: map<string, Entry>, slot: string) returns (taken: bool)
    ensures taken == SlotWorn(tags, data, slot)
  {
    for k := 0 to |tags|
      invariant !exists j :: 0 <= j < k && tags[j] in data && data[tags[j]].trinket == slot
    {
      var tag := tags[k];
      if tag in data && data[tag].trinket == slot {
        return true;
      }
    }
    return false;
  }

  /** The equipping branch: add the tag, clear the trinket's own immunities, consume one item. */
  method Equip(player: Player, id: string, e: Entry)
    requires player.Valid() && player.hand.Some? && player.hand.value.typeId == id && id !in player.tags
    modifies player`tags, player`effects, player`hand
    ensures player.Valid()
    ensures player.tags == old(player.tags) + [id]
    ensures player.hand == Decremented(old(player.hand))
    ensures player.effects == ClearedFor(old(player.effects), e)
    ensures player.Possessions() == old(player.Possessions())
  {
    ghost var before := player.Possessions();
    ghost var hand0 := player.hand;
    player.AddTag(id);
    ClearTrinketImmuneEffects(player, e);
    player.hand := Decremented(player.hand);
    DecrementTakesOne(hand0);
    assert multiset(player.tags) == multiset(old(player.tags)) + multiset{id};
    forall y ensures player.Possessions()[y] == before[y] {
    }
  }

  /**
    `tryEquipTrinket` as corrected: when the condition fails nothing happens,
    because the used stack never left the player's hand. Equipping moves one
    item from the hand into a tag, so the player's possessions never change.
   */
  method TryEquipTrinket(player: Player, data: map<string, Entry>, condOk: set<string>) returns (outcome: EquipOutcome)
    requires player.Valid()
    modifies player`tags, player`effects, player`hand
    ensures player.Valid()
    ensures outcome == EquipDecision(old(player.hand), old(player.tags), data, condOk)
    ensures outcome != Equipped ==>
      player.tags == old(player.tags) && player.hand == old(player.hand) && player.effects == old(player.effects)
    ensures outcome == Equipped ==>
      var id := old(player.hand).value.typeId;
      && player.tags == old(player.tags) + [id]
      && player.hand == Decremented(old(player.hand))
      && player.effects == ClearedFor(old(player.effects), data[id])
    ensures player.Possessions() == old(player.Possessions())
  {
    outcome := EquipDecision(player.hand, player.tags, data, condOk);
    if player.hand.None? || player.hand.value.typeId == "" || player.hand.value.typeId !in data {
      return;
    }
    var id := player.hand.value.typeId;
    var e := data[id];
    if e.trinket == "" {
      return;
    }
    if e.hasCondition && id !in condOk {
      return;
    }
    var taken := FindWornInSlot(player.tags, data, e.trinket);
    if taken {
      return;
    }
    EquippedTagIsNew(player.hand, player.tags, data, condOk);
    Equip(player, id, e);
  }

  /**
    `tryEquipTrinket` as written: when the condition fails the used stack is
    also added to the inventory (or dropped), although it stays in the hand;
    the player ends up with the whole stack twice.
   */
  method TryEquipTrinketAsWritten(player: Player, data: map<string, Entry>, condOk: set<string>) returns (outcome: EquipOutcome)
    requires player.Valid()
    modifies player`tags, player`effects, player`hand, player`freeSlots, player`received, player`dropped
    ensures player.Valid()
    ensures outcome == EquipDecision(old(player.hand), old(player.tags), data, condOk)
    ensures outcome == ConditionFailed ==>
      && player.hand == old(player.hand) && player.tags == old(player.tags)
      && player.Possessions() == old(player.Possessions()) + HandItems(old(player.hand))
    ensures outcome != ConditionFailed ==> player.Possessions() == old(player.Possessions())
  {
    outcome := EquipDecision(player.hand, player.tags, data, condOk);
    if player.hand.None? || player.hand.value.typeId == "" || player.hand.value.typeId !in data {
      return;
    }
    var id := player.hand.value.typeId;
    var e := data[id];
    if e.trinket == "" {
      return;
    }
    if e.hasCondition && id !in condOk {
      ReturnItem(player, player.hand.value);
      return;
    }
    var taken := FindWornInSlot(player.tags, data, e.trinket);
    if taken {
      return;
    }
    EquippedTagIsNew(player.hand, player.tags, data, condOk);
    Equip(player, id, e);
  }

  /** `inv.addItem(item)` or `spawnItem(item)` for the stack the player still holds. */
  method ReturnItem(player: Player, stack: Stack)
    modifies player`freeSlots, player`received, player`dropped
    ensures player.hand == old(player.hand) && player.tags == old(player.tags)
    ensures player.Given() == old(player.Given()) + StackItems(stack)
    ensures player.Possessions() == old(player.Possessions()) + StackItems(stack)
  {
    ghost var before := player.Possessions();
    player.GiveStack(stack);
    forall y ensures player.Possessions()[y] == (before + StackItems(stack))[y] {
    }
  }

  /** The condition-failure branch is reachable: a conditional trinket whose condition fails for the player. */
  lemma ConditionFailureIsReachable()
    ensures EquipDecision(Some(Stack("dorios:ring", 1)), [],
      map["dorios:ring" := Entry("ring", true, map[], map[], map[], None, None, None)], {}) == ConditionFailed
  {
  }

  // ---------------------------------------------------------------- unequipping

  /** The trinket tags, in order. */
  function Worn(tags: seq<string>, data: map<string, Entry>): seq<string>
  {
    if |tags| == 0 then []
    else if IsTrinket(data, tags[|tags| - 1]) then Worn(tags[..|tags| - 1], data) + [tags[|tags| - 1]]
    else Worn(tags[..|tags| - 1], data)
  }

  /** The other tags, in order. */
  function Unworn(tags: seq<string>, data: map<string, Entry>): seq<string>
  {
    if |tags| == 0 then []
    else if IsTrinket(data, tags[|tags| - 1]) then Unworn(tags[..|tags| - 1], data)
    else Unworn(tags[..|tags| - 1], data) + [tags[|tags| - 1]]
  }

  /** The trinket tags and the other tags are what their names say. */
  lemma {:induction false} WornUnwornMembers(tags: seq<string>, data: map<string, Entry>)
    ensures forall t :: t in Worn(tags, data) <==> t in tags && IsTrinket(data, t)
    ensures forall t :: t in Unworn(tags, data) <==> t in tags && !IsTrinket(data, t)
  {
    if |tags| > 0 {
      var n := |tags| - 1;
      WornUnwornMembers(tags[..n], data);
      assert tags == tags[..n] + [tags[n]];
    }
  }

  /** Splitting the tags into trinket and other tags loses none and adds none. */
  lemma {:induction false} WornUnwornSplit(tags: seq<string>, data: map<string, Entry>)
    ensures multiset(Worn(tags, data)) + multiset(Unworn(tags, data)) == multiset(tags)
  {
    if |tags| > 0 {
      var n := |tags| - 1;
      WornUnwornSplit(tags[..n], data);
      assert tags == tags[..n] + [tags[n]];
    }
  }

  /**
    `unequipAllTrinkets`: with an inventory, every trinket tag is handed back
    as an item (inventory first, then the ground) and removed; other tags stay
    in order. Possessions do not change.
   */
  method UnequipAllTrinkets(player: Player, data: map<string, Entry>)
    requires player.Valid()
    modifies player`tags, player`freeSlots, player`received, player`dropped
    ensures player.Valid()
    ensures !player.hasInventory ==>
      player.tags == old(player.tags) && player.received == old(player.received) && player.dropped == old(player.dropped)
    ensures player.hasInventory ==>
      && player.tags == Unworn(old(player.tags), data)
      && player.Given() == old(player.Given()) + multiset(Worn(old(player.tags), data))
    ensures player.Possessions() == old(player.Possessions())
  {
    var tags := player.tags;
    if !player.hasInventory {
      return;
    }
    ghost var given0 := player.Given();
    ghost var possessions0 := player.Possessions();
    assert tags[..0] == [] && tags[0..] == tags;
    for k := 0 to |tags|
      invariant player.Valid()
      invariant player.tags == Unworn(tags[..k], data) + tags[k..]
      invariant player.Given() == given0 + multiset(Worn(tags[..k], data))
      invariant player.Possessions() == possessions0
    {
      UnequipOne(player, tags, k, data, given0);
    }
    assert tags[..|tags|] == tags && tags[|tags|..] == [];
  }

  /** One pass of the loop of `unequipAllTrinkets`, over the tag snapshot `tags`. */
  method UnequipOne(player: Player, tags: seq<string>, k: nat, data: map<string, Entry>, ghost given0: multiset<string>)
    requires player.Valid() && NoDup(tags) && k < |tags|
    requires player.tags == Unworn(tags[..k], data) + tags[k..]
    requires player.Given() == given0 + multiset(Worn(tags[..k], data))
    modifies player`tags, player`freeSlots, player`received, player`dropped
    ensures player.Valid()
    ensures player.tags == Unworn(tags[..k + 1], data) + tags[k + 1..]
    ensures player.Given() == given0 + multiset(Worn(tags[..k + 1], data))
    ensures player.Possessions() == old(player.Possessions())
  {
    var tag := tags[k];
    UnequipShapes(tags, k, data);
    if tag !in data || data[tag].trinket == "" {
      return;
    }
    HandBack(player, tag, Unworn(tags[..k], data), tags[k + 1..]);
  }

  /** How the snapshot's prefixes grow by the tag at `k`. */
  lemma UnequipShapes(tags: seq<string>, k: nat, data: map<string, Entry>)
    requires NoDup(tags) && k < |tags|
    ensures Unworn(tags[..k], data) + tags[k..] == Unworn(tags[..k], data) + [tags[k]] + tags[k + 1..]
    ensures IsTrinket(data, tags[k]) ==>
      && Unworn(tags[..k + 1], data) == Unworn(tags[..k], data)
      && Worn(tags[..k + 1], data) == Worn(tags[..k], data) + [tags[k]]
      && tags[k] !in Unworn(tags[..k], data) && tags[k] !in tags[k + 1..]
    ensures !IsTrinket(data, tags[k]) ==>
      && Unworn(tags[..k + 1], data) == Unworn(tags[..k], data) + [tags[k]]
      && Worn(tags[..k + 1], data) == Worn(tags[..k], data)
  {
    assert tags[..k + 1][..k] == tags[..k];
    assert tags[k..] == [tags[k]] + tags[k + 1..];
    WornUnwornMembers(tags[..k], data);
  }

  /** Hand one worn trinket back: its tag goes, an item comes. */
  method HandBack(player: Player, tag: string, pre: seq<string>, rest: seq<string>)
    requires player.Valid() && player.tags == pre + [tag] + rest && tag !in pre && tag !in rest
    modifies player`tags, player`freeSlots, player`received, player`dropped
    ensures player.Valid()
    ensures player.tags == pre + rest
    ensures player.Given() == old(player.Given()) + multiset{tag}
    ensures player.Possessions() == old(player.Possessions())
  {
    ghost var h := HandItems(player.hand);
    ghost var g := player.Given();
    ghost var m := multiset(player.tags);
    player.GiveItem(tag);
    assert tag in player.tags;
    WithoutMiddle(pre, tag, rest);
    player.RemoveTag(tag);
    assert multiset(player.tags) == m - multiset{tag};
    assert player.Given() == g + multiset{tag};
    BagMove(h, g, m, tag);
  }

  /** After unequipping, no slot with a name is worn any more. */
  lemma UnwornFreesEverySlot(tags: seq<string>, data: map<string, Entry>, slot: string)
    requires slot != ""
    ensures !SlotWorn(Unworn(tags, data), data, slot)
  {
    var u := Unworn(tags, data);
    WornUnwornMembers(tags, data);
    forall k | 0 <= k < |u|
      ensures !(u[k] in data && data[u[k]].trinket == slot)
    {
      assert u[k] in u;
    }
  }

  // ---------------------------------------------------------------- the item-use event

  const RecoverScroll := "dorios:recover_scroll"
  const Scroll := "dorios:scroll"

  /**
    The `itemUse` handler, for the used stack `player.hand`: the recover
    scroll first unequips everything, then equipping is tried as for any
    item. Using the recover scroll never finds a slot taken.
   */
  method OnItemUse(player: Player, data: map<string, Entry>, condOk: set<string>) returns (outcome: EquipOutcome)
    requires player.Valid()
    modifies player`tags, player`effects, player`hand, player`freeSlots, player`received, player`dropped
    ensures player.Valid()
    ensures player.Possessions() == old(player.Possessions())
    ensures var recovering := old(player.hand).Some? && old(player.hand).value.typeId == RecoverScroll && player.hasInventory;
      var tags := if recovering then Unworn(old(player.tags), data) else old(player.tags);
      && outcome == EquipDecision(old(player.hand), tags, data, condOk)
      && (recovering ==> outcome != SlotTaken)
  {
    ghost var tags0, hand0 := player.tags, player.hand;
    var recovering := player.hand.Some? && player.hand.value.typeId == RecoverScroll;
    if recovering {
      UnequipAllTrinkets(player, data);
      if player.hasInventory && IsTrinket(data, RecoverScroll) {
        UnwornFreesEverySlot(tags0, data, data[RecoverScroll].trinket);
      }
    }
    ghost var tags1 := player.tags;
    assert player.hand == hand0;
    assert tags1 == if recovering && player.hasInventory then Unworn(tags0, data) else tags0;
    outcome := TryEquipTrinket(player, data, condOk);
    assert outcome == EquipDecision(hand0, tags1, data, condOk);
  }

  // ---------------------------------------------------------------- the tick

  /**
    The invisible entity whose inventory shows the trinket slots while the
    scroll is held; `loaded` is its `dorios:trinket_loaded` tag.
   */
  class Proxy {
    var loaded: bool
    const container: array<Option<string>>

    /** A freshly summoned entity: empty slots, not loaded. */
    constructor (size: nat)
      requires size >= SlotCount
      ensures !loaded && container.Length == size && fresh(container)
      ensures forall i :: 0 <= i < size ==> container[i] == None
    {
      loaded := false;
      container := new Option<string>[size](_ => None);
    }
  }

  /**
    `trinketTick`: without the scroll in the main hand the entity is removed
    (`null` is returned); with it, a missing entity is summoned and nothing
    else happens this tick; otherwise the entity is loaded from the tags once
    and its slots are validated.
   */
  method TrinketTick(player: Player, proxy: Proxy?, size: nat, data: map<string, Entry>, condOk: set<string>)
    returns (next: Proxy?)
    requires player.Valid() && KnownSlots(data) && size >= SlotCount
    requires proxy != null ==> proxy.container.Length >= SlotCount
    modifies player`tags, player`effects, player`freeSlots, player`received, player`dropped
    modifies if proxy == null then {} else {proxy, proxy.container}
    ensures player.Valid()
    ensures next == null <==> player.hand.None? || player.hand.value.typeId != Scroll
    ensures next == null || proxy == null ==>
      player.tags == old(player.tags) && player.effects == old(player.effects) && player.Given() == old(player.Given())
    ensures next != null && proxy == null ==>
      && fresh(next) && fresh(next.container) && !next.loaded && next.container.Length == size
      && forall i :: 0 <= i < size ==> next.container[i] == None
    ensures next != null && proxy != null ==>
      && next == proxy && next.loaded
      && (player.hasInventory ==>
            && (forall k :: 0 <= k < SlotCount ==> Placed(data, condOk, next.container[k], k))
            && (forall k :: 0 <= k < SlotCount && next.container[k].Some? ==> next.container[k].value in player.tags))
  {
    if player.hand.None? || player.hand.value.typeId != Scroll {
      return null;
    }
    if proxy == null {
      next := new Proxy(size);
      return;
    }
    Refresh(player, proxy, data, condOk);
    next := proxy;
  }

  /** The tick with the entity present: load it from the tags once, then validate its slots. */
  method Refresh(player: Player, proxy: Proxy, data: map<string, Entry>, condOk: set<string>)
    requires player.Valid() && KnownSlots(data) && proxy.container.Length >= SlotCount
    modifies player`tags, player`effects, player`freeSlots, player`received, player`dropped
    modifies proxy, proxy.container
    ensures player.Valid() && proxy.loaded
    ensures !player.hasInventory ==>
      player.tags == old(player.tags) && player.effects == old(player.effects) && player.Given() == old(player.Given())
    ensures player.hasInventory ==>
      && (forall k :: 0 <= k < SlotCount ==> Placed(data, condOk, proxy.container[k], k))
      && (forall k :: 0 <= k < SlotCount && proxy.container[k].Some? ==> proxy.container[k].value in player.tags)
  {
    if !proxy.loaded {
      LoadEntityInv(player.tags, proxy.container, data);
      proxy.loaded := true;
    }
    ghost var c0 := proxy.container[..];
    ValidateTrinketSlots(player, proxy.container, data, condOk);
    if player.hasInventory {
      ghost var c := proxy.container[..];
      assert Settled(data, condOk, c0, c, Found(c0, data, condOk, SlotCount));
      forall k | 0 <= k < SlotCount
        ensures Placed(data, condOk, proxy.container[k], k)
        ensures proxy.container[k].Some? ==> proxy.container[k].value in player.tags
      {
        assert proxy.container[k] == c[k];
      }
    }
  }
}
