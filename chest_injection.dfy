/**
  Filling a chest from its loot table (`getSlotPools`, `injectLoot`). The
  chest's container is an array of optional item ids; `Math.random` is the
  oracle `roll`, whose n-th value is the n-th number drawn.
 */
module ChestInjection {
  import opened Wrappers
  import opened Assoc

  /** `REPLACEABLE_ITEMS`: filler a trinket may overwrite once no slot is empty. */
  const Replaceable: set<string> := {
    "minecraft:rotten_flesh", "minecraft:bone", "minecraft:string", "minecraft:gunpowder",
    "minecraft:gold_nugget", "minecraft:iron_nugget", "minecraft:coal", "minecraft:bread",
    "minecraft:wheat"}

  predicate Ascending(s: seq<nat>)
  {
    forall i, j :: 0 <= i < j < |s| ==> s[i] < s[j]
  }

  predicate IsReplaceable(o: Option<string>)
  {
    o.Some? && o.value in Replaceable
  }

  /** A slot of either pool: empty, or holding replaceable filler. */
  predicate Usable(o: Option<string>)
  {
    o.None? || IsReplaceable(o)
  }

  /** Every draw of the oracle is a number in [0, 1), as `Math.random` returns. */
  ghost predicate IsRandom(roll: nat -> real)
  {
    forall n: nat :: 0.0 <= roll(n) < 1.0
  }

  /**
    `getSlotPools`: the empty slots and the replaceable slots, each in
    ascending order. No slot is in both, since a slot is empty or holds an item.
   */
  method GetSlotPools(container: array<Option<string>>) returns (emptySlots: seq<nat>, replaceableSlots: seq<nat>)
    ensures Ascending(emptySlots) && Ascending(replaceableSlots)
    ensures forall i: nat :: i in emptySlots <==> i < container.Length && container[i].None?
    ensures forall i: nat :: i in replaceableSlots <==> i < container.Length && IsReplaceable(container[i])
    ensures emptySlots == EmptyPool(container[..]) && replaceableSlots == FillerPool(container[..])
  {
    emptySlots, replaceableSlots := [], [];
    for i := 0 to container.Length
      invariant emptySlots == EmptyPool(container[..i]) && replaceableSlots == FillerPool(container[..i])
    {
      assert container[..i + 1][..i] == container[..i];
      var item := container[i];
      if item.None? {
        emptySlots := emptySlots + [i];
      } else if item.value in Replaceable {
        replaceableSlots := replaceableSlots + [i];
      }
    }
    assert container[..container.Length] == container[..];
    PoolsOfContainer(container[..]);
  }

  /** The empty slots of a container, ascending: the first pool of `getSlotPools`. */
  function EmptyPool(c: seq<Option<string>>): (s: seq<nat>)
    ensures forall i :: i in s ==> i < |c|
  {
    if |c| == 0 then []
    else EmptyPool(c[..|c| - 1]) + (if c[|c| - 1].None? then [|c| - 1] else [])
  }

  /** The slots holding replaceable filler, ascending: the second pool of `getSlotPools`. */
  function FillerPool(c: seq<Option<string>>): (s: seq<nat>)
    ensures forall i :: i in s ==> i < |c|
  {
    if |c| == 0 then []
    else FillerPool(c[..|c| - 1]) + (if IsReplaceable(c[|c| - 1]) then [|c| - 1] else [])
  }

  /** `Math.floor(Math.random() * pool.length)`: a valid index into a non-empty pool. */
  function PickIndex(r: real, n: nat): (i: nat)
    requires 0.0 <= r < 1.0 && n > 0
    ensures i < n
  {
    var x := r * (n as real);
    assert x < n as real by {
      assert (1.0 - r) * (n as real) > 0.0;
    }
    x.Floor
  }

  predicate NoDupSlots(s: seq<nat>)
  {
    forall i, j :: 0 <= i < j < |s| ==> s[i] != s[j]
  }

  /**
    What the injection loop keeps: the written slots are distinct, came from
    the original pools and have left the current ones; a pool slot is either
    still in its pool or written; the replaceable pool is drawn from only
    after the empty pool has run out.
   */
  ghost predicate Pools(empty0: seq<nat>, repl0: seq<nat>, emptySlots: seq<nat>, repl: seq<nat>, written: seq<nat>)
  {
    && NoDupSlots(emptySlots) && NoDupSlots(repl) && NoDupSlots(written)
    && (forall s :: s in emptySlots ==> s in empty0)
    && (forall s :: s in repl ==> s in repl0)
    && (forall s :: s in written ==> (s in empty0 || s in repl0) && s !in emptySlots && s !in repl)
    && (forall s :: s in empty0 ==> s in emptySlots || s in written)
    && (forall s :: s in repl0 ==> s in repl || s in written)
    && (forall j :: 0 <= j < |written| && written[j] in repl0 ==>
          forall s :: s in empty0 ==> s in written[..j])
  }

  /** `pool.splice(index, 1)`. */
  function Splice(pool: seq<nat>, index: nat): (r: seq<nat>)
    requires index < |pool|
    ensures |r| == |pool| - 1 && forall s :: s in r ==> s in pool
    ensures NoDupSlots(pool) ==> NoDupSlots(r) && forall s :: s in r <==> s in pool && s != pool[index]
  {
    assert pool == pool[..index] + [pool[index]] + pool[index + 1..];
    pool[..index] + pool[index + 1..]
  }

  /** Taking a slot out of the empty pool keeps the pool invariant. */
  lemma TakeEmpty(empty0: seq<nat>, repl0: seq<nat>, emptySlots: seq<nat>, repl: seq<nat>, written: seq<nat>, index: nat)
    requires Pools(empty0, repl0, emptySlots, repl, written) && index < |emptySlots|
    requires forall s :: s in empty0 ==> s !in repl0
    ensures Pools(empty0, repl0, Splice(emptySlots, index), repl, written + [emptySlots[index]])
  {
    var w := written + [emptySlots[index]];
    forall j | 0 <= j < |w| && w[j] in repl0
      ensures forall s :: s in empty0 ==> s in w[..j]
    {
      assert j < |written|;
      assert w[..j] == written[..j];
    }
  }

  /** Taking a slot out of the replaceable pool, once the empty pool is used up, keeps the pool invariant. */
  lemma TakeReplaceable(empty0: seq<nat>, repl0: seq<nat>, repl: seq<nat>, written: seq<nat>, index: nat)
    requires Pools(empty0, repl0, [], repl, written) && index < |repl|
    requires forall s :: s in empty0 ==> s !in repl0
    ensures Pools(empty0, repl0, [], Splice(repl, index), written + [repl[index]])
  {
    var w := written + [repl[index]];
    forall j | 0 <= j < |w| && w[j] in repl0
      ensures forall s :: s in empty0 ==> s in w[..j]
    {
      if j < |written| {
        assert w[..j] == written[..j];
      } else {
        assert w[..j] == written;
      }
    }
  }

  /** The pools as `getSlotPools` returned them for the container `c0`. */
  ghost predicate PoolsOf(c0: seq<Option<string>>, empty0: seq<nat>, repl0: seq<nat>)
  {
    && (forall s: nat :: s in empty0 <==> s < |c0| && c0[s].None?)
    && (forall s: nat :: s in repl0 <==> s < |c0| && IsReplaceable(c0[s]))
  }

  /**
    What `injectLoot` puts where, as (slot, item) pairs in the order written:
    the entries are taken in order, the `k`-th draw decides whether an entry
    is skipped (`roll(k) > chance`), and an entry that is not skipped takes
    the slot at the next draw's index in the empty pool, or in the filler
    pool once no empty slot is left; the walk stops when both are used up.
   */
  function Placements(table: Table<real>, emptySlots: seq<nat>, fillerSlots: seq<nat>, roll: nat -> real, k: nat)
    : (ps: seq<(nat, string)>)
    requires IsRandom(roll)
    ensures |ps| <= |table|
    ensures forall p :: p in ps ==> (p.0 in emptySlots || p.0 in fillerSlots) && p.1 in Keys(table)
    decreases |table|
  {
    if |table| == 0 then []
    else if roll(k) > table[0].1 then Placements(table[1..], emptySlots, fillerSlots, roll, k + 1)
    else if |emptySlots| > 0 then
      var index := PickIndex(roll(k + 1), |emptySlots|);
      [(emptySlots[index], table[0].0)] + Placements(table[1..], Splice(emptySlots, index), fillerSlots, roll, k + 2)
    else if |fillerSlots| > 0 then
      var index := PickIndex(roll(k + 1), |fillerSlots|);
      [(fillerSlots[index], table[0].0)] + Placements(table[1..], emptySlots, Splice(fillerSlots, index), roll, k + 2)
    else []
  }

  /** `container.setItem(slot, new ItemStack(item, 1))` for each placement in turn. */
  /** One more placement writes its own slot on top of the earlier ones. */
  lemma PlaceAppend(c: seq<Option<string>>, ps: seq<(nat, string)>, p: (nat, string))
    requires forall q :: q in ps ==> q.0 < |c|
    requires p.0 < |c|
    ensures forall q :: q in ps + [p] ==> q.0 < |c|
    ensures Place(c, ps + [p]) == Place(c, ps)[p.0 := Some(p.1)]
  {
    assert (ps + [p])[..|ps|] == ps;
  }

  function Place(c: seq<Option<string>>, ps: seq<(nat, string)>): (r: seq<Option<string>>)
    requires forall p :: p in ps ==> p.0 < |c|
    ensures |r| == |c|
  {
    if |ps| == 0 then c
    else
      var last := ps[|ps| - 1];
      Place(c, ps[..|ps| - 1])[last.0 := Some(last.1)]
  }

  /** The slots of a list of placements, in order. */
  function Slots(ps: seq<(nat, string)>): (r: seq<nat>)
    ensures |r| == |ps| && forall j :: 0 <= j < |ps| ==> r[j] == ps[j].0
  {
    seq(|ps|, j requires 0 <= j < |ps| => ps[j].0)
  }

  /** The slots of one placement followed by more. */
  lemma SlotsHead(add: seq<(nat, string)>, rest: seq<(nat, string)>)
    requires |add| == 1
    ensures Slots(add + rest) == [add[0].0] + Slots(rest)
  {
  }

  /** The placements for the container `c`, from its own pools and the first draw on. */
  ghost function Plan(table: Table<real>, c: seq<Option<string>>, roll: nat -> real): (ps: seq<(nat, string)>)
    requires IsRandom(roll)
    ensures forall p :: p in ps ==> p.0 < |c|
  {
    Placements(table, EmptyPool(c), FillerPool(c), roll, 0)
  }

  /** The container after `injectLoot`. */
  ghost function Injected(table: Table<real>, c: seq<Option<string>>, roll: nat -> real): (r: seq<Option<string>>)
    requires IsRandom(roll)
    ensures |r| == |c|
  {
    Place(c, Plan(table, c, roll))
  }

  /**
    What one entry adds, given the pools left and the number `n` of its draw:
    nothing when the draw exceeds its chance or both pools are used up,
    otherwise its own item at the slot the next draw picks from the empty
    pool, or from the filler pool when no empty slot is left.
   */
  function Adds(entry: (string, real), emptySlots: seq<nat>, fillerSlots: seq<nat>, roll: nat -> real, n: nat)
    : (r: seq<(nat, string)>)
    requires IsRandom(roll)
    ensures |r| <= 1 && (|r| == 1 <==> roll(n) <= entry.1 && (|emptySlots| > 0 || |fillerSlots| > 0))
    ensures |r| == 1 ==> r[0].1 == entry.0 && (if |emptySlots| > 0 then r[0].0 in emptySlots else r[0].0 in fillerSlots)
  {
    if roll(n) > entry.1 then []
    else if |emptySlots| > 0 then [(emptySlots[PickIndex(roll(n + 1), |emptySlots|)], entry.0)]
    else if |fillerSlots| > 0 then [(fillerSlots[PickIndex(roll(n + 1), |fillerSlots|)], entry.0)]
    else []
  }

  /**
    The pools left and the number of the next draw once one entry has been
    handled: a skipped entry, or one that finds both pools used up, uses one
    draw; a placed entry uses two and takes its slot out of its pool.
   */
  function Next(entry: (string, real), emptySlots: seq<nat>, fillerSlots: seq<nat>, roll: nat -> real, n: nat)
    : (r: (seq<nat>, seq<nat>, nat))
    requires IsRandom(roll)
    ensures |Adds(entry, emptySlots, fillerSlots, roll, n)| == 1 ==>
      |r.0| + |r.1| + 1 == |emptySlots| + |fillerSlots| && r.2 == n + 2
    ensures |Adds(entry, emptySlots, fillerSlots, roll, n)| == 0 ==>
      r.0 == emptySlots && r.1 == fillerSlots && r.2 == n + 1
  {
    if roll(n) > entry.1 then (emptySlots, fillerSlots, n + 1)
    else if |emptySlots| > 0 then (Splice(emptySlots, PickIndex(roll(n + 1), |emptySlots|)), fillerSlots, n + 2)
    else if |fillerSlots| > 0 then (emptySlots, Splice(fillerSlots, PickIndex(roll(n + 1), |fillerSlots|)), n + 2)
    else (emptySlots, fillerSlots, n + 1)
  }

  /** With both pools used up nothing more is placed. */
  lemma {:induction false} NoRoom(table: Table<real>, roll: nat -> real, k: nat)
    requires IsRandom(roll)
    ensures Placements(table, [], [], roll, k) == []
    decreases |table|
  {
    if |table| > 0 && roll(k) > table[0].1 {
      NoRoom(table[1..], roll, k + 1);
    }
  }

  /** The walk one entry at a time: what the first entry adds, then the rest from where it left off. */
  lemma PlacementsCons(table: Table<real>, emptySlots: seq<nat>, fillerSlots: seq<nat>, roll: nat -> real, k: nat)
    requires IsRandom(roll) && |table| > 0
    ensures var next := Next(table[0], emptySlots, fillerSlots, roll, k);
      Placements(table, emptySlots, fillerSlots, roll, k)
        == Adds(table[0], emptySlots, fillerSlots, roll, k) + Placements(table[1..], next.0, next.1, roll, next.2)
  {
    if roll(k) <= table[0].1 && |emptySlots| == 0 && |fillerSlots| == 0 {
      NoRoom(table[1..], roll, k + 1);
    }
  }

  /**
    The placements of the first `t` entries come first: a later entry never
    changes what an earlier one was given.
   */
  lemma {:induction false} PlacementsPrefix(table: Table<real>, emptySlots: seq<nat>, fillerSlots: seq<nat>,
                                            roll: nat -> real, k: nat, t: nat)
    requires IsRandom(roll) && t <= |table|
    ensures Placements(table[..t], emptySlots, fillerSlots, roll, k) <= Placements(table, emptySlots, fillerSlots, roll, k)
    decreases t
  {
    if t == 0 {
      return;
    }
    var next := Next(table[0], emptySlots, fillerSlots, roll, k);
    assert table[..t][0] == table[0] && table[..t][1..] == table[1..][..t - 1];
    PlacementsCons(table[..t], emptySlots, fillerSlots, roll, k);
    PlacementsCons(table, emptySlots, fillerSlots, roll, k);
    PlacementsPrefix(table[1..], next.0, next.1, roll, next.2, t - 1);
  }

  /** The pools left and the number of the next draw once the first `t` entries have been handled. */
  function Stage(table: Table<real>, emptySlots: seq<nat>, fillerSlots: seq<nat>, roll: nat -> real, k: nat, t: nat)
    : (r: (seq<nat>, seq<nat>, nat))
    requires IsRandom(roll) && t <= |table|
    decreases t
  {
    if t == 0 then (emptySlots, fillerSlots, k)
    else
      var next := Next(table[0], emptySlots, fillerSlots, roll, k);
      Stage(table[1..], next.0, next.1, roll, next.2, t - 1)
  }

  /**
    Entry `t` on its own: the placements of the first `t + 1` entries are
    those of the first `t`, followed by what entry `t` adds with the pools
    and draw number the earlier entries left.
   */
  lemma {:induction false} EntryOutcome(table: Table<real>, emptySlots: seq<nat>, fillerSlots: seq<nat>,
                                        roll: nat -> real, k: nat, t: nat)
    requires IsRandom(roll) && t < |table|
    ensures var st := Stage(table, emptySlots, fillerSlots, roll, k, t);
      Placements(table[..t + 1], emptySlots, fillerSlots, roll, k)
        == Placements(table[..t], emptySlots, fillerSlots, roll, k) + Adds(table[t], st.0, st.1, roll, st.2)
    decreases t
  {
    assert table[..t + 1][0] == table[0] && table[..t + 1][1..] == table[1..][..t];
    PlacementsCons(table[..t + 1], emptySlots, fillerSlots, roll, k);
    var next := Next(table[0], emptySlots, fillerSlots, roll, k);
    if t == 0 {
      assert table[1..][..0] == [];
      return;
    }
    var head := Adds(table[0], emptySlots, fillerSlots, roll, k);
    assert table[..t][0] == table[0] && table[..t][1..] == table[1..][..t - 1];
    assert table[1..][t - 1] == table[t];
    PlacementsCons(table[..t], emptySlots, fillerSlots, roll, k);
    EntryOutcome(table[1..], next.0, next.1, roll, next.2, t - 1);
    var st := Stage(table[1..], next.0, next.1, roll, next.2, t - 1);
    var p0 := Placements(table[1..][..t - 1], next.0, next.1, roll, next.2);
    var a := Adds(table[t], st.0, st.1, roll, st.2);
    ConcatAssoc(head, p0, a);
  }

  /**
    Entries with a chance of 1 or more are never skipped: each, in table
    order, takes a slot until the pools run out.
   */
  lemma {:induction false} SureEntriesPlaced(table: Table<real>, emptySlots: seq<nat>, fillerSlots: seq<nat>,
                                             roll: nat -> real, k: nat)
    requires IsRandom(roll)
    requires forall i :: 0 <= i < |table| ==> table[i].1 >= 1.0
    ensures var ps := Placements(table, emptySlots, fillerSlots, roll, k);
      && |ps| == (if |table| <= |emptySlots| + |fillerSlots| then |table| else |emptySlots| + |fillerSlots|)
      && forall j :: 0 <= j < |ps| ==> ps[j].1 == table[j].0
    decreases |table|
  {
    SureEntriesCount(table, emptySlots, fillerSlots, roll, k);
    if |table| == 0 || (|emptySlots| == 0 && |fillerSlots| == 0) {
      return;
    }
    assert roll(k) < 1.0 <= table[0].1;
    var ps := Placements(table, emptySlots, fillerSlots, roll, k);
    var next := Next(table[0], emptySlots, fillerSlots, roll, k);
    var add := Adds(table[0], emptySlots, fillerSlots, roll, k);
    var rest := Placements(table[1..], next.0, next.1, roll, next.2);
    PlacementsCons(table, emptySlots, fillerSlots, roll, k);
    SureEntriesPlaced(table[1..], next.0, next.1, roll, next.2);
    ItemsCons(table, add, rest);
  }

  /** Placements that carry the items of a table's entries in order, one more at the front. */
  lemma ItemsCons(table: Table<real>, add: seq<(nat, string)>, rest: seq<(nat, string)>)
    requires |table| > 0 && |add| == 1 && add[0].1 == table[0].0 && |rest| < |table|
    requires forall j :: 0 <= j < |rest| ==> rest[j].1 == table[1..][j].0
    ensures forall j :: 0 <= j < |add + rest| ==> (add + rest)[j].1 == table[j].0
  {
    forall j | 0 <= j < |add + rest|
      ensures (add + rest)[j].1 == table[j].0
    {
      if j > 0 {
        assert (add + rest)[j] == rest[j - 1] && table[j] == table[1..][j - 1];
      }
    }
  }

  /** How many entries with a chance of 1 or more place an item: one each, until the pools run out. */
  lemma {:induction false} SureEntriesCount(table: Table<real>, emptySlots: seq<nat>, fillerSlots: seq<nat>,
                                            roll: nat -> real, k: nat)
    requires IsRandom(roll)
    requires forall i :: 0 <= i < |table| ==> table[i].1 >= 1.0
    ensures |Placements(table, emptySlots, fillerSlots, roll, k)|
      == (if |table| <= |emptySlots| + |fillerSlots| then |table| else |emptySlots| + |fillerSlots|)
    decreases |table|
  {
    if |table| == 0 {
      return;
    }
    if |emptySlots| == 0 && |fillerSlots| == 0 {
      NoRoom(table, roll, k);
      return;
    }
    assert roll(k) < 1.0 <= table[0].1;
    var next := Next(table[0], emptySlots, fillerSlots, roll, k);
    PlacementsCons(table, emptySlots, fillerSlots, roll, k);
    SureEntriesCount(table[1..], next.0, next.1, roll, next.2);
  }


  /**
    `injectLoot`: for each entry of the table in order, draw a number; when
    it does not exceed the chance, draw a slot from the empty pool, or from
    the replaceable pool once no empty slot is left, and put one item there;
    stop when both pools are used up. `written` lists the slots written, in
    order. Nothing happens for an empty table or a block without a container.
    The container ends as `Injected` describes, and what the loop keeps
    shows that only empty or filler slots are written, each once, filler
    only after every empty slot, and each with an item of the table.
   */
  method InjectLoot(lootTable: Table<real>, container: array?<Option<string>>, roll: nat -> real)
    returns (ghost written: seq<nat>)
    requires IsRandom(roll)
    modifies container
    ensures |lootTable| == 0 || container == null ==>
      written == [] && (container != null ==> container[..] == old(container[..]))
    ensures container != null ==>
      && written == Slots(Plan(lootTable, old(container[..]), roll))
      && container[..] == Injected(lootTable, old(container[..]), roll)
    ensures container != null ==> Shape(lootTable, old(container[..]), container[..], written)
  {
    written := [];
    if container == null {
      return;
    }
    ghost var c0 := container[..];
    if |lootTable| == 0 {
      assert Plan(lootTable, c0, roll) == [];
      return;
    }
    var emptySlots: seq<nat>, replaceableSlots: seq<nat> := GetSlotPools(container);
    ghost var done: seq<(nat, string)> := [];
    var k := 0;
    for t := 0 to |lootTable|
      invariant forall s :: s in emptySlots || s in replaceableSlots ==> s < |c0|
      invariant forall p :: p in done ==> p.0 < |c0|
      invariant container[..] == Place(c0, done)
      invariant Plan(lootTable, c0, roll) == done + Placements(lootTable[t..], emptySlots, replaceableSlots, roll, k)
    {
      ghost var rest := lootTable[t..];
      assert rest[0] == lootTable[t] && rest[1..] == lootTable[t + 1..];
      ghost var plan := Plan(lootTable, c0, roll);
      var itemId, chance := lootTable[t].0, lootTable[t].1;
      var r := roll(k);
      if r > chance {
        PlanStep(plan, done, rest, emptySlots, replaceableSlots, roll, k, [], emptySlots, replaceableSlots, k + 1);
        assert done + [] == done;
        k := k + 1;
        continue;
      }
      if |emptySlots| == 0 && |replaceableSlots| == 0 {
        PlacementsCons(rest, emptySlots, replaceableSlots, roll, k);
        NoRoom(rest[1..], roll, k + 1);
        assert plan == done + [];
        break;
      }
      ghost var e0, f0 := emptySlots, replaceableSlots;
      var slot;
      emptySlots, replaceableSlots, slot := DrawSlot(lootTable[t], emptySlots, replaceableSlots, roll, k);
      PlanStep(plan, done, rest, e0, f0, roll, k, [(slot, itemId)], emptySlots, replaceableSlots, k + 2);
      PlaceAppend(c0, done, (slot, itemId));
      container[slot] := Some(itemId);
      k := k + 2;
      done := done + [(slot, itemId)];
    }
    assert lootTable[|lootTable|..] == [];
    assert Plan(lootTable, c0, roll) == done;
    written := Slots(done);
    InjectedMeaning(lootTable, c0, roll);
  }

  /** The loop's account of the plan, one entry further on. */
  lemma PlanStep(plan: seq<(nat, string)>, done: seq<(nat, string)>, rest: Table<real>,
                 emptySlots: seq<nat>, fillerSlots: seq<nat>, roll: nat -> real, k: nat,
                 add: seq<(nat, string)>, emptyAfter: seq<nat>, fillerAfter: seq<nat>, kAfter: nat)
    requires IsRandom(roll) && |rest| > 0
    requires plan == done + Placements(rest, emptySlots, fillerSlots, roll, k)
    requires Adds(rest[0], emptySlots, fillerSlots, roll, k) == add
    requires Next(rest[0], emptySlots, fillerSlots, roll, k) == (emptyAfter, fillerAfter, kAfter)
    ensures plan == (done + add) + Placements(rest[1..], emptyAfter, fillerAfter, roll, kAfter)
  {
    PlacementsCons(rest, emptySlots, fillerSlots, roll, k);
  }

  /**
    One drawn slot for an entry that was not skipped: draw `n + 1` picks it
    from the pool in use, which it then leaves.
   */
  method DrawSlot(entry: (string, real), emptySlots: seq<nat>, replaceableSlots: seq<nat>, roll: nat -> real, n: nat)
    returns (emptyAfter: seq<nat>, replAfter: seq<nat>, slot: nat)
    requires IsRandom(roll) && roll(n) <= entry.1
    requires |emptySlots| > 0 || |replaceableSlots| > 0
    ensures Adds(entry, emptySlots, replaceableSlots, roll, n) == [(slot, entry.0)]
    ensures Next(entry, emptySlots, replaceableSlots, roll, n) == (emptyAfter, replAfter, n + 2)
    ensures slot in emptySlots || slot in replaceableSlots
    ensures forall s :: s in emptyAfter ==> s in emptySlots
    ensures forall s :: s in replAfter ==> s in replaceableSlots
  {
    emptyAfter, replAfter := emptySlots, replaceableSlots;
    var r := roll(n + 1);
    if |emptySlots| > 0 {
      var index := PickIndex(r, |emptySlots|);
      slot := emptySlots[index];
      emptyAfter := Splice(emptySlots, index);
    } else {
      var index := PickIndex(r, |replaceableSlots|);
      slot := replaceableSlots[index];
      replAfter := Splice(replaceableSlots, index);
    }
  }

  /** What has been written: distinct pool slots, and filler only once every empty slot is written. */
  ghost predicate Written(empty0: seq<nat>, repl0: seq<nat>, written: seq<nat>)
  {
    && NoDupSlots(written)
    && (forall s :: s in written ==> s in empty0 || s in repl0)
    && (forall j :: 0 <= j < |written| && written[j] in repl0 ==>
          forall s :: s in empty0 ==> s in written[..j])
  }

  /** The walk keeps the pools' account: the slots it writes after `written` keep `Written`. */
  lemma {:induction false} PlacementsWritten(table: Table<real>, emptySlots: seq<nat>, fillerSlots: seq<nat>,
                                             roll: nat -> real, k: nat,
                                             empty0: seq<nat>, repl0: seq<nat>, written: seq<nat>)
    requires IsRandom(roll)
    requires Pools(empty0, repl0, emptySlots, fillerSlots, written)
    requires forall s :: s in empty0 ==> s !in repl0
    ensures Written(empty0, repl0, written + Slots(Placements(table, emptySlots, fillerSlots, roll, k)))
    decreases |table|, 1
  {
    var ps := Placements(table, emptySlots, fillerSlots, roll, k);
    if |table| == 0 {
      assert written + Slots(ps) == written;
    } else if |Adds(table[0], emptySlots, fillerSlots, roll, k)| == 0 {
      PlacementsCons(table, emptySlots, fillerSlots, roll, k);
      var next := Next(table[0], emptySlots, fillerSlots, roll, k);
      PlacementsWritten(table[1..], next.0, next.1, roll, next.2, empty0, repl0, written);
    } else {
      PlacementsWrittenTake(table, emptySlots, fillerSlots, roll, k, empty0, repl0, written);
    }
  }

  /** `PlacementsWritten` when the first entry takes a slot. */
  lemma {:induction false} PlacementsWrittenTake(table: Table<real>, emptySlots: seq<nat>, fillerSlots: seq<nat>,
                                                 roll: nat -> real, k: nat,
                                                 empty0: seq<nat>, repl0: seq<nat>, written: seq<nat>)
    requires IsRandom(roll) && |table| > 0 && |Adds(table[0], emptySlots, fillerSlots, roll, k)| == 1
    requires Pools(empty0, repl0, emptySlots, fillerSlots, written)
    requires forall s :: s in empty0 ==> s !in repl0
    ensures Written(empty0, repl0, written + Slots(Placements(table, emptySlots, fillerSlots, roll, k)))
    decreases |table|, 0
  {
    PlacementsCons(table, emptySlots, fillerSlots, roll, k);
    var ps := Placements(table, emptySlots, fillerSlots, roll, k);
    var add := Adds(table[0], emptySlots, fillerSlots, roll, k);
    var slot := add[0].0;
    var next := Next(table[0], emptySlots, fillerSlots, roll, k);
    var rest := Placements(table[1..], next.0, next.1, roll, next.2);
    TakeStep(table[0], emptySlots, fillerSlots, roll, k, empty0, repl0, written);
    SlotsHead(add, rest);
    ConcatAssoc(written, [slot], Slots(rest));
    PlacementsWritten(table[1..], next.0, next.1, roll, next.2, empty0, repl0, written + [slot]);
  }

  /** One entry that takes a slot keeps the pools' account. */
  lemma TakeStep(entry: (string, real), emptySlots: seq<nat>, fillerSlots: seq<nat>, roll: nat -> real, n: nat,
                 empty0: seq<nat>, repl0: seq<nat>, written: seq<nat>)
    requires IsRandom(roll) && |Adds(entry, emptySlots, fillerSlots, roll, n)| == 1
    requires Pools(empty0, repl0, emptySlots, fillerSlots, written)
    requires forall s :: s in empty0 ==> s !in repl0
    ensures var next := Next(entry, emptySlots, fillerSlots, roll, n);
      Pools(empty0, repl0, next.0, next.1, written + [Adds(entry, emptySlots, fillerSlots, roll, n)[0].0])
  {
    if |emptySlots| > 0 {
      TakeEmpty(empty0, repl0, emptySlots, fillerSlots, written, PickIndex(roll(n + 1), |emptySlots|));
    } else {
      TakeReplaceable(empty0, repl0, fillerSlots, written, PickIndex(roll(n + 1), |fillerSlots|));
    }
  }

  /** The pools of a container, as `getSlotPools` returns them. */
  lemma {:induction false} PoolsOfContainer(c: seq<Option<string>>)
    ensures Ascending(EmptyPool(c)) && Ascending(FillerPool(c))
    ensures PoolsOf(c, EmptyPool(c), FillerPool(c))
    decreases |c|
  {
    if |c| > 0 {
      var init := c[..|c| - 1];
      PoolsOfContainer(init);
      AscendingAppend(EmptyPool(init), |init|);
      AscendingAppend(FillerPool(init), |init|);
      assert forall s :: 0 <= s < |init| ==> init[s] == c[s];
    }
  }

  lemma ConcatAssoc<T>(a: seq<T>, b: seq<T>, c: seq<T>)
    ensures a + (b + c) == (a + b) + c
  {
  }

  lemma AscendingAppend(s: seq<nat>, x: nat)
    requires Ascending(s) && forall i :: i in s ==> i < x
    ensures Ascending(s + [x])
  {
    forall i, j | 0 <= i < j < |s| + 1
      ensures (s + [x])[i] < (s + [x])[j]
    {
      if j == |s| {
        assert s[i] in s;
      }
    }
  }

  /** A slot no placement names keeps its item; a placed slot holds an item of some placement for it. */
  lemma {:induction false} PlaceMeaning(c: seq<Option<string>>, ps: seq<(nat, string)>, s: nat)
    requires forall p :: p in ps ==> p.0 < |c|
    requires s < |c|
    ensures s !in Slots(ps) ==> Place(c, ps)[s] == c[s]
    ensures s in Slots(ps) ==> exists p :: p in ps && p.0 == s && Place(c, ps)[s] == Some(p.1)
    decreases |ps|
  {
    if |ps| == 0 {
      return;
    }
    var init, last := ps[..|ps| - 1], ps[|ps| - 1];
    assert Slots(ps) == Slots(init) + [last.0];
    PlaceMeaning(c, init, s);
  }

  /**
    What `injectLoot` promises of the container `c0` it turns into `c`,
    writing the slots `written`: only empty or filler slots are written,
    each once and with an item of the table; every other slot keeps its
    item; and filler is overwritten only once every empty slot has been
    written.
   */
  ghost predicate Shape(table: Table<real>, c0: seq<Option<string>>, c: seq<Option<string>>, written: seq<nat>)
  {
    && |c| == |c0|
    && NoDupSlots(written)
    && |written| <= |table|
    && (forall s :: s in written ==> s < |c0| && Usable(c0[s]))
    && (forall s :: 0 <= s < |c0| && s !in written ==> c[s] == c0[s])
    && (forall s :: s in written ==> c[s].Some? && c[s].value in Keys(table))
    && (forall j :: 0 <= j < |written| && written[j] < |c0| && IsReplaceable(c0[written[j]]) ==>
          forall s :: 0 <= s < |c0| && c0[s].None? ==> s in written[..j])
  }

  /** The container `injectLoot` leaves has the promised shape. */
  lemma InjectedMeaning(table: Table<real>, c0: seq<Option<string>>, roll: nat -> real)
    requires IsRandom(roll)
    ensures Shape(table, c0, Injected(table, c0, roll), Slots(Plan(table, c0, roll)))
  {
    var ps := Plan(table, c0, roll);
    var written := Slots(ps);
    var empty0, repl0 := EmptyPool(c0), FillerPool(c0);
    PoolsOfContainer(c0);
    assert forall s :: s in empty0 ==> s !in repl0;
    PlacementsWritten(table, empty0, repl0, roll, 0, empty0, repl0, []);
    assert [] + written == written;
    forall s | 0 <= s < |c0|
      ensures s !in written ==> Injected(table, c0, roll)[s] == c0[s]
      ensures s in written ==> Injected(table, c0, roll)[s].Some? && Injected(table, c0, roll)[s].value in Keys(table)
    {
      PlaceMeaning(c0, ps, s);
    }
  }
}
