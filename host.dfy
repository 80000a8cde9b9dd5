/**
  The parts of the game host that the mod reads and writes, reduced to values:
  block positions, item stacks, status effects, the JSON values kept in
  dynamic properties, and the player entity with its tags, effects, dynamic
  properties and inventory.
 */
module Host {
  import opened Wrappers

  /** A block position (block coordinates are integers). */
  datatype Pos = Pos(x: int, y: int, z: int)

  /** An `ItemStack`: a type id and an amount. */
  datatype Stack = Stack(typeId: string, amount: nat)

  /** A status effect currently on an entity. */
  datatype Effect = Effect(amplifier: int, duration: int)

  /**
    What `JSON.parse` gives back for the stat categories stored on a player:
    an object of numbers (stats, passives, actives) or an array of names
    (immunities).
   */
  datatype Json = Obj(fields: map<string, int>) | Arr(items: seq<string>)

  predicate NoDup<T(==)>(s: seq<T>)
  {
    forall i, j :: 0 <= i < j < |s| ==> s[i] != s[j]
  }

  /** `s` with every occurrence of `x` removed, order kept. */
  function Without(s: seq<string>, x: string): (r: seq<string>)
    ensures forall y :: y in r <==> y in s && y != x
    ensures NoDup(s) ==> NoDup(r)
  {
    if |s| == 0 then []
    else if s[0] == x then Without(s[1..], x)
    else
      var rest := Without(s[1..], x);
      assert forall k :: 0 <= k < |rest| ==> rest[k] in s[1..];
      [s[0]] + rest
  }

  /** Removing an element that occurs once takes exactly one copy out. */
  lemma {:induction false} WithoutRemovesOne(s: seq<string>, x: string)
    requires NoDup(s) && x in s
    ensures multiset(Without(s, x)) == multiset(s) - multiset{x}
  {
    if s[0] == x {
      assert x !in s[1..];
      WithoutAbsent(s[1..], x);
      assert s == [x] + s[1..];
    } else {
      WithoutRemovesOne(s[1..], x);
      assert s == [s[0]] + s[1..];
    }
  }

  lemma {:induction false} WithoutAbsent(s: seq<string>, x: string)
    requires x !in s
    ensures Without(s, x) == s
  {
    if |s| > 0 {
      WithoutAbsent(s[1..], x);
      assert s == [s[0]] + s[1..];
    }
  }

  /** Removing the one occurrence of `x` from between two stretches that lack it leaves the two stretches. */
  lemma {:induction false} WithoutMiddle(a: seq<string>, x: string, b: seq<string>)
    requires x !in a && x !in b
    ensures Without(a + [x] + b, x) == a + b
  {
    var s := a + [x] + b;
    if |a| == 0 {
      assert s[0] == x && s[1..] == b;
      WithoutAbsent(b, x);
    } else {
      assert s[0] == a[0] != x && s[1..] == a[1..] + [x] + b;
      WithoutMiddle(a[1..], x, b);
      assert Without(s, x) == [a[0]] + Without(s[1..], x);
      assert a + b == [a[0]] + (a[1..] + b);
    }
  }

  /** A stack as a bag of item ids: `amount` copies of its type id. */
  function StackItems(stack: Stack): multiset<string>
  {
    multiset{}[stack.typeId := stack.amount]
  }

  /** The held stack as a bag of item ids. */
  function HandItems(hand: Option<Stack>): multiset<string>
  {
    if hand.Some? then multiset{}[hand.value.typeId := hand.value.amount] else multiset{}
  }

  /** `n` single items of type `id`, as a stack of `n` lands in the inventory or on the ground. */
  function Copies(id: string, n: nat): (r: seq<string>)
    ensures |r| == n && multiset(r) == StackItems(Stack(id, n))
  {
    if n == 0 then []
    else
      var r := Copies(id, n - 1) + [id];
      assert multiset(r) == multiset(Copies(id, n - 1)) + multiset{id};
      r
  }

  /**
    A player entity. Tags are kept in insertion order without repetitions,
    as `getTags()` reports them. `effects` is keyed by the effect id as the
    script spelled it: the engine's `minecraft:` namespacing of a bare name is
    not applied. `props` holds the dynamic properties that hold
    the stat categories, `jumps` the `dorios:extraJumps` property (absent reads
    as 0). Items given to the player land in `received` while the inventory has
    a free slot and are otherwise dropped at the player's feet (`dropped`).
   */
  class Player {
    const id: string
    const hasInventory: bool
    var tags: seq<string>
    var effects: map<string, Effect>
    var props: map<string, Json>
    var jumps: int
    var freeSlots: nat
    var received: seq<string>
    var dropped: seq<string>
    var hand: Option<Stack>

    ghost predicate Valid()
      reads this
    {
      && NoDup(tags)
      && (hand.Some? ==> hand.value.amount >= 1)
    }

    /** Everything handed to the player so far, whether it reached the inventory or the ground. */
    function Given(): multiset<string>
      reads this
    {
      multiset(received) + multiset(dropped)
    }

    /**
      What the player owns in trinket terms: the held stack, what was handed
      over, and one item per tag (an equipped trinket is recorded as its tag).
     */
    function Possessions(): multiset<string>
      reads this
    {
      HandItems(hand) + Given() + multiset(tags)
    }

    constructor (id: string, hasInventory: bool, freeSlots: nat, tags: seq<string>)
      requires NoDup(tags)
      ensures Valid()
      ensures this.id == id && this.hasInventory == hasInventory && this.freeSlots == freeSlots
      ensures this.tags == tags && effects == map[] && props == map[] && jumps == 0
      ensures received == [] && dropped == [] && hand == None
    {
      this.id := id;
      this.hasInventory := hasInventory;
      this.freeSlots := freeSlots;
      this.tags := tags;
      effects := map[];
      props := map[];
      jumps := 0;
      received := [];
      dropped := [];
      hand := None;
    }

    /** `addTag`: a tag already present is not added twice. */
    method AddTag(t: string)
      requires Valid()
      modifies this`tags
      ensures Valid()
      ensures tags == if t in old(tags) then old(tags) else old(tags) + [t]
    {
      if t !in tags {
        tags := tags + [t];
      }
    }

    /** `removeTag`. */
    method RemoveTag(t: string)
      requires Valid()
      modifies this`tags
      ensures Valid()
      ensures tags == Without(old(tags), t)
      ensures t in old(tags) ==> multiset(tags) == multiset(old(tags)) - multiset{t}
    {
      if t in tags {
        WithoutRemovesOne(tags, t);
      }
      tags := Without(tags, t);
    }

    /**
      `addItem` into the inventory when it has an empty slot, otherwise
      `dimension.spawnItem` at the player's location.
     */
    method GiveItem(item: string)
      modifies this`freeSlots, this`received, this`dropped
      ensures if hasInventory && old(freeSlots) > 0
              then received == old(received) + [item] && freeSlots == old(freeSlots) - 1 && dropped == old(dropped)
              else dropped == old(dropped) + [item] && freeSlots == old(freeSlots) && received == old(received)
      ensures Given() == old(Given()) + multiset{item}
    {
      if hasInventory && freeSlots > 0 {
        received := received + [item];
        freeSlots := freeSlots - 1;
      } else {
        dropped := dropped + [item];
      }
    }

    /**
      `addItem(stack)` into the inventory when it has an empty slot, otherwise
      `dimension.spawnItem(stack)`: every item of the stack is handed over.
     */
    method GiveStack(stack: Stack)
      modifies this`freeSlots, this`received, this`dropped
      ensures if hasInventory && old(freeSlots) > 0
              then received == old(received) + Copies(stack.typeId, stack.amount)
                   && freeSlots == old(freeSlots) - 1 && dropped == old(dropped)
              else dropped == old(dropped) + Copies(stack.typeId, stack.amount)
                   && freeSlots == old(freeSlots) && received == old(received)
      ensures Given() == old(Given()) + StackItems(stack)
    {
      var items := Copies(stack.typeId, stack.amount);
      if hasInventory && freeSlots > 0 {
        received := received + items;
        freeSlots := freeSlots - 1;
      } else {
        dropped := dropped + items;
      }
    }
  }
}
