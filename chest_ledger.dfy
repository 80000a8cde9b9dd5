/**
  The ledger of chests that must not receive loot (`ChestLootInjector`'s
  position keys, regional chest sets and their marks), and the piston
  handler that carries marks along with moved blocks. The chest sets live in
  world dynamic properties named `<base>:<rx>,<rz>`, one per 256x256 region;
  a stored JSON object `{ "<x>,<y>,<z>": 1, ... }` is read as the set of its
  keys, and a missing property as the empty set.
 */
module ChestLedger {
  import opened Strings
  import opened Host

  const PlacedChestsKey: string := "dorios:placed_chests"
  const OpenedChestsKey: string := "dorios:opened_chests"
  const RegionSize: int := 256

  /** The world's dynamic properties that hold chest sets, by property id. */
  type Ledger = map<string, set<string>>

  /** The two ledgers a chest can be marked in. */
  predicate IsBase(base: string)
  {
    base == PlacedChestsKey || base == OpenedChestsKey
  }

  /** `posKey`: "x,y,z". */
  function PosKey(p: Pos): string
  {
    Join([IntToString(p.x), IntToString(p.y), IntToString(p.z)], ',')
  }

  /** Distinct positions have distinct keys. */
  lemma PosKeyInjective(p: Pos, q: Pos)
    requires PosKey(p) == PosKey(q)
    ensures p == q
  {
    ParseIntToString(p.x); ParseIntToString(p.y); ParseIntToString(p.z);
    ParseIntToString(q.x); ParseIntToString(q.y); ParseIntToString(q.z);
    var a := [IntToString(p.x), IntToString(p.y), IntToString(p.z)];
    var b := [IntToString(q.x), IntToString(q.y), IntToString(q.z)];
    JoinInjective(a, b, ',');
    assert a[0] == b[0] && a[1] == b[1] && a[2] == b[2];
  }

  /**
    `regionKey`: "rx,rz" with rx and rz the x and z coordinates divided by 256
    and rounded down (`Math.floor`; Dafny's division by a positive number
    rounds down too).
   */
  function RegionKey(p: Pos): string
  {
    Join([IntToString(p.x / RegionSize), IntToString(p.z / RegionSize)], ',')
  }

  /**
    Two positions share a region key exactly when they lie in the same
    256-block column of x and of z, whatever their heights; the region
    index is the rounded-down quotient.
   */
  lemma RegionKeyMeaning(p: Pos, q: Pos)
    ensures RegionKey(p) == RegionKey(q) <==> p.x / RegionSize == q.x / RegionSize && p.z / RegionSize == q.z / RegionSize
    ensures RegionSize * (p.x / RegionSize) <= p.x < RegionSize * (p.x / RegionSize) + RegionSize
    ensures RegionSize * (p.z / RegionSize) <= p.z < RegionSize * (p.z / RegionSize) + RegionSize
  {
    if RegionKey(p) == RegionKey(q) {
      var a := [IntToString(p.x / RegionSize), IntToString(p.z / RegionSize)];
      var b := [IntToString(q.x / RegionSize), IntToString(q.z / RegionSize)];
      ParseIntToString(p.x / RegionSize); ParseIntToString(p.z / RegionSize);
      ParseIntToString(q.x / RegionSize); ParseIntToString(q.z / RegionSize);
      JoinInjective(a, b, ',');
      assert a[0] == b[0] && a[1] == b[1];
    }
  }

  /** `regionPropertyKey`: "<base>:<regionKey>". */
  function RegionPropertyKey(base: string, p: Pos): string
  {
    base + ":" + RegionKey(p)
  }

  /** The placed and opened ledgers of a region are different properties. */
  lemma BasesApart(p: Pos, q: Pos)
    ensures RegionPropertyKey(PlacedChestsKey, p) != RegionPropertyKey(OpenedChestsKey, q)
  {
    assert RegionPropertyKey(PlacedChestsKey, p)[7] == 'p';
    assert RegionPropertyKey(OpenedChestsKey, q)[7] == 'o';
  }

  /** `getChestSet`. */
  function ChestSet(props: Ledger, base: string, p: Pos): set<string>
  {
    var key := RegionPropertyKey(base, p);
    if key in props then props[key] else {}
  }

  predicate Marked(props: Ledger, base: string, p: Pos)
  {
    PosKey(p) in ChestSet(props, base, p)
  }

  /** `canInjectChest`: neither placed by a player nor opened before. */
  predicate CanInject(props: Ledger, p: Pos)
  {
    !Marked(props, PlacedChestsKey, p) && !Marked(props, OpenedChestsKey, p)
  }

  /** The ledger after `markChestOpened` / `markChestPlaced` / `markPosPlaced` at `p`. */
  function WithMark(props: Ledger, base: string, p: Pos): Ledger
  {
    props[RegionPropertyKey(base, p) := ChestSet(props, base, p) + {PosKey(p)}]
  }

  /** After a mark the chest can no longer receive loot, and marking it again changes nothing. */
  lemma MarkBlocks(props: Ledger, base: string, p: Pos)
    requires IsBase(base)
    ensures Marked(WithMark(props, base, p), base, p)
    ensures !CanInject(WithMark(props, base, p), p)
    ensures WithMark(WithMark(props, base, p), base, p) == WithMark(props, base, p)
    ensures Marked(props, base, p) ==> WithMark(props, base, p) == props
  {
    if Marked(props, base, p) {
      var key := RegionPropertyKey(base, p);
      assert key in props;
      assert ChestSet(props, base, p) + {PosKey(p)} == props[key];
    }
  }

  /** A mark at `p` leaves every mark, in either ledger, of every other position as it was. */
  lemma MarkLocal(props: Ledger, base: string, p: Pos, base': string, q: Pos)
    requires IsBase(base) && IsBase(base') && p != q
    ensures Marked(WithMark(props, base, p), base', q) == Marked(props, base', q)
  {
    if base != base' {
      if base == PlacedChestsKey {
        BasesApart(p, q);
      } else {
        BasesApart(q, p);
      }
    } else if PosKey(q) == PosKey(p) {
      PosKeyInjective(p, q);
    }
  }

  /** Marks are never lost: a mark anywhere keeps every existing mark. */
  lemma MarkKeeps(props: Ledger, base: string, p: Pos, base': string, q: Pos)
    requires Marked(props, base', q)
    ensures Marked(WithMark(props, base, p), base', q)
  {
  }

  /** `markChestOpened` or `markChestPlaced` changes injectability at its own position only. */
  lemma MarkKeepsOthersInjectable(props: Ledger, base: string, p: Pos, q: Pos)
    requires IsBase(base) && p != q
    ensures CanInject(WithMark(props, base, p), q) == CanInject(props, q)
  {
    MarkLocal(props, base, p, PlacedChestsKey, q);
    MarkLocal(props, base, p, OpenedChestsKey, q);
  }

  /** The dynamic properties `resetChestTracking` deletes. */
  predicate Tracked(id: string)
  {
    HasPrefix(id, PlacedChestsKey) || HasPrefix(id, OpenedChestsKey)
  }

  /** The properties left after `resetChestTracking`. */
  function Cleared(props: Ledger): Ledger
  {
    map id | id in props && !Tracked(id) :: props[id]
  }

  /** After a reset every position can receive loot again; other properties are kept. */
  lemma ResetClears(props: Ledger, p: Pos)
    ensures CanInject(Cleared(props), p)
    ensures forall id :: !Tracked(id) ==> (id in Cleared(props) <==> id in props)
  {
    var placedKey := RegionPropertyKey(PlacedChestsKey, p);
    var openedKey := RegionPropertyKey(OpenedChestsKey, p);
    assert placedKey[..|PlacedChestsKey|] == PlacedChestsKey;
    assert openedKey[..|OpenedChestsKey|] == OpenedChestsKey;
  }

  /**
    The world's dynamic properties as far as the ledger goes; each method is
    the static method of `ChestLootInjector` of the same name.
   */
  class World {
    var props: Ledger

    constructor (props: Ledger)
      ensures this.props == props
    {
      this.props := props;
    }

    /** `saveChestSet`. */
    method SaveChestSet(base: string, p: Pos, chests: set<string>)
      modifies this
      ensures props == old(props)[RegionPropertyKey(base, p) := chests]
    {
      props := props[RegionPropertyKey(base, p) := chests];
    }

    /** Read the region's set, add the position, save the set. */
    method Mark(base: string, p: Pos)
      modifies this
      ensures props == WithMark(old(props), base, p)
    {
      var key := PosKey(p);
      var chests := ChestSet(props, base, p);
      chests := chests + {key};
      SaveChestSet(base, p, chests);
    }

    method MarkChestOpened(p: Pos)
      modifies this
      ensures props == WithMark(old(props), OpenedChestsKey, p)
    {
      Mark(OpenedChestsKey, p);
    }

    method MarkChestPlaced(p: Pos)
      modifies this
      ensures props == WithMark(old(props), PlacedChestsKey, p)
    {
      Mark(PlacedChestsKey, p);
    }

    method MarkPosPlaced(p: Pos)
      modifies this
      ensures props == WithMark(old(props), PlacedChestsKey, p)
    {
      Mark(PlacedChestsKey, p);
    }

    /** `canInjectChest`: the placed ledger first, then the opened one. */
    method CanInjectChest(p: Pos) returns (r: bool)
      ensures r == CanInject(props, p)
    {
      var key := PosKey(p);
      var placedSet := ChestSet(props, PlacedChestsKey, p);
      if key in placedSet {
        return false;
      }
      var openedSet := ChestSet(props, OpenedChestsKey, p);
      if key in openedSet {
        return false;
      }
      return true;
    }

    /** `isChestMarkedAt`: the negation of `canInjectChest`. */
    method IsChestMarkedAt(p: Pos) returns (r: bool)
      ensures r == !CanInject(props, p)
    {
      var can := CanInjectChest(p);
      r := !can;
    }

    /** `resetChestTracking`: delete every property whose id starts with either ledger's key. */
    method ResetChestTracking()
      modifies this
      ensures props == Cleared(old(props))
    {
      ghost var p0 := props;
      var ids := props.Keys;
      while ids != {}
        invariant ids <= p0.Keys
        invariant props == map id | id in p0 && (id in ids || !Tracked(id)) :: p0[id]
        decreases ids
      {
        var id :| id in ids;
        if Tracked(id) {
          props := props - {id};
        }
        ids := ids - {id};
      }
    }
  }

  // ---------------------------------------------------------------- pistons

  /** `getDirectionVector`: a piston's `facing_direction` as a unit vector, zero for other values. */
  function DirectionVector(dir: int): (v: Pos)
    ensures 0 <= dir < 6 ==> Abs(v.x) + Abs(v.y) + Abs(v.z) == 1
    ensures !(0 <= dir < 6) ==> v == Pos(0, 0, 0)
  {
    match dir
    case 0 => Pos(0, -1, 0)
    case 1 => Pos(0, 1, 0)
    case 2 => Pos(0, 0, -1)
    case 3 => Pos(0, 0, 1)
    case 4 => Pos(-1, 0, 0)
    case 5 => Pos(1, 0, 0)
    case _ => Pos(0, 0, 0)
  }

  function Abs(n: int): nat
  {
    if n < 0 then -n else n
  }

  /** The six facings point six different ways. */
  lemma DirectionsDistinct(a: int, b: int)
    requires 0 <= a < 6 && 0 <= b < 6 && a != b
    ensures DirectionVector(a) != DirectionVector(b)
  {
  }

  /** `offsetPos`. */
  function OffsetPos(p: Pos, v: Pos, amount: int): Pos
  {
    Pos(p.x + v.x * amount, p.y + v.y * amount, p.z + v.z * amount)
  }

  /** The piston loop's body for one attached location. */
  function PistonStep(props: Ledger, p: Pos, v: Pos, step: int): Ledger
  {
    if CanInject(props, p) then props
    else WithMark(WithMark(props, PlacedChestsKey, p), PlacedChestsKey, OffsetPos(p, v, step))
  }

  /** The ledger after the piston loop over `locations`, in order. */
  function PistonMarks(props: Ledger, locations: seq<Pos>, v: Pos, step: int): Ledger
  {
    if |locations| == 0 then props
    else
      var n := |locations| - 1;
      PistonStep(PistonMarks(props, locations[..n], v, step), locations[n], v, step)
  }

  /** The piston handler never removes a mark. */
  lemma {:induction false} PistonKeepsMarks(props: Ledger, locations: seq<Pos>, v: Pos, step: int, base: string, q: Pos)
    requires Marked(props, base, q)
    ensures Marked(PistonMarks(props, locations, v, step), base, q)
  {
    if |locations| > 0 {
      PistonKeepsMarks(props, locations[..|locations| - 1], v, step, base, q);
    }
  }

  /** When no attached location is marked, the handler changes nothing. */
  lemma {:induction false} PistonIgnoresUnmarked(props: Ledger, locations: seq<Pos>, v: Pos, step: int)
    requires forall i :: 0 <= i < |locations| ==> CanInject(props, locations[i])
    ensures PistonMarks(props, locations, v, step) == props
  {
    if |locations| > 0 {
      var n := |locations| - 1;
      PistonIgnoresUnmarked(props, locations[..n], v, step);
    }
  }

  /** A marked attached location ends up marked placed, and so does where its block moves to. */
  lemma {:induction false} PistonMarksBoth(props: Ledger, locations: seq<Pos>, v: Pos, step: int, i: nat)
    requires i < |locations| && !CanInject(props, locations[i])
    ensures Marked(PistonMarks(props, locations, v, step), PlacedChestsKey, locations[i])
    ensures Marked(PistonMarks(props, locations, v, step), PlacedChestsKey, OffsetPos(locations[i], v, step))
  {
    var n := |locations| - 1;
    var before := PistonMarks(props, locations[..n], v, step);
    var p := locations[i];
    if i < n {
      PistonMarksBoth(props, locations[..n], v, step, i);
      assert locations[..n][i] == p;
    } else {
      if Marked(props, PlacedChestsKey, p) {
        PistonKeepsMarks(props, locations[..n], v, step, PlacedChestsKey, p);
      } else {
        PistonKeepsMarks(props, locations[..n], v, step, OpenedChestsKey, p);
      }
      MarkBlocks(before, PlacedChestsKey, p);
    }
  }

  /** Every mark the handler adds is on an attached location or on where its block moves to. */
  lemma {:induction false} PistonMarksOnlyMoved(props: Ledger, locations: seq<Pos>, v: Pos, step: int, base: string, q: Pos)
    requires IsBase(base)
    requires Marked(PistonMarks(props, locations, v, step), base, q) && !Marked(props, base, q)
    ensures base == PlacedChestsKey
    ensures exists i :: 0 <= i < |locations| && (q == locations[i] || q == OffsetPos(locations[i], v, step))
  {
    var n := |locations| - 1;
    var before := PistonMarks(props, locations[..n], v, step);
    var p := locations[n];
    if Marked(before, base, q) {
      PistonMarksOnlyMoved(props, locations[..n], v, step, base, q);
      var i :| 0 <= i < n && (q == locations[..n][i] || q == OffsetPos(locations[..n][i], v, step));
      assert locations[..n][i] == locations[i];
    } else {
      var dest := OffsetPos(p, v, step);
      if q != p && q != dest {
        MarkLocal(before, PlacedChestsKey, p, base, q);
        MarkLocal(WithMark(before, PlacedChestsKey, p), PlacedChestsKey, dest, base, q);
        assert false;
      }
      if base != PlacedChestsKey {
        if q == p {
          BasesApart(p, p);
        } else {
          BasesApart(dest, dest);
          BasesApart(p, dest);
        }
      }
    }
  }

  /**
    The `pistonActivate` handler: for each attached location that is marked,
    mark it placed and mark placed where its block moves, one step along the
    facing when the piston retracts and one step against it when it expands.
   */
  method OnPistonActivate(world: World, locations: seq<Pos>, facing: int, isExpanding: bool)
    modifies world
    ensures world.props == PistonMarks(old(world.props), locations, DirectionVector(facing), if isExpanding then -1 else 1)
  {
    if |locations| == 0 {
      return;
    }
    var dirVec := DirectionVector(facing);
    var step := if isExpanding then -1 else 1;
    for k := 0 to |locations|
      invariant world.props == PistonMarks(old(world.props), locations[..k], dirVec, step)
    {
      assert locations[..k + 1][..k] == locations[..k];
      var pos := locations[k];
      var marked := world.IsChestMarkedAt(pos);
      if !marked {
        continue;
      }
      world.MarkPosPlaced(pos);
      var destPos := OffsetPos(pos, dirVec, step);
      world.MarkPosPlaced(destPos);
    }
    assert locations[..|locations|] == locations;
  }
}
