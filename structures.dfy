/**
  Structure detection around a chest (`detectNearbyStructure`): one scan of
  the cube of blocks around it tallies block ids, then the tally is matched
  against the structure definitions in declaration order.
 */
module Structures {
  import opened Wrappers
  import opened Assoc
  import opened Host

  const Chest: string := "minecraft:chest"
  const ChestCluster: string := "chest_cluster"
  const Default: string := "default"

  /**
    A structure definition: an array of block ids that must all be present,
    or an object of block ids with the least number of each.
   */
  datatype Requirement = AllPresent(ids: seq<string>) | AtLeast(amounts: seq<(string, int)>)

  /** The definitions `ChestLootInjector.structures` starts with, in declaration order. */
  const DefaultStructures: Table<Requirement> := [
    ("desert_pyramid", AtLeast([("minecraft:chiseled_sandstone", 2), ("minecraft:tnt", 2)])),
    ("ruined_portal", AllPresent(["minecraft:obsidian", "minecraft:netherrack"])),
    ("buried_treasure", AtLeast([("minecraft:sand", 2), ("minecraft:sandstone", 2)])),
    ("nether_fortress", AtLeast([("minecraft:nether_brick", 2), ("minecraft:nether_brick_fence", 1)])),
    ("bastion", AtLeast([("minecraft:blackstone", 4)])),
    ("pillager_outpost", AtLeast([("minecraft:dark_oak_log", 4), ("minecraft:birch_planks", 4)]))
  ]

  // ---------------------------------------------------------------- the scan

  /** The block id at `p`, if the dimension returns a block there (`getBlock`). */
  function At(blocks: map<Pos, string>, p: Pos): multiset<string>
  {
    if p in blocks then multiset{blocks[p]} else multiset{}
  }

  /** The ids seen along z for dz in [-r, hi), at fixed dx and dy. */
  function Line(blocks: map<Pos, string>, o: Pos, r: int, dx: int, dy: int, hi: int): multiset<string>
    decreases hi + r
  {
    if hi <= -r then multiset{}
    else Line(blocks, o, r, dx, dy, hi - 1) + At(blocks, Pos(o.x + dx, o.y + dy, o.z + hi - 1))
  }

  /** The ids seen for dy in [-r, hi), at fixed dx. */
  function Plane(blocks: map<Pos, string>, o: Pos, r: int, dx: int, hi: int): multiset<string>
    decreases hi + r
  {
    if hi <= -r then multiset{}
    else Plane(blocks, o, r, dx, hi - 1) + Line(blocks, o, r, dx, hi - 1, r + 1)
  }

  /** The ids seen for dx in [-r, hi). */
  function Cube(blocks: map<Pos, string>, o: Pos, r: int, hi: int): multiset<string>
    decreases hi + r
  {
    if hi <= -r then multiset{}
    else Cube(blocks, o, r, hi - 1) + Plane(blocks, o, r, hi - 1, r + 1)
  }

  /** Every block of the cube of radius `r` around `o`, counted once per position. */
  function Scanned(blocks: map<Pos, string>, o: Pos, r: int): multiset<string>
  {
    Cube(blocks, o, r, r + 1)
  }

  /** A position of the cube with a block there contributes its id to the tally. */
  lemma {:induction false} ScannedCounts(blocks: map<Pos, string>, o: Pos, r: int, dx: int, dy: int, dz: int)
    requires -r <= dx <= r && -r <= dy <= r && -r <= dz <= r
    requires Pos(o.x + dx, o.y + dy, o.z + dz) in blocks
    ensures blocks[Pos(o.x + dx, o.y + dy, o.z + dz)] in Scanned(blocks, o, r)
  {
    var id := blocks[Pos(o.x + dx, o.y + dy, o.z + dz)];
    LineHas(blocks, o, r, dx, dy, dz, r + 1);
    PlaneHas(blocks, o, r, dx, dy, r + 1, id);
    CubeHas(blocks, o, r, dx, r + 1, id);
  }

  lemma InSum(a: multiset<string>, b: multiset<string>, x: string)
    requires x in a || x in b
    ensures x in a + b
  {
  }

  lemma {:induction false} LineHas(blocks: map<Pos, string>, o: Pos, r: int, dx: int, dy: int, dz: int, hi: int)
    requires -r <= dz < hi && Pos(o.x + dx, o.y + dy, o.z + dz) in blocks
    ensures blocks[Pos(o.x + dx, o.y + dy, o.z + dz)] in Line(blocks, o, r, dx, dy, hi)
    decreases hi + r
  {
    if dz < hi - 1 {
      LineHas(blocks, o, r, dx, dy, dz, hi - 1);
      LineGrows(blocks, o, r, dx, dy, hi, blocks[Pos(o.x + dx, o.y + dy, o.z + dz)]);
    } else {
      LineLast(blocks, o, r, dx, dy, dz);
    }
  }

  lemma LineGrows(blocks: map<Pos, string>, o: Pos, r: int, dx: int, dy: int, hi: int, id: string)
    requires -r < hi && id in Line(blocks, o, r, dx, dy, hi - 1)
    ensures id in Line(blocks, o, r, dx, dy, hi)
  {
    InSum(Line(blocks, o, r, dx, dy, hi - 1), At(blocks, Pos(o.x + dx, o.y + dy, o.z + hi - 1)), id);
  }

  lemma LineLast(blocks: map<Pos, string>, o: Pos, r: int, dx: int, dy: int, dz: int)
    requires -r <= dz && Pos(o.x + dx, o.y + dy, o.z + dz) in blocks
    ensures blocks[Pos(o.x + dx, o.y + dy, o.z + dz)] in Line(blocks, o, r, dx, dy, dz + 1)
  {
    var p := Pos(o.x + dx, o.y + dy, o.z + dz);
    assert Pos(o.x + dx, o.y + dy, o.z + (dz + 1) - 1) == p;
    InSum(Line(blocks, o, r, dx, dy, dz), At(blocks, p), blocks[p]);
  }

  lemma {:induction false} PlaneHas(blocks: map<Pos, string>, o: Pos, r: int, dx: int, dy: int, hi: int, id: string)
    requires -r <= dy < hi && id in Line(blocks, o, r, dx, dy, r + 1)
    ensures id in Plane(blocks, o, r, dx, hi)
    decreases hi + r
  {
    var rest, last := Plane(blocks, o, r, dx, hi - 1), Line(blocks, o, r, dx, hi - 1, r + 1);
    assert Plane(blocks, o, r, dx, hi) == rest + last;
    if dy < hi - 1 {
      PlaneHas(blocks, o, r, dx, dy, hi - 1, id);
    }
    InSum(rest, last, id);
  }

  lemma {:induction false} CubeHas(blocks: map<Pos, string>, o: Pos, r: int, dx: int, hi: int, id: string)
    requires -r <= dx < hi && id in Plane(blocks, o, r, dx, r + 1)
    ensures id in Cube(blocks, o, r, hi)
    decreases hi + r
  {
    var rest, last := Cube(blocks, o, r, hi - 1), Plane(blocks, o, r, hi - 1, r + 1);
    assert Cube(blocks, o, r, hi) == rest + last;
    if dx < hi - 1 {
      CubeHas(blocks, o, r, dx, hi - 1, id);
    }
    InSum(rest, last, id);
  }

  /**
    The triple loop of `detectNearbyStructure`: `blockCount` as a bag of ids
    (its `get(id) ?? 0` is the bag's multiplicity), and the chest counter.
   */
  method CountBlocks(blocks: map<Pos, string>, origin: Pos, radius: int) returns (blockCount: multiset<string>, chestCount: nat)
    ensures blockCount == Scanned(blocks, origin, radius)
    ensures chestCount == blockCount[Chest]
  {
    blockCount := multiset{};
    chestCount := 0;
    if radius < 0 {
      return;
    }
    for dx := -radius to radius + 1
      invariant blockCount == Cube(blocks, origin, radius, dx)
      invariant chestCount == blockCount[Chest]
    {
      blockCount, chestCount := ScanPlane(blocks, origin, radius, dx, blockCount, chestCount);
    }
  }

  /** The `dy` loop of the scan, adding one plane to the tally. */
  method ScanPlane(blocks: map<Pos, string>, origin: Pos, radius: int, dx: int,
                   count0: multiset<string>, chests0: nat) returns (blockCount: multiset<string>, chestCount: nat)
    requires radius >= 0 && chests0 == count0[Chest]
    ensures blockCount == count0 + Plane(blocks, origin, radius, dx, radius + 1)
    ensures chestCount == blockCount[Chest]
  {
    blockCount, chestCount := count0, chests0;
    for dy := -radius to radius + 1
      invariant blockCount == count0 + Plane(blocks, origin, radius, dx, dy)
      invariant chestCount == blockCount[Chest]
    {
      ghost var before := blockCount;
      blockCount, chestCount := ScanLine(blocks, origin, radius, dx, dy, blockCount, chestCount);
      PlaneStep(blocks, origin, radius, dx, dy, count0, before, blockCount);
    }
  }

  /** The `dz` loop of the scan, adding one line to the tally. */
  method ScanLine(blocks: map<Pos, string>, origin: Pos, radius: int, dx: int, dy: int,
                  count0: multiset<string>, chests0: nat) returns (blockCount: multiset<string>, chestCount: nat)
    requires radius >= 0 && chests0 == count0[Chest]
    ensures blockCount == count0 + Line(blocks, origin, radius, dx, dy, radius + 1)
    ensures chestCount == blockCount[Chest]
  {
    blockCount, chestCount := count0, chests0;
    for dz := -radius to radius + 1
      invariant blockCount == count0 + Line(blocks, origin, radius, dx, dy, dz)
      invariant chestCount == blockCount[Chest]
    {
      var p := Pos(origin.x + dx, origin.y + dy, origin.z + dz);
      ghost var before := blockCount;
      blockCount, chestCount := Tally(blocks, p, blockCount, chestCount);
      LineStep(blocks, origin, radius, dx, dy, dz, count0, before);
    }
  }

  lemma PlaneStep(blocks: map<Pos, string>, o: Pos, r: int, dx: int, dy: int,
                  count0: multiset<string>, before: multiset<string>, after: multiset<string>)
    requires -r <= dy && before == count0 + Plane(blocks, o, r, dx, dy)
    requires after == before + Line(blocks, o, r, dx, dy, r + 1)
    ensures after == count0 + Plane(blocks, o, r, dx, dy + 1)
  {
    assert Plane(blocks, o, r, dx, dy + 1) == Plane(blocks, o, r, dx, dy) + Line(blocks, o, r, dx, dy, r + 1);
  }

  lemma LineStep(blocks: map<Pos, string>, o: Pos, r: int, dx: int, dy: int, dz: int,
                 count0: multiset<string>, before: multiset<string>)
    requires -r <= dz && before == count0 + Line(blocks, o, r, dx, dy, dz)
    ensures before + At(blocks, Pos(o.x + dx, o.y + dy, o.z + dz)) == count0 + Line(blocks, o, r, dx, dy, dz + 1)
  {
  }

  /** The loop body: a missing block is skipped, any other is counted, and a chest also bumps the chest counter. */
  method Tally(blocks: map<Pos, string>, p: Pos, count0: multiset<string>, chests0: nat)
    returns (blockCount: multiset<string>, chestCount: nat)
    requires chests0 == count0[Chest]
    ensures blockCount == count0 + At(blocks, p)
    ensures chestCount == blockCount[Chest]
  {
    blockCount, chestCount := count0, chests0;
    if p !in blocks {
      return;
    }
    var id := blocks[p];
    blockCount := blockCount + multiset{id};
    if id == Chest {
      chestCount := chestCount + 1;
    }
  }

  // ---------------------------------------------------------------- the match

  /** Whether the tally meets a definition; `blockCount.has(id)` is a multiplicity of at least one. */
  predicate Meets(counts: multiset<string>, req: Requirement)
  {
    match req
    case AllPresent(ids) => forall i :: 0 <= i < |ids| ==> ids[i] in counts
    case AtLeast(amounts) => forall i :: 0 <= i < |amounts| ==> counts[amounts[i].0] >= amounts[i].1
  }

  /**
    One definition's check inside `detectNearbyStructure`: `every` over the
    ids of an array, the early-exit loop over the counts of an object.
   */
  method MeetsRequirement(blockCount: multiset<string>, requirement: Requirement) returns (valid: bool)
    ensures valid == Meets(blockCount, requirement)
  {
    match requirement
    case AllPresent(ids) =>
      for i := 0 to |ids|
        invariant forall j :: 0 <= j < i ==> ids[j] in blockCount
      {
        if ids[i] !in blockCount {
          return false;
        }
      }
      return true;
    case AtLeast(amounts) =>
      valid := true;
      for i := 0 to |amounts|
        invariant forall j :: 0 <= j < i ==> blockCount[amounts[j].0] >= amounts[j].1
      {
        var (blockId, requiredAmount) := amounts[i];
        if blockCount[blockId] < requiredAmount {
          valid := false;
          break;
        }
      }
  }

  /** The first definition, in order, that the tally meets. */
  function FirstMatch(structures: Table<Requirement>, counts: multiset<string>): Option<string>
  {
    if |structures| == 0 then None
    else if Meets(counts, structures[0].1) then Some(structures[0].0)
    else FirstMatch(structures[1..], counts)
  }

  /** The structure a scan is classified as. */
  function Classify(structures: Table<Requirement>, counts: multiset<string>): string
  {
    if counts[Chest] >= 6 then ChestCluster
    else FirstMatch(structures, counts).GetOr(Default)
  }

  /** The first match is met and no earlier definition is; nothing matches only when none is met. */
  lemma {:induction false} FirstMatchMeaning(structures: Table<Requirement>, counts: multiset<string>)
    ensures FirstMatch(structures, counts).None? <==> forall i :: 0 <= i < |structures| ==> !Meets(counts, structures[i].1)
    ensures FirstMatch(structures, counts).Some? ==>
      exists i :: 0 <= i < |structures| && structures[i].0 == FirstMatch(structures, counts).value
        && Meets(counts, structures[i].1)
        && forall j :: 0 <= j < i ==> !Meets(counts, structures[j].1)
  {
    if |structures| > 0 && !Meets(counts, structures[0].1) {
      var rest := structures[1..];
      FirstMatchMeaning(rest, counts);
      if FirstMatch(rest, counts).Some? {
        var i :| 0 <= i < |rest| && rest[i].0 == FirstMatch(rest, counts).value
          && Meets(counts, rest[i].1) && forall j :: 0 <= j < i ==> !Meets(counts, rest[j].1);
        assert structures[i + 1] == rest[i];
        forall j | 0 <= j < i + 1 ensures !Meets(counts, structures[j].1) {
          if j > 0 {
            assert structures[j] == rest[j - 1];
          }
        }
      } else {
        forall i | 0 <= i < |structures| ensures !Meets(counts, structures[i].1) {
          if i > 0 {
            assert structures[i] == rest[i - 1];
          }
        }
      }
    }
  }

  /**
    Six or more chests make a chest cluster whatever else matches; below that
    the first definition met wins, and "default" is returned when none is.
   */
  lemma ClassifyMeaning(structures: Table<Requirement>, counts: multiset<string>)
    ensures counts[Chest] >= 6 ==> Classify(structures, counts) == ChestCluster
    ensures counts[Chest] < 6 && (forall i :: 0 <= i < |structures| ==> !Meets(counts, structures[i].1)) ==>
      Classify(structures, counts) == Default
    ensures forall i :: (0 <= i < |structures| && counts[Chest] < 6 && Meets(counts, structures[i].1)
      && (forall j :: 0 <= j < i ==> !Meets(counts, structures[j].1))) ==>
      Classify(structures, counts) == structures[i].0
  {
    FirstMatchMeaning(structures, counts);
    forall i | 0 <= i < |structures| && counts[Chest] < 6 && Meets(counts, structures[i].1)
      && (forall j :: 0 <= j < i ==> !Meets(counts, structures[j].1))
      ensures Classify(structures, counts) == structures[i].0
    {
      var k :| 0 <= k < |structures| && structures[k].0 == FirstMatch(structures, counts).value
        && Meets(counts, structures[k].1) && forall j :: 0 <= j < k ==> !Meets(counts, structures[j].1);
      assert !(k < i) && !(i < k);
    }
  }

  /**
    Order matters: a scan that meets both the desert pyramid and the buried
    treasure counts is a desert pyramid, the earlier definition.
   */
  lemma PyramidBeforeTreasure(counts: multiset<string>)
    requires counts[Chest] < 6
    requires counts["minecraft:chiseled_sandstone"] >= 2 && counts["minecraft:tnt"] >= 2
    requires counts["minecraft:sand"] >= 2 && counts["minecraft:sandstone"] >= 2
    ensures Classify(DefaultStructures, counts) == "desert_pyramid"
  {
    assert Meets(counts, DefaultStructures[0].1);
  }
}
