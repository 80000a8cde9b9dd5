/**
  The stat resolver (BP/scripts/Core/stats_manager.js): from the tags on a
  player and the registry of contribution records it computes the resolved
  stat sheet -- clamped and quantised stats, additive passive and active
  effect levels with opposing pairs collapsed to their net effect, and the
  de-duplicated union of immunities -- and keeps it in the player's dynamic
  properties.
 */
module StatsManager {
  import opened Wrappers
  import opened Host
  import opened Config

  datatype Category = Passives | Actives

  /** The resolved stat sheet. */
  datatype Sheet = Sheet(stats: map<string, int>, passives: map<string, int>, actives: map<string, int>, immunities: seq<string>)

  // ---------------------------------------------------------------------------
  // What a tag contributes

  /** `data[tag]?.passives` or `data[tag]?.actives`; nothing for an unregistered tag. */
  function Levels(data: map<string, Entry>, tag: string, cat: Category): map<string, int>
  {
    if tag !in data then map[]
    else if cat.Passives? then data[tag].passives
    else data[tag].actives
  }

  /** A number that tags contribute to additively: a stat delta or an effect level. */
  datatype Query = StatQ(stat: string) | LevelQ(cat: Category, effect: string)

  function Contribution(data: map<string, Entry>, tag: string, q: Query): int
  {
    match q
    case StatQ(s) => if tag in data && s in data[tag].stats then data[tag].stats[s] else 0
    case LevelQ(c, e) => var lv := Levels(data, tag, c); if e in lv then lv[e] else 0
  }

  /** The sum of a query's contributions over the tags, in tag order. */
  function SumOver(tags: seq<string>, data: map<string, Entry>, q: Query): int
  {
    if |tags| == 0 then 0
    else SumOver(tags[..|tags| - 1], data, q) + Contribution(data, tags[|tags| - 1], q)
  }

  lemma {:induction false} SumOverAppend(a: seq<string>, b: seq<string>, data: map<string, Entry>, q: Query)
    ensures SumOver(a + b, data, q) == SumOver(a, data, q) + SumOver(b, data, q)
    decreases |b|
  {
    if |b| > 0 {
      assert (a + b)[..|a + b| - 1] == a + b[..|b| - 1];
      SumOverAppend(a, b[..|b| - 1], data, q);
    } else {
      assert a + b == a;
    }
  }

  /** The order of the tags does not matter to a sum. */
  lemma {:induction false} SumOverPermutation(a: seq<string>, b: seq<string>, data: map<string, Entry>, q: Query)
    requires multiset(a) == multiset(b)
    ensures SumOver(a, data, q) == SumOver(b, data, q)
    decreases |a|
  {
    if |a| == 0 {
      assert |b| == |multiset(b)| == 0;
    } else {
      var x := a[|a| - 1];
      var a' := a[..|a| - 1];
      assert a == a' + [x];
      assert x in multiset(b);
      var i :| 0 <= i < |b| && b[i] == x;
      assert b == b[..i] + [x] + b[i + 1..];
      assert multiset(a') == multiset(b[..i] + b[i + 1..]) by {
        calc {
          multiset(a');
          multiset(a) - multiset{x};
          multiset(b[..i] + [x] + b[i + 1..]) - multiset{x};
          multiset(b[..i] + b[i + 1..]);
        }
      }
      SumOverPermutation(a', b[..i] + b[i + 1..], data, q);
      SumOverAppend(b[..i], b[i + 1..], data, q);
      SumOverAppend(b[..i] + [x], b[i + 1..], data, q);
      SumOverAppend(b[..i], [x], data, q);
      SumOverAppend(a', [x], data, q);
      assert SumOver([x], data, q) == Contribution(data, x, q) by {
        assert [x][..0] == [];
      }
    }
  }

  /** Tags without a record contribute nothing. */
  lemma {:induction false} SumOverUnregistered(tags: seq<string>, data: map<string, Entry>, q: Query)
    requires forall k :: 0 <= k < |tags| ==> tags[k] !in data
    ensures SumOver(tags, data, q) == 0
  {
    if |tags| > 0 {
      SumOverUnregistered(tags[..|tags| - 1], data, q);
    }
  }

  // ---------------------------------------------------------------------------
  // Stats: default plus the deltas, clamped, then floored to the scale

  function Clamp(c: StatConfig, total: int): int
  {
    if c.min.Some? && c.max.Some? then
      var lo := if total < c.min.value then c.min.value else total;
      if lo > c.max.value then c.max.value else lo
    else total
  }

  /**
    One stat's resolved value from its summed total. The value is a multiple
    of the scale (the largest one not above the clamped total) and, for a
    well-formed row with bounds, lies within them whatever the total.
   */
  function ResolveStat(c: StatConfig, total: int): (r: int)
    ensures c.scale > 0 ==> r % c.scale == 0 && r <= Clamp(c, total) < r + c.scale
    ensures c.scale == 0 ==> r == Clamp(c, total)
    ensures WellFormedStat(c) && c.min.Some? ==> c.min.value <= r <= c.max.value
  {
    var t := Clamp(c, total);
    if c.scale > 0 then
      if WellFormedStat(c) && c.min.Some? then
        QuantizeDownIsLargest(t, c.scale, c.min.value);
        QuantizeDown(t, c.scale)
      else QuantizeDown(t, c.scale)
    else t
  }

  /** `scale * Math.floor(t / scale)` for a positive scale (Dafny's `/` floors for a positive divisor). */
  function QuantizeDown(t: int, scale: nat): (r: int)
    requires scale > 0
    ensures r % scale == 0 && r <= t < r + scale
  {
    var q := t / scale;
    assert t == scale * q + t % scale;
    MultipleMod(q, scale);
    scale * q
  }

  /** No multiple of the scale lies strictly between the quantised value and `t`. */
  lemma QuantizeDownIsLargest(t: int, scale: nat, m: int)
    requires scale > 0 && m % scale == 0 && m <= t
    ensures m <= QuantizeDown(t, scale)
  {
    var q := t / scale;
    assert t == scale * q + t % scale;
    assert m == scale * (m / scale) + m % scale;
    if m / scale > q {
      MonotoneProduct(q + 1, m / scale, scale);
    }
  }

  lemma MultipleMod(q: int, scale: nat)
    requires scale > 0
    ensures (scale * q) % scale == 0
  {
    var m := scale * q;
    var k := q - m / scale;
    assert m == scale * (m / scale) + m % scale;
    assert m % scale == scale * k;
    if k >= 1 {
      MonotoneProduct(1, k, scale);
    } else if k <= -1 {
      MonotoneProduct(k, -1, scale);
    }
  }

  lemma MonotoneProduct(a: int, b: int, scale: nat)
    requires a <= b
    ensures scale * a <= scale * b
  {
  }

  /** The resolved stats for the rows of `cfg`. */
  function StatsFrom(cfg: seq<(string, StatConfig)>, tags: seq<string>, data: map<string, Entry>): map<string, int>
  {
    if |cfg| == 0 then map[]
    else
      StatsFrom(cfg[..|cfg| - 1], tags, data)[cfg[|cfg| - 1].0 := StatValue(cfg[|cfg| - 1], tags, data)]
  }

  /** The resolved value of one configured stat. */
  function StatValue(row: (string, StatConfig), tags: seq<string>, data: map<string, Entry>): int
  {
    ResolveStat(row.1, row.1.base + SumOver(tags, data, StatQ(row.0)))
  }

  lemma {:induction false} StatsFromAt(cfg: seq<(string, StatConfig)>, tags: seq<string>, data: map<string, Entry>)
    requires forall i, j :: 0 <= i < j < |cfg| ==> cfg[i].0 != cfg[j].0
    ensures forall n :: n in StatsFrom(cfg, tags, data) ==> exists i :: 0 <= i < |cfg| && cfg[i].0 == n
    ensures forall i :: 0 <= i < |cfg| ==>
      cfg[i].0 in StatsFrom(cfg, tags, data) && StatsFrom(cfg, tags, data)[cfg[i].0] == StatValue(cfg[i], tags, data)
  {
    if |cfg| > 0 {
      var init := cfg[..|cfg| - 1];
      StatsFromAt(init, tags, data);
      var r := StatsFrom(cfg, tags, data);
      forall n | n in r ensures exists i :: 0 <= i < |cfg| && cfg[i].0 == n {
        if n != cfg[|cfg| - 1].0 {
          assert n in StatsFrom(init, tags, data);
          var i :| 0 <= i < |init| && init[i].0 == n;
          assert cfg[i] == init[i];
        }
      }
      forall i | 0 <= i < |cfg|
        ensures cfg[i].0 in r && r[cfg[i].0] == StatValue(cfg[i], tags, data)
      {
        if i < |init| {
          assert cfg[i] == init[i];
        }
      }
    }
  }

  // ---------------------------------------------------------------------------
  // Passives and actives: additive levels

  /** Every effect name any tag's record mentions in the category. */
  function EffectNames(tags: seq<string>, data: map<string, Entry>, cat: Category): set<string>
  {
    if |tags| == 0 then {}
    else EffectNames(tags[..|tags| - 1], data, cat) + Levels(data, tags[|tags| - 1], cat).Keys
  }

  lemma {:induction false} EffectNamesMember(tags: seq<string>, data: map<string, Entry>, cat: Category, e: string)
    ensures e in EffectNames(tags, data, cat) <==> exists k :: 0 <= k < |tags| && e in Levels(data, tags[k], cat)
  {
    if |tags| > 0 {
      var init := tags[..|tags| - 1];
      EffectNamesMember(init, data, cat, e);
      if e in EffectNames(init, data, cat) {
        var k :| 0 <= k < |init| && e in Levels(data, init[k], cat);
        assert tags[k] == init[k];
      }
      if exists k :: 0 <= k < |tags| && e in Levels(data, tags[k], cat) {
        var k :| 0 <= k < |tags| && e in Levels(data, tags[k], cat);
        if k < |init| { assert init[k] == tags[k]; }
      }
    }
  }

  /** An effect no tag mentions sums to zero. */
  lemma {:induction false} SumOverAbsentEffect(tags: seq<string>, data: map<string, Entry>, cat: Category, e: string)
    requires e !in EffectNames(tags, data, cat)
    ensures SumOver(tags, data, LevelQ(cat, e)) == 0
  {
    if |tags| > 0 {
      SumOverAbsentEffect(tags[..|tags| - 1], data, cat, e);
    }
  }

  /** The accumulated levels before conflict resolution: one key per mentioned effect, holding the sum of its levels. */
  function EffectTotals(tags: seq<string>, data: map<string, Entry>, cat: Category): map<string, int>
  {
    map e | e in EffectNames(tags, data, cat) :: SumOver(tags, data, LevelQ(cat, e))
  }

  // ---------------------------------------------------------------------------
  // Immunities: union without duplicates, first occurrence first

  /** `data[tag]?.immunities` when it is an array, otherwise nothing. */
  function ImmunitiesOf(data: map<string, Entry>, tag: string): seq<string>
  {
    if tag in data && data[tag].immunities.Some? then data[tag].immunities.value else []
  }

  function AllImmunities(tags: seq<string>, data: map<string, Entry>): seq<string>
  {
    if |tags| == 0 then []
    else AllImmunities(tags[..|tags| - 1], data) + ImmunitiesOf(data, tags[|tags| - 1])
  }

  lemma {:induction false} AllImmunitiesMember(tags: seq<string>, data: map<string, Entry>, x: string)
    ensures x in AllImmunities(tags, data) <==> exists k :: 0 <= k < |tags| && x in ImmunitiesOf(data, tags[k])
  {
    if |tags| > 0 {
      var init := tags[..|tags| - 1];
      AllImmunitiesMember(init, data, x);
      if x in AllImmunities(init, data) {
        var k :| 0 <= k < |init| && x in ImmunitiesOf(data, init[k]);
        assert tags[k] == init[k];
      }
      if exists k :: 0 <= k < |tags| && x in ImmunitiesOf(data, tags[k]) {
        var k :| 0 <= k < |tags| && x in ImmunitiesOf(data, tags[k]);
        if k < |init| { assert init[k] == tags[k]; }
      }
    }
  }

  /** What `[...new Set(s)]` gives: each element once, in order of first occurrence. */
  function Dedup(s: seq<string>): seq<string>
  {
    if |s| == 0 then []
    else
      var d := Dedup(s[..|s| - 1]);
      if s[|s| - 1] in d then d else d + [s[|s| - 1]]
  }

  /** `Dedup` keeps exactly the elements of its input, each once. */
  lemma {:induction false} DedupProperties(s: seq<string>)
    ensures NoDup(Dedup(s))
    ensures forall x :: x in Dedup(s) <==> x in s
  {
    if |s| > 0 {
      var init := s[..|s| - 1];
      DedupProperties(init);
      assert s == init + [s[|s| - 1]];
    }
  }

  // ---------------------------------------------------------------------------
  // Conflict resolution between opposing effects

  /** The opposing effect pairs, in the order the source resolves them. */
  const ConflictPairs: seq<(string, string)> := [
    ("poison", "regeneration"),
    ("weakness", "strength"),
    ("mining_fatigue", "haste"),
    ("slowness", "speed")]

  const PairNames: set<string> := {"poison", "regeneration", "weakness", "strength", "mining_fatigue", "haste", "slowness", "speed"}

  /** `m[k] ?? 0`. */
  function Get0(m: map<string, int>, k: string): int
  {
    if k in m then m[k] else 0
  }

  /** One pair: when either side is positive the larger keeps the difference and the other goes; a tie removes both. */
  function ResolvePair(m: map<string, int>, a: string, b: string): map<string, int>
  {
    var av, bv := Get0(m, a), Get0(m, b);
    if av > 0 || bv > 0 then
      if av - bv > 0 then m[a := av - bv] - {b}
      else if av - bv < 0 then m[b := bv - av] - {a}
      else m - {a, b}
    else m
  }

  function ResolveAll(m: map<string, int>, pairs: seq<(string, string)>): map<string, int>
  {
    if |pairs| == 0 then m
    else
      var p := pairs[|pairs| - 1];
      ResolvePair(ResolveAll(m, pairs[..|pairs| - 1]), p.0, p.1)
  }

  function ResolveConflicts(m: map<string, int>): map<string, int>
  {
    ResolveAll(m, ConflictPairs)
  }

  /** Key `k` is present in `r` exactly when in `m`, with the same level. */
  predicate Untouched(m: map<string, int>, r: map<string, int>, k: string)
  {
    (k in r <==> k in m) && (k in m ==> r[k] == m[k])
  }

  /** What resolving the pair (a, b) of `m` leaves in `r`. */
  predicate PairOutcome(m: map<string, int>, r: map<string, int>, a: string, b: string)
  {
    var av, bv := Get0(m, a), Get0(m, b);
    if av > 0 || bv > 0 then
      if av > bv then a in r && r[a] == av - bv && b !in r
      else if av < bv then b in r && r[b] == bv - av && a !in r
      else a !in r && b !in r
    else Untouched(m, r, a) && Untouched(m, r, b)
  }

  predicate DistinctNames(pairs: seq<(string, string)>)
  {
    && (forall i :: 0 <= i < |pairs| ==> pairs[i].0 != pairs[i].1)
    && (forall i, j :: 0 <= i < j < |pairs| ==>
          pairs[i].0 != pairs[j].0 && pairs[i].0 != pairs[j].1 && pairs[i].1 != pairs[j].0 && pairs[i].1 != pairs[j].1)
  }

  predicate InPairs(pairs: seq<(string, string)>, k: string)
  {
    exists i :: 0 <= i < |pairs| && (pairs[i].0 == k || pairs[i].1 == k)
  }

  lemma {:induction false} ResolveAllOutcome(m: map<string, int>, pairs: seq<(string, string)>)
    requires DistinctNames(pairs)
    ensures forall i :: 0 <= i < |pairs| ==> PairOutcome(m, ResolveAll(m, pairs), pairs[i].0, pairs[i].1)
    ensures forall k :: !InPairs(pairs, k) ==> Untouched(m, ResolveAll(m, pairs), k)
  {
    if |pairs| > 0 {
      var init := pairs[..|pairs| - 1];
      var p := pairs[|pairs| - 1];
      assert DistinctNames(init);
      ResolveAllOutcome(m, init);
      var mid := ResolveAll(m, init);
      var r := ResolveAll(m, pairs);
      assert r == ResolvePair(mid, p.0, p.1);
      assert !InPairs(init, p.0) && !InPairs(init, p.1);
      assert Untouched(m, mid, p.0) && Untouched(m, mid, p.1);
      forall i | 0 <= i < |pairs| ensures PairOutcome(m, r, pairs[i].0, pairs[i].1) {
        if i < |init| {
          assert init[i] == pairs[i];
          assert PairOutcome(m, mid, init[i].0, init[i].1);
          assert Untouched(mid, r, pairs[i].0) && Untouched(mid, r, pairs[i].1);
        }
      }
      forall k | !InPairs(pairs, k) ensures Untouched(m, r, k) {
        assert pairs[|pairs| - 1] == p;
        assert k != p.0 && k != p.1;
        forall i | 0 <= i < |init| ensures init[i].0 != k && init[i].1 != k {
          assert init[i] == pairs[i];
        }
        assert !InPairs(init, k);
        assert Untouched(m, mid, k);
        assert Untouched(mid, r, k);
      }
    }
  }

  /**
    Conflict resolution: for every opposing pair where at least one side is
    positive the larger side keeps the difference and the other key is
    deleted, a tie deletes both; a pair with no positive side and every
    effect outside the pairs are left as they were.
   */
  lemma ConflictResolution(m: map<string, int>)
    ensures forall i :: 0 <= i < |ConflictPairs| ==>
      PairOutcome(m, ResolveConflicts(m), ConflictPairs[i].0, ConflictPairs[i].1)
    ensures forall k :: k !in PairNames ==> Untouched(m, ResolveConflicts(m), k)
  {
    ResolveAllOutcome(m, ConflictPairs);
    forall k | k !in PairNames ensures !InPairs(ConflictPairs, k) {
    }
  }

  // ---------------------------------------------------------------------------
  // The whole sheet

  /** The sheet `calculateAllStats` returns for these tags and this registry. */
  function Resolve(tags: seq<string>, data: map<string, Entry>): Sheet
  {
    Sheet(
      StatsFrom(StatsConfig, tags, data),
      ResolveConflicts(EffectTotals(tags, data, Passives)),
      ResolveConflicts(EffectTotals(tags, data, Actives)),
      Dedup(AllImmunities(tags, data)))
  }

  /**
    `calculateAllStats`: one pass per stat over the tags, additive levels per
    category, the immunity set, then conflict resolution.
   */
  method CalculateAllStats(tags: seq<string>, data: map<string, Entry>) returns (sheet: Sheet)
    ensures sheet == Resolve(tags, data)
  {
    StatNamesDistinct();
    var stats := ComputeStats(StatsConfig, tags, data);
    var passives := AccumulateLevels(tags, data, Passives);
    var actives := AccumulateLevels(tags, data, Actives);
    var immunities := CollectImmunities(tags, data);
    passives, actives := ResolveConflictsIn(passives, actives);
    sheet := Sheet(stats, passives, actives, immunities);
  }

  /**
    The stats loop over a stat table: each stat summed over the tags, clamped,
    then floored to its scale. The table's names are distinct (as in
    `statsConfig`), so `stats[statName] ?? 0` always reads 0.
   */
  method ComputeStats(cfg: seq<(string, StatConfig)>, tags: seq<string>, data: map<string, Entry>) returns (stats: map<string, int>)
    requires forall i, j :: 0 <= i < j < |cfg| ==> cfg[i].0 != cfg[j].0
    ensures stats == StatsFrom(cfg, tags, data)
  {
    stats := map[];
    for k := 0 to |cfg|
      invariant stats == StatsFrom(cfg[..k], tags, data)
      invariant forall n :: n in stats ==> exists i :: 0 <= i < k && cfg[i].0 == n
    {
      var name, c := cfg[k].0, cfg[k].1;
      assert cfg[..k + 1][..k] == cfg[..k];
      assert name !in stats;
      var total := c.base + Get0(stats, name);
      var delta := SumStat(tags, data, name);
      total := total + delta;
      if c.min.Some? && c.max.Some? {
        total := if total < c.min.value then c.min.value else total;
        total := if total > c.max.value then c.max.value else total;
      }
      if c.scale > 0 {
        total := c.scale * (total / c.scale);
      }
      assert total == StatValue(cfg[k], tags, data);
      stats := stats[name := total];
    }
    assert cfg[..|cfg|] == cfg;
  }

  /** The deltas the tags' records give one stat, summed. */
  method SumStat(tags: seq<string>, data: map<string, Entry>, name: string) returns (total: int)
    ensures total == SumOver(tags, data, StatQ(name))
  {
    total := 0;
    for j := 0 to |tags|
      invariant total == SumOver(tags[..j], data, StatQ(name))
    {
      assert tags[..j + 1][..j] == tags[..j];
      var t := tags[j];
      if t in data && name in data[t].stats {
        total := total + data[t].stats[name];
      }
    }
    assert tags[..|tags|] == tags;
  }

  /** The levels of one category, summed per effect over the tags. */
  method AccumulateLevels(tags: seq<string>, data: map<string, Entry>, cat: Category) returns (storage: map<string, int>)
    ensures storage == EffectTotals(tags, data, cat)
  {
    storage := map[];
    for j := 0 to |tags|
      invariant storage == EffectTotals(tags[..j], data, cat)
    {
      storage := AddLevels(storage, tags[..j], tags[j], data, cat);
      assert tags[..j + 1] == tags[..j] + [tags[j]];
    }
    assert tags[..|tags|] == tags;
  }

  /** One tag's `for (const effect in effects) storage[effect] = (storage[effect] ?? 0) + effects[effect]`. */
  method AddLevels(storage0: map<string, int>, prefix: seq<string>, tag: string, data: map<string, Entry>, cat: Category)
    returns (storage: map<string, int>)
    requires storage0 == EffectTotals(prefix, data, cat)
    ensures storage == EffectTotals(prefix + [tag], data, cat)
  {
    storage := storage0;
    var effects := Levels(data, tag, cat);
    EffectTotalsSnoc(prefix, tag, data, cat);
    ghost var target := map e | e in storage0.Keys + effects.Keys :: Get0(storage0, e) + Get0(effects, e);
    assert EffectTotals(prefix + [tag], data, cat) == target;
    var todo := effects.Keys;
    ghost var done: set<string> := {};
    while todo != {}
      invariant todo !! done && todo + done == effects.Keys
      invariant storage.Keys == storage0.Keys + done
      invariant forall e :: e in storage ==> storage[e] == Get0(storage0, e) + (if e in done then effects[e] else 0)
      decreases todo
    {
      var e :| e in todo;
      storage := storage[e := Get0(storage, e) + effects[e]];
      todo := todo - {e};
      done := done + {e};
    }
    assert storage.Keys == target.Keys;
    forall e | e in storage
      ensures storage[e] == target[e]
    {
    }
  }

  /** Adding one tag adds its levels to the totals of the tags before it. */
  lemma EffectTotalsSnoc(prefix: seq<string>, tag: string, data: map<string, Entry>, cat: Category)
    ensures var before, lv := EffectTotals(prefix, data, cat), Levels(data, tag, cat);
      EffectTotals(prefix + [tag], data, cat) == map e | e in before.Keys + lv.Keys :: Get0(before, e) + Get0(lv, e)
  {
    var all := prefix + [tag];
    assert all[..|all| - 1] == prefix;
    var before, lv := EffectTotals(prefix, data, cat), Levels(data, tag, cat);
    forall e | e in before.Keys + lv.Keys
      ensures SumOver(all, data, LevelQ(cat, e)) == Get0(before, e) + Get0(lv, e)
    {
      if e !in before {
        SumOverAbsentEffect(prefix, data, cat, e);
      }
    }
  }

  /** The immunity names of all tags, each once, in order of first appearance. */
  method CollectImmunities(tags: seq<string>, data: map<string, Entry>) returns (immunities: seq<string>)
    ensures immunities == Dedup(AllImmunities(tags, data))
  {
    immunities := [];
    for j := 0 to |tags|
      invariant immunities == Dedup(AllImmunities(tags[..j], data))
    {
      assert tags[..j + 1][..j] == tags[..j];
      immunities := AddImmunities(immunities, AllImmunities(tags[..j], data), ImmunitiesOf(data, tags[j]));
    }
    assert tags[..|tags|] == tags;
  }

  /** One tag's `immunityList.forEach(effect => immunitiesSet.add(effect))`. */
  method AddImmunities(immunities0: seq<string>, ghost seen: seq<string>, list: seq<string>) returns (immunities: seq<string>)
    requires immunities0 == Dedup(seen)
    ensures immunities == Dedup(seen + list)
  {
    immunities := immunities0;
    assert seen + list[..0] == seen;
    for k := 0 to |list|
      invariant immunities == Dedup(seen + list[..k])
    {
      DedupStep(seen, list, k);
      if list[k] !in immunities {
        immunities := immunities + [list[k]];
      }
    }
    assert list[..|list|] == list;
  }

  /** Adding the next element of `list` to what was seen before it. */
  lemma DedupStep(seen: seq<string>, list: seq<string>, k: nat)
    requires k < |list|
    ensures var d := Dedup(seen + list[..k]);
      Dedup(seen + list[..k + 1]) == if list[k] in d then d else d + [list[k]]
  {
    assert seen + list[..k + 1] == (seen + list[..k]) + [list[k]];
    DedupSnoc(seen + list[..k], list[k]);
  }

  lemma DedupSnoc(s: seq<string>, x: string)
    ensures Dedup(s + [x]) == if x in Dedup(s) then Dedup(s) else Dedup(s) + [x]
  {
    assert (s + [x])[..|s|] == s;
  }

  /** Collapses every opposing pair in both categories, pair by pair. */
  method ResolveConflictsIn(passives0: map<string, int>, actives0: map<string, int>)
    returns (passives: map<string, int>, actives: map<string, int>)
    ensures passives == ResolveConflicts(passives0)
    ensures actives == ResolveConflicts(actives0)
  {
    passives, actives := passives0, actives0;
    for k := 0 to |ConflictPairs|
      invariant passives == ResolveAll(passives0, ConflictPairs[..k])
      invariant actives == ResolveAll(actives0, ConflictPairs[..k])
    {
      assert ConflictPairs[..k + 1][..k] == ConflictPairs[..k];
      var a, b := ConflictPairs[k].0, ConflictPairs[k].1;
      passives := ResolvePairIn(passives, a, b);
      actives := ResolvePairIn(actives, a, b);
    }
    assert ConflictPairs[..|ConflictPairs|] == ConflictPairs;
  }

  method ResolvePairIn(storage0: map<string, int>, a: string, b: string) returns (storage: map<string, int>)
    ensures storage == ResolvePair(storage0, a, b)
  {
    storage := storage0;
    var aVal := Get0(storage, a);
    var bVal := Get0(storage, b);
    if aVal > 0 || bVal > 0 {
      var diff := aVal - bVal;
      if diff > 0 {
        storage := storage[a := diff];
        storage := storage - {b};
      } else if diff < 0 {
        storage := storage[b := -diff];
        storage := storage - {a};
      } else {
        storage := storage - {a};
        storage := storage - {b};
      }
    }
  }

  // ---------------------------------------------------------------------------
  // Properties of the resolved sheet

  /** Every stat with configured bounds lies within them, however large the summed deltas. */
  lemma StatsWithinBounds(tags: seq<string>, data: map<string, Entry>)
    ensures forall i :: 0 <= i < |StatsConfig| && StatsConfig[i].1.min.Some? && StatsConfig[i].1.max.Some? ==>
      StatsConfig[i].0 in Resolve(tags, data).stats &&
      StatsConfig[i].1.min.value <= Resolve(tags, data).stats[StatsConfig[i].0] <= StatsConfig[i].1.max.value
  {
    StatsConfigWellFormed();
    RowsResolved(StatsConfig, tags, data);
  }

  /** Every stat with a scale resolves to `scale * floor(total / scale)`, an exact multiple of the scale. */
  lemma StatsAreMultiplesOfScale(tags: seq<string>, data: map<string, Entry>)
    ensures forall i :: 0 <= i < |StatsConfig| && StatsConfig[i].1.scale > 0 ==>
      var c := StatsConfig[i].1;
      StatsConfig[i].0 in Resolve(tags, data).stats &&
      var v := Resolve(tags, data).stats[StatsConfig[i].0];
      v % c.scale == 0 && v <= Clamp(c, c.base + SumOver(tags, data, StatQ(StatsConfig[i].0))) < v + c.scale
  {
    StatsConfigWellFormed();
    RowsResolved(StatsConfig, tags, data);
  }

  /** The row-by-row facts behind the two lemmas above, for any well-formed table. */
  lemma RowsResolved(cfg: seq<(string, StatConfig)>, tags: seq<string>, data: map<string, Entry>)
    requires WellFormedStats(cfg)
    ensures forall i :: 0 <= i < |cfg| ==>
      var c := cfg[i].1;
      var v := StatValue(cfg[i], tags, data);
      cfg[i].0 in StatsFrom(cfg, tags, data) && StatsFrom(cfg, tags, data)[cfg[i].0] == v &&
      (c.min.Some? ==> c.min.value <= v <= c.max.value) &&
      (c.scale > 0 ==> v % c.scale == 0 && v <= Clamp(c, c.base + SumOver(tags, data, StatQ(cfg[i].0))) < v + c.scale)
  {
    forall i | 0 <= i < |cfg|
      ensures var c := cfg[i].1;
        var v := StatValue(cfg[i], tags, data);
        cfg[i].0 in StatsFrom(cfg, tags, data) && StatsFrom(cfg, tags, data)[cfg[i].0] == v &&
        (c.min.Some? ==> c.min.value <= v <= c.max.value) &&
        (c.scale > 0 ==> v % c.scale == 0 && v <= Clamp(c, c.base + SumOver(tags, data, StatQ(cfg[i].0))) < v + c.scale)
    {
      RowStored(cfg, tags, data, i);
      RowBounds(cfg[i], tags, data);
    }
  }

  lemma RowStored(cfg: seq<(string, StatConfig)>, tags: seq<string>, data: map<string, Entry>, i: nat)
    requires WellFormedStats(cfg) && i < |cfg|
    ensures cfg[i].0 in StatsFrom(cfg, tags, data) && StatsFrom(cfg, tags, data)[cfg[i].0] == StatValue(cfg[i], tags, data)
  {
    StatsFromAt(cfg, tags, data);
  }

  lemma RowBounds(row: (string, StatConfig), tags: seq<string>, data: map<string, Entry>)
    requires WellFormedStat(row.1)
    ensures var c, v := row.1, StatValue(row, tags, data);
      (c.min.Some? ==> c.min.value <= v <= c.max.value) &&
      (c.scale > 0 ==> v % c.scale == 0 && v <= Clamp(c, c.base + SumOver(tags, data, StatQ(row.0))) < v + c.scale)
  {
    var c, total := row.1, row.1.base + SumOver(tags, data, StatQ(row.0));
    var v := ResolveStat(c, total);
    assert StatValue(row, tags, data) == v;
  }

  /** With no registered tag, each stat is its configured default. */
  lemma UnregisteredTagsGiveDefaults(tags: seq<string>, data: map<string, Entry>)
    requires forall k :: 0 <= k < |tags| ==> tags[k] !in data
    ensures forall i :: 0 <= i < |StatsConfig| ==>
      StatsConfig[i].0 in Resolve(tags, data).stats && Resolve(tags, data).stats[StatsConfig[i].0] == StatsConfig[i].1.base
    ensures Resolve(tags, data).passives == map[] && Resolve(tags, data).actives == map[]
    ensures Resolve(tags, data).immunities == []
  {
    StatsConfigWellFormed();
    RowsDefault(StatsConfig, tags, data);
    NothingRegistered(tags, data);
    assert EffectTotals(tags, data, Passives) == map[];
    assert EffectTotals(tags, data, Actives) == map[];
    ResolveAllEmpty(ConflictPairs);
  }

  lemma RowsDefault(cfg: seq<(string, StatConfig)>, tags: seq<string>, data: map<string, Entry>)
    requires WellFormedStats(cfg)
    requires forall k :: 0 <= k < |tags| ==> tags[k] !in data
    ensures forall i :: 0 <= i < |cfg| ==>
      cfg[i].0 in StatsFrom(cfg, tags, data) && StatsFrom(cfg, tags, data)[cfg[i].0] == cfg[i].1.base
  {
    StatsFromAt(cfg, tags, data);
    forall i | 0 <= i < |cfg| ensures StatValue(cfg[i], tags, data) == cfg[i].1.base {
      var c := cfg[i].1;
      SumOverUnregistered(tags, data, StatQ(cfg[i].0));
      assert WellFormedStat(c);
      if c.scale > 0 {
        assert Clamp(c, c.base) == c.base;
        QuantizeDownIsLargest(c.base, c.scale, c.base);
      }
    }
  }

  lemma {:induction false} NothingRegistered(tags: seq<string>, data: map<string, Entry>)
    requires forall k :: 0 <= k < |tags| ==> tags[k] !in data
    ensures EffectNames(tags, data, Passives) == {} && EffectNames(tags, data, Actives) == {}
    ensures AllImmunities(tags, data) == []
  {
    if |tags| > 0 {
      NothingRegistered(tags[..|tags| - 1], data);
    }
  }

  lemma {:induction false} ResolveAllEmpty(pairs: seq<(string, string)>)
    ensures ResolveAll(map[], pairs) == map[]
  {
    if |pairs| > 0 {
      ResolveAllEmpty(pairs[..|pairs| - 1]);
    }
  }

  /**
    Before conflict resolution each effect's level is the sum of its level over
    all tagged records, and an effect outside the opposing pairs keeps exactly
    that sum (no clamping).
   */
  lemma LevelsAreSums(tags: seq<string>, data: map<string, Entry>, cat: Category, e: string)
    requires e !in PairNames
    ensures var r := ResolveConflicts(EffectTotals(tags, data, cat));
      (e in r <==> exists k :: 0 <= k < |tags| && e in Levels(data, tags[k], cat)) &&
      (e in r ==> r[e] == SumOver(tags, data, LevelQ(cat, e)))
  {
    EffectNamesMember(tags, data, cat, e);
    ConflictResolution(EffectTotals(tags, data, cat));
  }

  /** The immunities are the union of the tagged records' immunity arrays, without duplicates. */
  lemma ImmunitiesAreUnion(tags: seq<string>, data: map<string, Entry>)
    ensures NoDup(Resolve(tags, data).immunities)
    ensures forall x :: x in Resolve(tags, data).immunities <==>
      exists k :: 0 <= k < |tags| && x in ImmunitiesOf(data, tags[k])
  {
    DedupProperties(AllImmunities(tags, data));
    forall x ensures x in Resolve(tags, data).immunities <==> exists k :: 0 <= k < |tags| && x in ImmunitiesOf(data, tags[k]) {
      AllImmunitiesMember(tags, data, x);
    }
  }

  lemma {:induction false} StatsFromPermutation(cfg: seq<(string, StatConfig)>, a: seq<string>, b: seq<string>, data: map<string, Entry>)
    requires multiset(a) == multiset(b)
    ensures StatsFrom(cfg, a, data) == StatsFrom(cfg, b, data)
  {
    if |cfg| > 0 {
      StatsFromPermutation(cfg[..|cfg| - 1], a, b, data);
      SumOverPermutation(a, b, data, StatQ(cfg[|cfg| - 1].0));
    }
  }

  lemma EffectTotalsPermutation(a: seq<string>, b: seq<string>, data: map<string, Entry>, cat: Category)
    requires multiset(a) == multiset(b)
    ensures EffectTotals(a, data, cat) == EffectTotals(b, data, cat)
  {
    forall e ensures e in EffectNames(a, data, cat) <==> e in EffectNames(b, data, cat) {
      EffectNamesMember(a, data, cat, e);
      EffectNamesMember(b, data, cat, e);
      if exists k :: 0 <= k < |a| && e in Levels(data, a[k], cat) {
        var k :| 0 <= k < |a| && e in Levels(data, a[k], cat);
        assert a[k] in multiset(b);
      }
      if exists k :: 0 <= k < |b| && e in Levels(data, b[k], cat) {
        var k :| 0 <= k < |b| && e in Levels(data, b[k], cat);
        assert b[k] in multiset(a);
      }
    }
    forall e ensures SumOver(a, data, LevelQ(cat, e)) == SumOver(b, data, LevelQ(cat, e)) {
      SumOverPermutation(a, b, data, LevelQ(cat, e));
    }
  }

  /** Reordering the tags gives the same stats, passives and actives, and the same immunity set. */
  lemma PermutationInvariance(a: seq<string>, b: seq<string>, data: map<string, Entry>)
    requires multiset(a) == multiset(b)
    ensures Resolve(a, data).stats == Resolve(b, data).stats
    ensures Resolve(a, data).passives == Resolve(b, data).passives
    ensures Resolve(a, data).actives == Resolve(b, data).actives
    ensures forall x :: x in Resolve(a, data).immunities <==> x in Resolve(b, data).immunities
  {
    DedupProperties(AllImmunities(a, data));
    DedupProperties(AllImmunities(b, data));
    StatsFromPermutation(StatsConfig, a, b, data);
    EffectTotalsPermutation(a, b, data, Passives);
    EffectTotalsPermutation(a, b, data, Actives);
    forall x ensures x in AllImmunities(a, data) <==> x in AllImmunities(b, data) {
      AllImmunitiesMember(a, data, x);
      AllImmunitiesMember(b, data, x);
      if exists k :: 0 <= k < |a| && x in ImmunitiesOf(data, a[k]) {
        var k :| 0 <= k < |a| && x in ImmunitiesOf(data, a[k]);
        assert a[k] in multiset(b);
      }
      if exists k :: 0 <= k < |b| && x in ImmunitiesOf(data, b[k]) {
        var k :| 0 <= k < |b| && x in ImmunitiesOf(data, b[k]);
        assert b[k] in multiset(a);
      }
    }
  }

  // ---------------------------------------------------------------------------
  // Storage of the sheet in the player's dynamic properties

  const Categories: seq<string> := ["stats", "passives", "actives", "immunities"]

  function PropertyKey(category: string): string
  {
    "dorios:playerData." + category
  }

  /**
    `getStatCategory`: the stored category, or an empty object for a name
    outside the four categories or when nothing is stored.
   */
  function GetStatCategory(props: map<string, Json>, category: string): (r: Json)
    ensures category !in Categories ==> r == Obj(map[])
    ensures category in Categories && PropertyKey(category) !in props ==> r == Obj(map[])
    ensures category in Categories && PropertyKey(category) in props ==> r == props[PropertyKey(category)]
  {
    if category !in Categories then Obj(map[])
    else if PropertyKey(category) in props then props[PropertyKey(category)]
    else Obj(map[])
  }

  /** `getAllStats`: the four categories, each as `getStatCategory` reads it. */
  function GetAllStats(props: map<string, Json>): (r: (Json, Json, Json, Json))
    ensures r == (GetStatCategory(props, "stats"), GetStatCategory(props, "passives"),
                  GetStatCategory(props, "actives"), GetStatCategory(props, "immunities"))
  {
    var get := (key: string) => if PropertyKey(key) in props then props[PropertyKey(key)] else Obj(map[]);
    (get("stats"), get("passives"), get("actives"), get("immunities"))
  }

  /** `saveStatsToProperties`: the four categories, each under its own key. */
  function SaveStats(props: map<string, Json>, sheet: Sheet): map<string, Json>
  {
    props[PropertyKey("stats") := Obj(sheet.stats)]
         [PropertyKey("passives") := Obj(sheet.passives)]
         [PropertyKey("actives") := Obj(sheet.actives)]
         [PropertyKey("immunities") := Arr(sheet.immunities)]
  }

  /** What is saved reads back unchanged, category by category. */
  lemma SaveThenGet(props: map<string, Json>, sheet: Sheet)
    ensures GetStatCategory(SaveStats(props, sheet), "stats") == Obj(sheet.stats)
    ensures GetStatCategory(SaveStats(props, sheet), "passives") == Obj(sheet.passives)
    ensures GetStatCategory(SaveStats(props, sheet), "actives") == Obj(sheet.actives)
    ensures GetStatCategory(SaveStats(props, sheet), "immunities") == Arr(sheet.immunities)
  {
    assert PropertyKey("stats") != PropertyKey("passives") by { assert |PropertyKey("stats")| != |PropertyKey("passives")|; }
    assert PropertyKey("stats") != PropertyKey("actives") by { assert PropertyKey("stats")[18] != PropertyKey("actives")[18]; }
    assert PropertyKey("stats") != PropertyKey("immunities") by { assert |PropertyKey("stats")| != |PropertyKey("immunities")|; }
    assert PropertyKey("passives") != PropertyKey("actives") by { assert |PropertyKey("passives")| != |PropertyKey("actives")|; }
    assert PropertyKey("passives") != PropertyKey("immunities") by { assert |PropertyKey("passives")| != |PropertyKey("immunities")|; }
    assert PropertyKey("actives") != PropertyKey("immunities") by { assert |PropertyKey("actives")| != |PropertyKey("immunities")|; }
  }

  /** `updatePlayerStats`: recompute from the player's tags and overwrite the stored sheet. */
  method UpdatePlayerStats(player: Player, data: map<string, Entry>)
    modifies player`props
    ensures player.props == SaveStats(old(player.props), Resolve(old(player.tags), data))
  {
    var sheet := CalculateAllStats(player.tags, data);
    player.props := SaveStats(player.props, sheet);
  }
}
