/**
  A JavaScript `Map` (or a plain object with string keys) as the list of its
  entries in insertion order. Setting a key that is already present replaces
  its value where it stands; setting a new key appends it.
 */
module Assoc {
  import opened Wrappers

  type Table<V> = seq<(string, V)>

  /** One entry per key, as a `Map` always has. */
  predicate Distinct<V>(t: Table<V>)
  {
    |t| == 0 || (t[0].0 !in Keys(t[1..]) && Distinct(t[1..]))
  }

  /** `Array.from(map.keys())`. */
  function Keys<V>(t: Table<V>): (r: seq<string>)
    ensures |r| == |t|
  {
    if |t| == 0 then [] else [t[0].0] + Keys(t[1..])
  }

  /** `Array.from(map.values())`. */
  function Values<V>(t: Table<V>): (r: seq<V>)
    ensures |r| == |t|
    ensures forall i :: 0 <= i < |t| ==> r[i] == t[i].1
  {
    if |t| == 0 then [] else [t[0].1] + Values(t[1..])
  }

  /** `map.get(k)`, None standing for `undefined`. */
  function Get<V>(t: Table<V>, k: string): Option<V>
  {
    if |t| == 0 then None
    else if t[0].0 == k then Some(t[0].1)
    else Get(t[1..], k)
  }

  /** `map.set(k, v)`. */
  function Put<V>(t: Table<V>, k: string, v: V): Table<V>
  {
    if |t| == 0 then [(k, v)]
    else if t[0].0 == k then [(k, v)] + t[1..]
    else [t[0]] + Put(t[1..], k, v)
  }

  /** A key is found exactly when it is among the keys, with a value stored under it. */
  lemma {:induction false} GetKeys<V>(t: Table<V>, k: string)
    ensures Get(t, k).None? <==> k !in Keys(t)
    ensures Get(t, k).Some? ==> (k, Get(t, k).value) in t
  {
    if |t| > 0 && t[0].0 != k {
      GetKeys(t[1..], k);
    }
  }

  /** Reading after setting: the new value under the key set, the old value elsewhere. */
  lemma {:induction false} PutGet<V>(t: Table<V>, k: string, v: V, k': string)
    ensures Get(Put(t, k, v), k') == if k' == k then Some(v) else Get(t, k')
  {
    if |t| > 0 && t[0].0 != k {
      PutGet(t[1..], k, v, k');
    }
  }

  /** Setting a present key keeps the key order; a new key goes last. */
  lemma {:induction false} PutKeys<V>(t: Table<V>, k: string, v: V)
    ensures k in Keys(t) ==> Keys(Put(t, k, v)) == Keys(t)
    ensures k !in Keys(t) ==> Keys(Put(t, k, v)) == Keys(t) + [k]
  {
    if |t| > 0 && t[0].0 != k {
      PutKeys(t[1..], k, v);
    }
  }

  /** Setting a key the table does not have appends it, leaving every other entry where it was. */
  lemma {:induction false} PutAbsentAppends<V>(t: Table<V>, k: string, v: V)
    requires Get(t, k).None?
    ensures Put(t, k, v) == t + [(k, v)]
  {
    if |t| > 0 {
      PutAbsentAppends(t[1..], k, v);
      assert t == [t[0]] + t[1..];
    }
  }

  /** Setting keeps one entry per key. */
  lemma {:induction false} PutDistinct<V>(t: Table<V>, k: string, v: V)
    requires Distinct(t)
    ensures Distinct(Put(t, k, v))
  {
    if |t| > 0 && t[0].0 != k {
      PutDistinct(t[1..], k, v);
      PutKeys(t[1..], k, v);
    }
  }

  /** Setting adds the new entry and otherwise only drops entries. */
  lemma {:induction false} PutMembers<V>(t: Table<V>, k: string, v: V)
    ensures forall e :: e in Put(t, k, v) ==> e in t || e == (k, v)
  {
    if |t| > 0 && t[0].0 != k {
      PutMembers(t[1..], k, v);
    }
  }

  lemma {:induction false} KeysMembers<V>(t: Table<V>)
    ensures forall i :: 0 <= i < |t| ==> Keys(t)[i] == t[i].0
  {
    if |t| > 0 {
      KeysMembers(t[1..]);
    }
  }

  /** In a table with one entry per key, `get` finds the one entry a key has. */
  lemma {:induction false} GetDistinct<V>(t: Table<V>, i: nat)
    requires Distinct(t) && i < |t|
    ensures Get(t, t[i].0) == Some(t[i].1)
  {
    if i > 0 {
      KeysMembers(t[1..]);
      assert t[i].0 == Keys(t[1..])[i - 1];
      GetDistinct(t[1..], i - 1);
    }
  }
}
