/**
 * A Python `dict` with string keys: the keys in insertion order and the
 * value of each key. `d[k] = v` keeps an existing key in its place and
 * appends a new one; `d.pop(k)` removes it; two dicts are equal when their
 * items are, whatever the order of their keys.
 */
module Dicts {
  import opened Wrappers

  datatype DictRep<V> = DictRep(keys: seq<string>, items: map<string, V>)

  predicate DistinctKeys(ks: seq<string>) {
    forall i, j :: 0 <= i < j < |ks| ==> ks[i] != ks[j]
  }

  ghost predicate WellFormed<V>(d: DictRep<V>) {
    && DistinctKeys(d.keys)
    && forall k :: k in d.items <==> k in d.keys
  }

  /**
   * A dict. The key order is kept alongside the items rather than tied to
   * them by a type invariant; `PutWellFormed` and `PopLength` state the
   * invariant where the key order matters.
   */
  type Dict<V> = DictRep<V>

  function Empty<V>(): Dict<V> {
    DictRep([], map[])
  }

  /** `k in d`. */
  predicate Has<V>(d: Dict<V>, k: string) {
    k in d.items
  }

  /** `d.get(k, None)`. */
  function Get<V>(d: Dict<V>, k: string): Option<V> {
    if k in d.items then Some(d.items[k]) else None
  }

  /** `len(d)`. */
  function Len<V>(d: Dict<V>): nat {
    |d.keys|
  }

  /** Every listed key has a value: what `d.values()` and `for k in d.keys(): d[k]` rely on. */
  predicate KeysHeld<V>(d: Dict<V>) {
    forall i :: 0 <= i < |d.keys| ==> d.keys[i] in d.items
  }

  /** `d[k] = v`. */
  function Put<V>(d: Dict<V>, k: string, v: V): (r: Dict<V>)
    ensures r.items == d.items[k := v]
    ensures r.keys == if k in d.items then d.keys else d.keys + [k]
  {
    if k in d.items then DictRep(d.keys, d.items[k := v])
    else DictRep(d.keys + [k], d.items[k := v])
  }

  /** The keys of `ks` other than `k`, in order. */
  function RemoveKey(ks: seq<string>, k: string): (r: seq<string>)
    ensures forall x :: x in r <==> x in ks && x != k
    ensures DistinctKeys(ks) ==> DistinctKeys(r)
    ensures |r| <= |ks|
  {
    if ks == [] then []
    else if ks[0] == k then RemoveKey(ks[1..], k)
    else
      var t := RemoveKey(ks[1..], k);
      assert DistinctKeys(ks) ==> DistinctKeys(ks[1..]) && ks[0] !in ks[1..];
      [ks[0]] + t
  }

  /** `d.pop(k)` for a key that is present; the popped value is `d.items[k]`. */
  function Pop<V>(d: Dict<V>, k: string): (r: Dict<V>)
    requires Has(d, k)
    ensures r.items == d.items - {k}
    ensures r.keys == RemoveKey(d.keys, k)
  {
    DictRep(RemoveKey(d.keys, k), d.items - {k})
  }

  /** Setting a key keeps a dict well formed. */
  lemma PutWellFormed<V>(d: Dict<V>, k: string, v: V)
    requires WellFormed(d)
    ensures WellFormed(Put(d, k, v))
  {
  }

  /** Popping a key of a well-formed dict keeps it well formed and shortens it by one. */
  lemma PopWellFormed<V>(d: Dict<V>, k: string)
    requires WellFormed(d) && Has(d, k)
    ensures WellFormed(Pop(d, k)) && Len(Pop(d, k)) == Len(d) - 1
  {
    PopLength(d.keys, k);
  }

  lemma {:induction false} PopLength(ks: seq<string>, k: string)
    requires DistinctKeys(ks) && k in ks
    ensures |RemoveKey(ks, k)| == |ks| - 1
  {
    if ks[0] == k {
      assert k !in ks[1..];
      NotInRemove(ks[1..], k);
    } else {
      PopLength(ks[1..], k);
    }
  }

  lemma {:induction false} NotInRemove(ks: seq<string>, k: string)
    requires k !in ks
    ensures RemoveKey(ks, k) == ks
  {
    if ks != [] {
      NotInRemove(ks[1..], k);
    }
  }

  /** Setting a key to the value it already has gives back the same dict. */
  lemma PutSame<V>(d: Dict<V>, k: string, v: V)
    requires Get(d, k) == Some(v)
    ensures Put(d, k, v) == d
  {
  }

  /** The second of two writes to the same key wins, and the key keeps its place. */
  lemma PutPut<V>(d: Dict<V>, k: string, a: V, b: V)
    ensures Put(Put(d, k, a), k, b) == Put(d, k, b)
  {
  }
}
