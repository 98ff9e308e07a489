/** Plain JavaScript objects used as dictionaries: attribute records,
    attribute columns, query objects and header objects.  `Object.entries`
    and `Object.fromEntries` keep insertion order, so an object is an ordered
    sequence of key/value entries in which no key occurs twice. */
module JsObject {
  import opened Wrappers

  /** No key occurs twice in the entries. */
  predicate DistinctKeys<T>(entries: seq<(string, T)>) {
    forall i, j :: 0 <= i < j < |entries| ==> entries[i].0 != entries[j].0
  }

  /** An object, as the sequence that `Object.entries` returns for it. */
  type Object<T> = entries: seq<(string, T)> | DistinctKeys(entries) witness []

  /** The keys of an object, in insertion order (`Object.keys`). */
  function Keys<T>(o: seq<(string, T)>): (ks: seq<string>)
    ensures |ks| == |o|
    ensures forall i :: 0 <= i < |o| ==> ks[i] == o[i].0
  {
    seq(|o|, i requires 0 <= i < |o| => o[i].0)
  }

  /** Own-property lookup `o[k]`: the value stored under `k`, or `undefined`.
      Properties inherited from `Object.prototype` are not modelled. */
  function Get<T>(o: seq<(string, T)>, k: string): Option<T>
  {
    if o == [] then None
    else if o[0].0 == k then Some(o[0].1)
    else Get(o[1..], k)
  }

  /** In an object, the entry at position `j` is what a lookup of its key finds. */
  lemma {:induction false} GetAt<T>(o: Object<T>, j: nat)
    requires j < |o|
    ensures Get(o, o[j].0) == Some(o[j].1)
  {
    if j > 0 {
      var tail: Object<T> := o[1..];
      GetAt(tail, j - 1);
    }
  }

  /** A lookup finds a value exactly when the key is one of the object's keys. */
  lemma {:induction false} GetDefined<T>(o: seq<(string, T)>, k: string)
    ensures Get(o, k).Some? <==> k in Keys(o)
  {
    if o != [] {
      GetDefined(o[1..], k);
      assert Keys(o) == [o[0].0] + Keys(o[1..]);
    }
  }

  /** Entries with the same keys, in the same order, as an object form an object. */
  lemma DistinctKeysOfKeys<T, U>(a: seq<(string, T)>, b: seq<(string, U)>)
    requires DistinctKeys(a) && Keys(a) == Keys(b)
    ensures DistinctKeys(b)
  {
  }
}
