/**
 * Attribute lists read by `parse_properties` and the maps built from them.
 *
 * The crate folds a list of `(key, value)` pairs in document order, replacing
 * earlier values (`Option::replace`, `HashMap::insert`, `HashMap::from_iter`), so
 * for every key the last occurrence wins. `LastValue` is that rule on the list;
 * `ToMap` is the map it builds. A map's iteration order is not modelled.
 */
module Attributes {
  import opened Wrappers
  import opened Parser

  /** The value of the last pair with key `k`, if any. */
  function LastValue(kvs: seq<Pair>, k: string): Option<string>
    decreases |kvs|
  {
    if kvs == [] then None
    else if kvs[|kvs| - 1].0 == k then Some(kvs[|kvs| - 1].1)
    else LastValue(kvs[..|kvs| - 1], k)
  }

  /**
   * `LastValue` finds nothing exactly when the key does not occur, and otherwise
   * the value of an occurrence that no later pair overrides.
   */
  lemma {:induction false} LastValueSpec(kvs: seq<Pair>, k: string)
    ensures LastValue(kvs, k).None? <==> forall i :: 0 <= i < |kvs| ==> kvs[i].0 != k
    ensures LastValue(kvs, k).Some? ==>
              exists i :: 0 <= i < |kvs| && kvs[i] == (k, LastValue(kvs, k).value)
                          && forall j :: i < j < |kvs| ==> kvs[j].0 != k
    decreases |kvs|
  {
    if kvs != [] {
      var n := |kvs| - 1;
      var init := kvs[..n];
      if kvs[n].0 == k {
        assert kvs[n] == (k, LastValue(kvs, k).value);
      } else {
        LastValueSpec(init, k);
        assert forall i :: 0 <= i < n ==> init[i] == kvs[i];
        if LastValue(init, k).Some? {
          var i :| 0 <= i < n && init[i] == (k, LastValue(init, k).value)
                   && forall j :: i < j < n ==> init[j].0 != k;
          assert kvs[i] == (k, LastValue(kvs, k).value);
          assert forall j :: i < j < |kvs| ==> kvs[j].0 != k;
        }
      }
    }
  }

  /** `HashMap::from_iter` over the pairs: one entry per key, holding its last value. */
  function ToMap(kvs: seq<Pair>): (m: map<string, string>)
    ensures forall k :: k in m <==> LastValue(kvs, k).Some?
    ensures forall k :: k in m ==> m[k] == LastValue(kvs, k).value
    decreases |kvs|
  {
    if kvs == [] then map[]
    else
      var init := kvs[..|kvs| - 1];
      var last := kvs[|kvs| - 1];
      assert kvs == init + [last];
      LastValueSnoc(init, last);
      ToMap(init)[last.0 := last.1]
  }

  /** One more pair at the end is one more map insertion. */
  lemma ToMapSnoc(init: seq<Pair>, last: Pair)
    ensures ToMap(init + [last]) == ToMap(init)[last.0 := last.1]
  {
    var kvs := init + [last];
    assert kvs[..|kvs| - 1] == init;
  }

  /** How one more pair at the end changes `LastValue`. */
  lemma LastValueSnoc(init: seq<Pair>, last: Pair)
    ensures forall k :: LastValue(init + [last], k)
                          == if last.0 == k then Some(last.1) else LastValue(init, k)
  {
    var kvs := init + [last];
    assert kvs[..|kvs| - 1] == init;
  }

  /** The last value in a concatenation comes from the second part when the key occurs there. */
  lemma {:induction false} LastValueConcat(a: seq<Pair>, b: seq<Pair>, k: string)
    ensures LastValue(a + b, k) == if LastValue(b, k).Some? then LastValue(b, k) else LastValue(a, k)
    decreases |b|
  {
    if b == [] {
      assert a + b == a;
    } else {
      var b' := b[..|b| - 1];
      assert (a + b)[..|a + b| - 1] == a + b';
      LastValueConcat(a, b', k);
    }
  }

  /** `HashMap::get` */
  function Lookup(m: map<string, string>, k: string): (r: Option<string>)
    ensures r.Some? <==> k in m
    ensures r.Some? ==> r.value == m[k]
  {
    if k in m then Some(m[k]) else None
  }

  /** Looking a key up in the map built from a list finds the key's last value. */
  lemma LookupToMap(kvs: seq<Pair>, k: string)
    ensures Lookup(ToMap(kvs), k) == LastValue(kvs, k)
  {
  }

  /** A key that occurs exactly once has the value of that occurrence. */
  lemma {:induction false} LastValueOfUnique(kvs: seq<Pair>, i: nat)
    requires i < |kvs|
    requires forall j :: 0 <= j < |kvs| && j != i ==> kvs[j].0 != kvs[i].0
    ensures LastValue(kvs, kvs[i].0) == Some(kvs[i].1)
  {
    var k := kvs[i].0;
    var r := LastValue(kvs, k);
    LastValueSpec(kvs, k);
    assert kvs[i].0 == k;
    var i' :| 0 <= i' < |kvs| && kvs[i'] == (k, r.value)
              && forall j :: i' < j < |kvs| ==> kvs[j].0 != k;
    assert i' == i;
  }
}
