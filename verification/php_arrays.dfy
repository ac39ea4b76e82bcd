/**
 * PHP associative arrays with string keys, as ordered lists of pairs with
 * distinct keys: assignment `$a[$k] = $v` and `array_diff_key`.
 */
module PhpArrays {
  import opened Wrappers

  datatype Pair<V> = Pair(key: string, value: V)

  function Keys<V>(a: seq<Pair<V>>): set<string> {
    set i | 0 <= i < |a| :: a[i].key
  }

  predicate DistinctKeys<V>(a: seq<Pair<V>>) {
    forall i, j :: 0 <= i < j < |a| ==> a[i].key != a[j].key
  }

  /** `$a[$k]`, or `None` when the key is absent. */
  function Get<V>(a: seq<Pair<V>>, k: string): (r: Option<V>)
    ensures r.None? <==> k !in Keys(a)
  {
    if |a| == 0 then None
    else
      assert a == [a[0]] + a[1..];
      KeysCons(a[0], a[1..]);
      if a[0].key == k then Some(a[0].value) else Get(a[1..], k)
  }

  /** The keys of a list are the first key and those of the rest. */
  lemma KeysCons<V>(p: Pair<V>, a: seq<Pair<V>>)
    ensures Keys([p] + a) == {p.key} + Keys(a)
  {
    var r := [p] + a;
    forall x | x in Keys(r) ensures x in {p.key} + Keys(a) {
      var i :| 0 <= i < |r| && r[i].key == x;
      if i > 0 {
        assert a[i - 1].key == x;
      }
    }
    forall x | x in {p.key} + Keys(a) ensures x in Keys(r) {
      if x == p.key {
        assert r[0].key == x;
      } else {
        var i :| 0 <= i < |a| && a[i].key == x;
        assert r[i + 1].key == x;
      }
    }
  }

  /** Lookup in a list with a first entry in front. */
  lemma GetCons<V>(p: Pair<V>, a: seq<Pair<V>>, k: string)
    ensures Get([p] + a, k) == if p.key == k then Some(p.value) else Get(a, k)
  {
    assert ([p] + a)[1..] == a;
  }

  /** A list with a first entry in front has distinct keys when the rest does and lacks the first key. */
  lemma DistinctCons<V>(p: Pair<V>, a: seq<Pair<V>>)
    ensures DistinctKeys(a) && p.key !in Keys(a) ==> DistinctKeys([p] + a)
  {
    var r := [p] + a;
    assert forall i :: 1 <= i < |r| ==> r[i] == a[i - 1];
  }

  /** With distinct keys, looking up the key of an entry finds that entry's value. */
  lemma {:induction false} GetAt<V>(a: seq<Pair<V>>, i: nat)
    requires DistinctKeys(a) && i < |a|
    ensures Get(a, a[i].key) == Some(a[i].value)
  {
    if i > 0 {
      assert a[1..][i - 1] == a[i];
      GetAt(a[1..], i - 1);
    }
  }

  /**
   * `$a[$k] = $v`: an existing key keeps its position and gets the new value;
   * a new key is appended.
   */
  function Put<V>(a: seq<Pair<V>>, k: string, v: V): (r: seq<Pair<V>>)
    requires DistinctKeys(a)
    ensures DistinctKeys(r)
    ensures Keys(r) == Keys(a) + {k}
    ensures Get(r, k) == Some(v)
    ensures forall k' :: k' != k ==> Get(r, k') == Get(a, k')
    ensures |r| == if k in Keys(a) then |a| else |a| + 1
  {
    if |a| == 0 then
      KeysCons(Pair(k, v), a);
      assert [Pair(k, v)] + a == [Pair(k, v)];
      GetCons(Pair(k, v), a, k);
      [Pair(k, v)]
    else
      var rest := a[1..];
      assert a == [a[0]] + rest;
      KeysCons(a[0], rest);
      assert DistinctKeys(rest);
      if a[0].key == k then
        var r := [Pair(k, v)] + rest;
        KeysCons(Pair(k, v), rest);
        DistinctCons(Pair(k, v), rest);
        assert forall k' :: k' != k ==> Get(r, k') == Get(a, k') by {
          forall k' | k' != k ensures Get(r, k') == Get(a, k') {
            GetCons(Pair(k, v), rest, k');
            GetCons(a[0], rest, k');
          }
        }
        GetCons(Pair(k, v), rest, k);
        r
      else
        var t := Put(rest, k, v);
        var r := [a[0]] + t;
        KeysCons(a[0], t);
        DistinctCons(a[0], t);
        assert forall k' :: k' != k ==> Get(r, k') == Get(a, k') by {
          forall k' | k' != k ensures Get(r, k') == Get(a, k') {
            GetCons(a[0], t, k');
            GetCons(a[0], rest, k');
          }
        }
        GetCons(a[0], t, k);
        r
  }

  lemma PutFinds<V>(a: seq<Pair<V>>, k: string, v: V)
    requires DistinctKeys(a)
    ensures Get(Put(a, k, v), k) == Some(v)
  {
  }

  lemma PutKeepsOther<V>(a: seq<Pair<V>>, k: string, v: V, k': string)
    requires DistinctKeys(a) && k' != k
    ensures Get(Put(a, k, v), k') == Get(a, k')
  {
  }

  /**
   * `array_diff_key($a, array_flip($excluded))`: the entries whose key is not
   * listed, in their original order.
   */
  function DiffKeys<V>(a: seq<Pair<V>>, excluded: seq<string>): (r: seq<Pair<V>>)
    ensures Keys(r) == Keys(a) - set x | x in excluded
    ensures forall k :: k !in excluded ==> Get(r, k) == Get(a, k)
    ensures DistinctKeys(a) ==> DistinctKeys(r)
    ensures |r| <= |a|
  {
    if |a| == 0 then []
    else
      var rest := a[1..];
      assert a == [a[0]] + rest;
      KeysCons(a[0], rest);
      var t := DiffKeys(rest, excluded);
      assert forall k :: Get(a, k) == if a[0].key == k then Some(a[0].value) else Get(rest, k) by {
        forall k { GetCons(a[0], rest, k); }
      }
      if a[0].key in excluded then t
      else
        var r := [a[0]] + t;
        KeysCons(a[0], t);
        assert forall k :: Get(r, k) == if a[0].key == k then Some(a[0].value) else Get(t, k) by {
          forall k { GetCons(a[0], t, k); }
        }
        DistinctCons(a[0], t);
        r
  }

  /** `array_diff_key` only drops entries: every entry kept is an entry of the input. */
  lemma {:induction false} DiffKeysSubset<V>(a: seq<Pair<V>>, excluded: seq<string>, x: Pair<V>)
    requires x in DiffKeys(a, excluded)
    ensures x in a
  {
    if |a| > 0 && x != a[0] {
      assert x in DiffKeys(a[1..], excluded);
      DiffKeysSubset(a[1..], excluded, x);
    }
  }
}
