/** Sequence helpers shared by the batch logic: `array_slice`, sums, filters and concatenation. */
module Seqs {
  import opened Wrappers

  function Min(a: int, b: int): (r: int)
    ensures r <= a && r <= b && (r == a || r == b)
  {
    if a <= b then a else b
  }

  /** PHP's `max(0, x)`. */
  function Max0(x: int): (r: nat)
    ensures r >= x
    ensures x >= 0 ==> r == x
    ensures x <= 0 ==> r == 0
  {
    if x < 0 then 0 else x
  }

  /** `array_slice($s, $offset, $len)` on a list, for a non-negative offset and length. */
  function Slice<T>(s: seq<T>, offset: nat, len: nat): (r: seq<T>)
    ensures |r| == Min(len, Max0(|s| - offset))
    ensures forall i :: 0 <= i < |r| ==> r[i] == s[offset + i]
  {
    if offset >= |s| then [] else s[offset..Min(|s|, offset + len)]
  }

  /** A slice from inside the list is the sub-range of the list it covers. */
  lemma SliceIsSubrange<T>(s: seq<T>, offset: nat, len: nat)
    requires offset <= |s|
    ensures Slice(s, offset, len) == s[offset..offset + |Slice(s, offset, len)|]
  {
  }

  /** The slice read at `offset` is the list from `offset` on, cut to `len`. */
  lemma SliceExtendsPrefix<T>(s: seq<T>, offset: nat, len: nat)
    requires offset <= |s|
    ensures s[..offset] + Slice(s, offset, len) == s[..offset + |Slice(s, offset, len)|]
  {
  }

  lemma AppendAssoc<T>(a: seq<T>, b: seq<T>, c: seq<T>)
    ensures (a + b) + c == a + (b + c)
  {
  }

  lemma LastOfCons<T>(x: T, s: seq<T>)
    requires |s| >= 1
    ensures |[x] + s| == |s| + 1 && ([x] + s)[|s|] == s[|s| - 1]
  {
  }

  lemma SplitAt<T>(s: seq<T>, i: nat, j: nat)
    requires i <= j <= |s|
    ensures s[i..] == s[i..j] + s[j..]
  {
  }

  function Sum(s: seq<nat>): (r: nat) {
    if |s| == 0 then 0 else Sum(s[..|s| - 1]) + s[|s| - 1]
  }

  lemma {:induction false} SumAppend(a: seq<nat>, b: seq<nat>)
    ensures Sum(a + b) == Sum(a) + Sum(b)
    decreases |b|
  {
    if |b| == 0 {
      assert a + b == a;
    } else {
      assert (a + b)[..|a + b| - 1] == a + b[..|b| - 1];
      SumAppend(a, b[..|b| - 1]);
    }
  }

  /** The elements of `s` that satisfy `p`, in order. */
  function Filter<T>(p: T -> bool, s: seq<T>): (r: seq<T>)
    ensures |r| <= |s|
  {
    if |s| == 0 then []
    else if p(s[0]) then [s[0]] + Filter(p, s[1..])
    else Filter(p, s[1..])
  }

  /** Every element kept satisfies `p` and comes from `s`. */
  lemma {:induction false} FilterSound<T>(p: T -> bool, s: seq<T>)
    ensures forall i :: 0 <= i < |Filter(p, s)| ==> p(Filter(p, s)[i]) && Filter(p, s)[i] in s
  {
    if |s| > 0 {
      FilterSound(p, s[1..]);
      var t := Filter(p, s[1..]);
      if p(s[0]) {
        assert Filter(p, s) == [s[0]] + t;
        assert forall i :: 1 <= i < |Filter(p, s)| ==> Filter(p, s)[i] == t[i - 1];
      }
    }
  }

  /** Every element that satisfies `p` is kept. */
  lemma {:induction false} FilterComplete<T>(p: T -> bool, s: seq<T>, i: nat)
    requires i < |s| && p(s[i])
    ensures s[i] in Filter(p, s)
  {
    if i > 0 {
      assert s[1..][i - 1] == s[i];
      FilterComplete(p, s[1..], i - 1);
    }
  }

  /** When every element satisfies `p`, nothing is dropped; when none does, nothing is kept. */
  lemma {:induction false} FilterAllOrNone<T>(p: T -> bool, s: seq<T>)
    ensures (forall i :: 0 <= i < |s| ==> p(s[i])) ==> Filter(p, s) == s
    ensures (forall i :: 0 <= i < |s| ==> !p(s[i])) ==> Filter(p, s) == []
  {
    if |s| > 0 {
      FilterAllOrNone(p, s[1..]);
      assert forall i :: 1 <= i < |s| ==> s[1..][i - 1] == s[i];
      assert s == [s[0]] + s[1..];
    }
  }

  lemma {:induction false} FilterAppend<T>(p: T -> bool, a: seq<T>, b: seq<T>)
    ensures Filter(p, a + b) == Filter(p, a) + Filter(p, b)
  {
    if |a| == 0 {
      assert a + b == b;
    } else {
      assert (a + b)[1..] == a[1..] + b;
      FilterAppend(p, a[1..], b);
    }
  }

  /** Filtering by a weaker test keeps at least as many elements. */
  lemma {:induction false} FilterWeaker<T>(p: T -> bool, q: T -> bool, s: seq<T>)
    requires forall x :: p(x) ==> q(x)
    ensures |Filter(p, s)| <= |Filter(q, s)|
  {
    if |s| > 0 {
      FilterWeaker(p, q, s[1..]);
    }
  }

  /** The `Some` results of `f` over `s`, in order: a loop that skips the items `f` rejects. */
  function Collect<A, B>(f: A -> Option<B>, s: seq<A>): (r: seq<B>)
    ensures |r| <= |s|

  {
    if |s| == 0 then []
    else
      match f(s[0])
      case Some(y) => [y] + Collect(f, s[1..])
      case None => Collect(f, s[1..])
  }

  lemma {:induction false} CollectAppend<A, B>(f: A -> Option<B>, a: seq<A>, b: seq<A>)
    ensures Collect(f, a + b) == Collect(f, a) + Collect(f, b)
  {
    if |a| == 0 {
      assert a + b == b;
    } else {
      assert (a + b)[1..] == a[1..] + b;
      CollectAppend(f, a[1..], b);
    }
  }

  /**
   * Extending the list by one item adds exactly that item's result, if it has
   * one, at the end: nothing is dropped and the order is the list's order.
   */
  lemma CollectSnoc<A, B>(f: A -> Option<B>, s: seq<A>, i: nat)
    requires i < |s|
    ensures Collect(f, s[..i + 1]) == Collect(f, s[..i]) + (if f(s[i]).Some? then [f(s[i]).value] else [])
  {
    assert s[..i + 1] == s[..i] + [s[i]];
    CollectAppend(f, s[..i], [s[i]]);
    assert [s[i]][1..] == [];
  }

  /** Every `Some` result is collected. */
  lemma {:induction false} CollectComplete<A, B>(f: A -> Option<B>, s: seq<A>, i: nat)
    requires i < |s| && f(s[i]).Some?
    ensures f(s[i]).value in Collect(f, s)
  {
    if i > 0 {
      assert s[1..][i - 1] == s[i];
      CollectComplete(f, s[1..], i - 1);
    }
  }

  /** Collecting a prefix and then the slice that follows it collects the longer prefix. */
  lemma CollectExtends<A, B>(f: A -> Option<B>, s: seq<A>, offset: nat, len: nat)
    requires offset <= |s|
    ensures Collect(f, s[..offset]) + Collect(f, Slice(s, offset, len))
      == Collect(f, s[..offset + |Slice(s, offset, len)|])
  {
    SliceExtendsPrefix(s, offset, len);
    CollectAppend(f, s[..offset], Slice(s, offset, len));
  }

  /** The same, for a batch result already known to be the collected slice and its end offset. */
  lemma CollectStep<A, B>(f: A -> Option<B>, s: seq<A>, offset: nat, len: nat, out: seq<B>, next: nat)
    requires offset <= |s|
    requires out == Collect(f, Slice(s, offset, len)) && next == offset + |Slice(s, offset, len)|
    ensures next <= |s| && Collect(f, s[..offset]) + out == Collect(f, s[..next])
  {
    CollectExtends(f, s, offset, len);
  }

  /** `array_merge` of a list of lists. */
  function Flatten<T>(ss: seq<seq<T>>): (r: seq<T>)
  {
    if |ss| == 0 then [] else Flatten(ss[..|ss| - 1]) + ss[|ss| - 1]
  }

  /**
   * `array_merge` of the lists `g` gives for the items of `xs`, one after
   * another: an element is in the result exactly when one of those lists holds it.
   */
  function FlatMap<A, T(!new)>(g: A -> seq<T>, xs: seq<A>): (r: seq<T>)
    ensures forall x :: x in r <==> exists i :: 0 <= i < |xs| && x in g(xs[i])
  {
    if |xs| == 0 then []
    else
      var init := xs[..|xs| - 1];
      assert forall i :: 0 <= i < |init| ==> init[i] == xs[i];
      FlatMap(g, init) + g(xs[|xs| - 1])
  }
}
