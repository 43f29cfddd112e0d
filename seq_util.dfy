/** Sequence helpers shared by several parts of the model. */
module SeqUtil {

  datatype Option<T> = None | Some(value: T)

  /** No element occurs twice. */
  predicate Distinct<T(==)>(xs: seq<T>) {
    forall i, j | 0 <= i < j < |xs| :: xs[i] != xs[j]
  }

  /** `xs.indexOf(x)`: the first position of `x`, or -1. */
  function IndexOf<T(==)>(xs: seq<T>, x: T): (k: int)
    ensures -1 <= k < |xs|
    ensures k == -1 <==> x !in xs
    ensures k >= 0 ==> xs[k] == x && x !in xs[..k]
    decreases |xs|
  {
    if |xs| == 0 then -1
    else if xs[0] == x then 0
    else
      var k := IndexOf(xs[1..], x);
      assert k >= 0 ==> xs[..k + 1] == [xs[0]] + xs[1..][..k];
      if k == -1 then -1 else k + 1
  }

  /**
   * `[...new Set(xs)]`: the elements of `xs` in the order of their first occurrence.
   * Defined on the last element so that a left-to-right loop can maintain it.
   */
  function DedupFirst<T(==)>(xs: seq<T>): seq<T>
    decreases |xs|
  {
    if |xs| == 0 then []
    else
      var init := xs[..|xs| - 1];
      if xs[|xs| - 1] in init then DedupFirst(init) else DedupFirst(init) + [xs[|xs| - 1]]
  }

  /**
   * What a Set round trip keeps: the same elements, each once, ordered by where each
   * first occurs in the input.
   */
  lemma {:induction false} DedupFirstSpec<T>(xs: seq<T>)
    ensures forall x :: x in DedupFirst(xs) <==> x in xs
    ensures Distinct(DedupFirst(xs))
    ensures forall i, j | 0 <= i < j < |DedupFirst(xs)| ::
              IndexOf(xs, DedupFirst(xs)[i]) < IndexOf(xs, DedupFirst(xs)[j])
    decreases |xs|
  {
    if |xs| > 0 {
      var init := xs[..|xs| - 1];
      var last := xs[|xs| - 1];
      DedupFirstSpec(init);
      assert xs == init + [last];
      forall x | x in init ensures IndexOf(xs, x) == IndexOf(init, x) {
        IndexOfPrefix(init, [last], x);
      }
      if last !in init {
        assert IndexOf(xs, last) == |init| by { IndexOfPrefix(init, [last], last); }
      }
    }
  }

  lemma {:induction false} IndexOfPrefix<T>(a: seq<T>, b: seq<T>, x: T)
    ensures x in a ==> IndexOf(a + b, x) == IndexOf(a, x)
    ensures x !in a && x in b ==> IndexOf(a + b, x) == |a| + IndexOf(b, x)
    decreases |a|
  {
    if |a| > 0 {
      assert (a + b)[1..] == a[1..] + b;
      IndexOfPrefix(a[1..], b, x);
    } else {
      assert a + b == b;
    }
  }

  /**
   * `idx` picks the elements of `sub` out of `full` at strictly increasing positions:
   * `sub` is an order-preserving subsequence of `full`.
   */
  ghost predicate PicksInOrder<T>(idx: seq<nat>, sub: seq<T>, full: seq<T>) {
    && |idx| == |sub|
    && (forall k | 0 <= k < |idx| :: idx[k] < |full| && full[idx[k]] == sub[k])
    && (forall k, l | 0 <= k < l < |idx| :: idx[k] < idx[l])
  }

  /** Picking one more element in front of all the others keeps the picks in order. */
  lemma PicksCons<T>(i: nat, idx: seq<nat>, x: T, sub: seq<T>, full: seq<T>)
    requires PicksInOrder(idx, sub, full)
    requires i < |full| && full[i] == x
    requires forall k | 0 <= k < |idx| :: i < idx[k]
    ensures PicksInOrder([i] + idx, [x] + sub, full)
  {
    var idx' := [i] + idx;
    var sub' := [x] + sub;
    assert forall k | 1 <= k < |idx'| :: idx'[k] == idx[k - 1] && sub'[k] == sub[k - 1];
  }

  /** The prefixes of `a + b` that reach into `b` grow one element of `b` at a time. */
  lemma ConcatPrefixStep<T>(a: seq<T>, b: seq<T>, k: nat)
    requires k < |b|
    ensures (a + b)[..|a| + k + 1] == (a + b)[..|a| + k] + [b[k]]
  {
    assert (a + b)[|a| + k] == b[k];
  }

  /** The set of the values `f` takes on the elements of `xs`. */
  function Image<T, U>(xs: seq<T>, f: T -> U): set<U>
    decreases |xs|
  {
    if |xs| == 0 then {} else Image(xs[..|xs| - 1], f) + {f(xs[|xs| - 1])}
  }

  lemma {:induction false} ImageSpec<T, U>(xs: seq<T>, f: T -> U, y: U)
    ensures y in Image(xs, f) <==> exists i | 0 <= i < |xs| :: f(xs[i]) == y
    decreases |xs|
  {
    if |xs| > 0 {
      var init := xs[..|xs| - 1];
      ImageSpec(init, f, y);
      assert forall i | 0 <= i < |init| :: init[i] == xs[i];
    }
  }

  function Max(a: int, b: int): (m: int)
    ensures m >= a && m >= b && (m == a || m == b)
  {
    if a >= b then a else b
  }

  /** `xs.filter(keep)`. */
  function Filter<T>(xs: seq<T>, keep: T -> bool): seq<T>
    decreases |xs|
  {
    if |xs| == 0 then []
    else
      var init := Filter(xs[..|xs| - 1], keep);
      if keep(xs[|xs| - 1]) then init + [xs[|xs| - 1]] else init
  }

  /** Every element a filter keeps passes the test. */
  lemma {:induction false} FilterKeeps<T>(xs: seq<T>, keep: T -> bool)
    ensures forall k | 0 <= k < |Filter(xs, keep)| :: keep(Filter(xs, keep)[k])
    decreases |xs|
  {
    if |xs| > 0 {
      FilterKeeps(xs[..|xs| - 1], keep);
    }
  }

  /** A filter picks, in order, every element that passes the test. */
  lemma {:induction false} FilterPicks<T>(xs: seq<T>, keep: T -> bool) returns (idx: seq<nat>)
    ensures PicksInOrder(idx, Filter(xs, keep), xs)
    ensures forall i | 0 <= i < |xs| && keep(xs[i]) :: i in idx
    decreases |xs|
  {
    if |xs| == 0 {
      idx := [];
    } else {
      var n := |xs| - 1;
      var init := xs[..n];
      var before := FilterPicks(init, keep);
      var prev := Filter(init, keep);
      assert forall k | 0 <= k < |before| :: before[k] < n && xs[before[k]] == prev[k];
      if keep(xs[n]) {
        assert Filter(xs, keep) == prev + [xs[n]];
        idx := before + [n];
        assert forall k | 0 <= k < |before| :: idx[k] == before[k];
      } else {
        assert Filter(xs, keep) == prev;
        idx := before;
      }
    }
  }

  /**
   * A filter keeps an order-preserving subsequence of its input: exactly the elements that
   * pass the test.
   */
  lemma FilterSpec<T>(xs: seq<T>, keep: T -> bool) returns (idx: seq<nat>)
    ensures PicksInOrder(idx, Filter(xs, keep), xs)
    ensures forall i | 0 <= i < |xs| :: i in idx <==> keep(xs[i])
  {
    idx := FilterPicks(xs, keep);
    FilterKeeps(xs, keep);
    forall i | 0 <= i < |xs| && i in idx
      ensures keep(xs[i])
    {
      var k :| 0 <= k < |idx| && idx[k] == i;
      assert xs[i] == Filter(xs, keep)[k];
    }
  }
}
