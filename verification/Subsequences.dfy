/** Sequences that lose elements but keep the order, and sequences merged from two. */
module Subsequences {
  function Without<T>(a: seq<T>, k: nat): (r: seq<T>)
    requires k < |a|
    ensures |r| == |a| - 1
  {
    a[..k] + a[k + 1..]
  }

  /** `at` picks the positions of `b` that make up `a`, in order. */
  ghost predicate Picks<T(!new)>(a: seq<T>, b: seq<T>, at: seq<nat>) {
    && |at| == |a|
    && (forall i :: 0 <= i < |at| ==> at[i] < |b| && a[i] == b[at[i]])
    && (forall i, j :: 0 <= i < j < |at| ==> at[i] < at[j])
  }

  ghost predicate Subsequence<T(!new)>(a: seq<T>, b: seq<T>) { exists at: seq<nat> :: Picks(a, b, at) }

  lemma SubsequenceNone<T(!new)>(b: seq<T>)
    ensures Subsequence([], b)
  {
    var at: seq<nat> := [];
    assert Picks([], b, at);
  }

  lemma SubsequenceAppend<T(!new)>(a: seq<T>, b: seq<T>, m: T)
    requires Subsequence(a, b)
    ensures Subsequence(a, b + [m]) && Subsequence(a + [m], b + [m])
    ensures forall k :: 0 <= k < |a| ==> Subsequence(Without(a, k) + [m], b + [m])
  {
    var at: seq<nat> :| Picks(a, b, at);
    assert Picks(a, b + [m], at);
    assert Picks(a + [m], b + [m], at + [|b|]);
    forall k | 0 <= k < |a| ensures Subsequence(Without(a, k) + [m], b + [m]) {
      assert Picks(Without(a, k) + [m], b + [m], Without(at, k) + [|b|]);
    }
  }

  /** Appending a prefix of what is appended on the other side. */
  lemma {:induction false} SubsequencePrefix<T(!new)>(a: seq<T>, b: seq<T>, x: seq<T>, y: seq<T>)
    requires Subsequence(a, b) && x <= y
    ensures Subsequence(a + x, b + y)
  {
    if y == [] {
      assert a + x == a && b + y == b;
    } else {
      var n := |y| - 1;
      if |x| == |y| {
        SubsequencePrefix(a, b, x[..n], y[..n]);
        SubsequenceAppend(a + x[..n], b + y[..n], y[n]);
        assert a + x == a + x[..n] + [y[n]];
      } else {
        SubsequencePrefix(a, b, x, y[..n]);
        SubsequenceAppend(a + x, b + y[..n], y[n]);
      }
      assert b + y == b + y[..n] + [y[n]];
    }
  }

  lemma SubsequenceMembers<T(!new)>(a: seq<T>, b: seq<T>)
    requires Subsequence(a, b)
    ensures forall m :: m in a ==> m in b
  {
    var at: seq<nat> :| Picks(a, b, at);
    forall i | 0 <= i < |a| ensures a[i] in b { assert a[i] == b[at[i]]; }
  }

  lemma SubsequenceTransitive<T(!new)>(a: seq<T>, b: seq<T>, c: seq<T>)
    requires Subsequence(a, b) && Subsequence(b, c)
    ensures Subsequence(a, c)
  {
    var at: seq<nat> :| Picks(a, b, at);
    var to: seq<nat> :| Picks(b, c, to);
    var f: seq<nat> := seq(|a|, i requires 0 <= i < |a| => to[at[i]]);
    assert Picks(a, c, f);
  }

  /** `c` is `a` and `b` merged, each in its own order. */
  ghost predicate Shuffle<T(!new)>(c: seq<T>, a: seq<T>, b: seq<T>)
    decreases |c|
  {
    if c == [] then a == [] && b == []
    else
      var n := |c| - 1;
      || (a != [] && a[|a| - 1] == c[n] && Shuffle(c[..n], a[..|a| - 1], b))
      || (b != [] && b[|b| - 1] == c[n] && Shuffle(c[..n], a, b[..|b| - 1]))
  }

  lemma ShuffleAppend<T(!new)>(c: seq<T>, a: seq<T>, b: seq<T>, m: T)
    requires Shuffle(c, a, b)
    ensures Shuffle(c + [m], a + [m], b) && Shuffle(c + [m], a, b + [m])
  {
    assert (c + [m])[..|c|] == c && (a + [m])[..|a|] == a && (b + [m])[..|b|] == b;
  }

  /** What has come out of a merge so far is a merge of what has gone in so far. */
  lemma {:induction false} ShufflePrefix<T(!new)>(c: seq<T>, a: seq<T>, b: seq<T>, n: nat)
    requires Shuffle(c, a, b) && n <= |c|
    ensures exists x, y :: x <= a && y <= b && Shuffle(c[..n], x, y)
    decreases |c|
  {
    if n == |c| {
      assert c[..n] == c;
      assert Shuffle(c[..n], a, b);
    } else {
      var k := |c| - 1;
      assert c[..k][..n] == c[..n];
      if a != [] && a[|a| - 1] == c[k] && Shuffle(c[..k], a[..|a| - 1], b) {
        ShufflePrefix(c[..k], a[..|a| - 1], b, n);
        var x, y :| x <= a[..|a| - 1] && y <= b && Shuffle(c[..n], x, y);
        assert x <= a;
      } else {
        ShufflePrefix(c[..k], a, b[..|b| - 1], n);
        var x, y :| x <= a && y <= b[..|b| - 1] && Shuffle(c[..n], x, y);
        assert y <= b;
      }
    }
  }

  lemma {:induction false} ShuffleMembers<T(!new)>(c: seq<T>, a: seq<T>, b: seq<T>, m: T)
    requires Shuffle(c, a, b) && m in c
    ensures m in a || m in b
    decreases |c|
  {
    var n := |c| - 1;
    if c[n] != m {
      assert m in c[..n];
      if a != [] && a[|a| - 1] == c[n] && Shuffle(c[..n], a[..|a| - 1], b) {
        ShuffleMembers(c[..n], a[..|a| - 1], b, m);
      } else {
        ShuffleMembers(c[..n], a, b[..|b| - 1], m);
      }
    }
  }
}
