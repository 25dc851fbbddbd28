/** Sums of per-thread weights. A protocol state keeps one program counter per
    thread in a sequence; "how many threads are at such a point" is the sum of a
    0/1 weight over that sequence, and an atomic step of one thread changes one
    entry of it. */
module Counting {

  /** One unit (i, j) for each j below the weight of entry i. */
  ghost function Units<T>(s: seq<T>, w: T -> nat): set<(int, int)>
  {
    set i: int, j: int | 0 <= i < |s| && 0 <= j < w(s[i]) :: (i, j)
  }

  /** The sum of the weights, as a number of units. The set form is what users
      of this module see: it does not unfold. */
  ghost function Sum<T>(s: seq<T>, w: T -> nat): nat
  {
    |Units(s, w)|
  }

  /** The same sum by recursion from the end. */
  function Added<T>(s: seq<T>, w: T -> nat): nat
  {
    if s == [] then 0 else Added(s[..|s| - 1], w) + w(s[|s| - 1])
  }

  ghost function Row(i: int, n: nat): set<(int, int)>
  {
    set j: int | 0 <= j < n :: (i, j)
  }

  lemma {:induction false} RowSize(i: int, n: nat)
    ensures |Row(i, n)| == n
  {
    if n == 0 {
      assert Row(i, 0) == {};
    } else {
      RowSize(i, n - 1);
      assert Row(i, n) == Row(i, n - 1) + {(i, n - 1)};
    }
  }

  lemma {:induction false} SumIsAdded<T>(s: seq<T>, w: T -> nat)
    ensures Sum(s, w) == Added(s, w)
  {
    if s == [] {
      assert Units(s, w) == {};
    } else {
      var n := |s| - 1;
      SumIsAdded(s[..n], w);
      RowSize(n, w(s[n]));
      assert Units(s, w) == Units(s[..n], w) + Row(n, w(s[n]));
      assert Units(s[..n], w) !! Row(n, w(s[n]));
    }
  }

  lemma {:induction false} AddedUpdate<T>(s: seq<T>, i: nat, x: T, w: T -> nat)
    requires i < |s|
    ensures Added(s[i := x], w) == Added(s, w) - w(s[i]) + w(x)
  {
    var n := |s| - 1;
    if i == n {
      assert s[i := x][..n] == s[..n];
    } else {
      assert s[i := x][..n] == s[..n][i := x];
      AddedUpdate(s[..n], i, x, w);
    }
  }

  /** One entry changes: the sum changes by the difference of the two weights. */
  lemma SumUpdate<T>(s: seq<T>, i: nat, x: T, w: T -> nat)
    requires i < |s|
    ensures Sum(s[i := x], w) == Sum(s, w) - w(s[i]) + w(x)
  {
    SumIsAdded(s, w);
    SumIsAdded(s[i := x], w);
    AddedUpdate(s, i, x, w);
  }

  lemma {:induction false} AddedAt<T>(s: seq<T>, i: nat, w: T -> nat)
    requires i < |s|
    ensures w(s[i]) <= Added(s, w)
  {
    if i < |s| - 1 {
      AddedAt(s[..|s| - 1], i, w);
    }
  }

  /** No entry weighs more than the sum. */
  lemma SumAt<T>(s: seq<T>, i: nat, w: T -> nat)
    requires i < |s|
    ensures w(s[i]) <= Sum(s, w)
  {
    SumIsAdded(s, w);
    AddedAt(s, i, w);
  }

  lemma {:induction false} AddedTwo<T>(s: seq<T>, i: nat, j: nat, w: T -> nat)
    requires i < j < |s|
    ensures w(s[i]) + w(s[j]) <= Added(s, w)
  {
    if j < |s| - 1 {
      AddedTwo(s[..|s| - 1], i, j, w);
    } else {
      AddedAt(s[..|s| - 1], i, w);
    }
  }

  /** Two different entries together weigh no more than the sum. */
  lemma SumTwo<T>(s: seq<T>, i: nat, j: nat, w: T -> nat)
    requires i < |s| && j < |s| && i != j
    ensures w(s[i]) + w(s[j]) <= Sum(s, w)
  {
    SumIsAdded(s, w);
    if i < j {
      AddedTwo(s, i, j, w);
    } else {
      AddedTwo(s, j, i, w);
    }
  }

  /** A positive sum has an entry of positive weight. */
  lemma SumWitness<T>(s: seq<T>, w: T -> nat) returns (i: nat)
    requires Sum(s, w) > 0
    ensures i < |s| && w(s[i]) > 0
  {
    var u :| u in Units(s, w);
    i := u.0;
  }

  /** If no entry weighs anything the sum is 0. */
  lemma SumZero<T>(s: seq<T>, w: T -> nat)
    requires forall i :: 0 <= i < |s| ==> w(s[i]) == 0
    ensures Sum(s, w) == 0
  {
    if Sum(s, w) > 0 {
      var i := SumWitness(s, w);
    }
  }

  lemma {:induction false} AddedMonotone<T>(s: seq<T>, w: T -> nat, v: T -> nat)
    requires forall i :: 0 <= i < |s| ==> w(s[i]) <= v(s[i])
    ensures Added(s, w) <= Added(s, v)
  {
    if s == [] {
    } else {
      var n := |s| - 1;
      forall i | 0 <= i < n ensures w(s[..n][i]) <= v(s[..n][i]) {
        assert s[..n][i] == s[i];
      }
      AddedMonotone(s[..n], w, v);
    }
  }

  /** Weights that never exceed others sum to no more than they do. */
  lemma SumMonotone<T>(s: seq<T>, w: T -> nat, v: T -> nat)
    requires forall i :: 0 <= i < |s| ==> w(s[i]) <= v(s[i])
    ensures Sum(s, w) <= Sum(s, v)
  {
    SumIsAdded(s, w);
    SumIsAdded(s, v);
    AddedMonotone(s, w, v);
  }
}
