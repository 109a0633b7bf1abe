/**
 * The list rotation behind a committed swipe: the front card is moved to the
 * back of the stack and every other card moves one place towards the front.
 */
module Rotation {

  /** The front element moved to the back; lists shorter than two are left alone. */
  function RotateLeft<T>(s: seq<T>): (r: seq<T>)
    ensures |r| == |s|
  {
    if |s| < 2 then s else s[1..] + [s[0]]
  }

  /** The inverse step: the back element moved to the front. */
  function RotateRight<T>(s: seq<T>): (r: seq<T>)
    ensures |r| == |s|
  {
    if |s| < 2 then s else [s[|s| - 1]] + s[..|s| - 1]
  }

  /** The list read around from position m: s[m], ..., s[|s| - 1], s[0], ..., s[m - 1]. */
  function RotateFrom<T>(s: seq<T>, m: nat): (r: seq<T>)
    requires m <= |s|
    ensures |r| == |s|
    ensures m < |s| ==> r[0] == s[m]
  {
    s[m..] + s[..m]
  }

  /** The reading position after one more front-to-back move on a list of n elements. */
  function NextPosition(m: nat, n: nat): nat
  {
    if m + 1 < n then m + 1 else 0
  }

  /** k front-to-back moves, one after the other. */
  function RotateTimes<T>(s: seq<T>, k: nat): (r: seq<T>)
    ensures |r| == |s|
  {
    if k == 0 then s else RotateLeft(RotateTimes(s, k - 1))
  }

  /** A rotation is a permutation: it keeps every element with its multiplicity. */
  lemma RotateLeftPermutes<T>(s: seq<T>)
    ensures multiset(RotateLeft(s)) == multiset(s)
  {
    if |s| >= 2 {
      assert s == [s[0]] + s[1..];
    }
  }

  /** Reading a list around from any position is a permutation of it. */
  lemma RotateFromPermutes<T>(s: seq<T>, m: nat)
    requires m <= |s|
    ensures multiset(RotateFrom(s, m)) == multiset(s)
  {
    assert s == s[..m] + s[m..];
  }

  /** The element-wise promise of a rotation: every element moves one place forward, the first goes last. */
  lemma RotateLeftAt<T>(s: seq<T>)
    requires |s| >= 2
    ensures forall i :: 0 <= i < |s| - 1 ==> RotateLeft(s)[i] == s[i + 1]
    ensures RotateLeft(s)[|s| - 1] == s[0]
  {
  }

  /** Moving the front to the back and the back to the front undo each other. */
  lemma RotateRoundTrip<T>(s: seq<T>)
    ensures RotateRight(RotateLeft(s)) == s
    ensures RotateLeft(RotateRight(s)) == s
  {
    if |s| >= 2 {
      assert s[1..] + [s[0]] == s[1..|s|] + [s[0]];
      assert s[..|s| - 1] + [s[|s| - 1]] == s;
      assert [s[0]] + s[1..] == s;
    }
  }

  /** Reading around from position 0, or from the very end, gives the list itself. */
  lemma RotateFromEnds<T>(s: seq<T>)
    ensures RotateFrom(s, 0) == s
    ensures RotateFrom(s, |s|) == s
  {
    assert s[0..] + s[..0] == s;
    assert s[|s|..] + s[..|s|] == s;
  }

  /** Rotating a list given as its head and its tail. */
  lemma RotateLeftCons<T>(x: T, t: seq<T>)
    requires |t| >= 1
    ensures RotateLeft([x] + t) == t + [x]
  {
    assert ([x] + t)[1..] == t;
  }

  /** A move that does not wrap: the reading position goes from m to m + 1. */
  lemma StepInside<T>(s: seq<T>, m: nat)
    requires m + 1 < |s|
    ensures RotateLeft(RotateFrom(s, m)) == RotateFrom(s, m + 1)
  {
    var tail := s[m + 1..] + s[..m];
    assert RotateFrom(s, m) == [s[m]] + tail by {
      assert s[m..] == [s[m]] + s[m + 1..];
    }
    RotateLeftCons(s[m], tail);
    assert tail + [s[m]] == s[m + 1..] + s[..m + 1] by {
      assert s[..m] + [s[m]] == s[..m + 1];
    }
  }

  /** A move from the last position wraps back to reading from position 0. */
  lemma StepWrap<T>(s: seq<T>)
    requires |s| >= 2
    ensures RotateLeft(RotateFrom(s, |s| - 1)) == RotateFrom(s, 0)
  {
    var m := |s| - 1;
    assert RotateFrom(s, m) == [s[m]] + s[..m];
    RotateLeftCons(s[m], s[..m]);
    RotateFromEnds(s);
  }

  /** One front-to-back move advances the reading position by one, wrapping at the end. */
  lemma RotateLeftOfRotateFrom<T>(s: seq<T>, m: nat)
    requires m < |s|
    ensures RotateLeft(RotateFrom(s, m)) == RotateFrom(s, NextPosition(m, |s|))
  {
    if m + 1 < |s| {
      StepInside(s, m);
    } else if |s| >= 2 {
      StepWrap(s);
    } else {
      RotateFromEnds(s);
    }
  }

  /** The card behind the front of a list read from position m is the one at the next position. */
  lemma RotateFromSecond<T>(s: seq<T>, m: nat)
    requires m < |s| && |s| >= 2
    ensures RotateFrom(s, m)[1] == s[NextPosition(m, |s|)]
  {
    if m + 1 < |s| {
      assert RotateFrom(s, m)[1] == s[m..][1];
    } else {
      assert RotateFrom(s, m)[1] == s[..m][0];
    }
  }

  /** Up to a full turn, k successive moves read the list around from position k. */
  lemma {:induction false} RotateTimesFrom<T>(s: seq<T>, k: nat)
    requires k <= |s|
    ensures RotateTimes(s, k) == RotateFrom(s, k)
  {
    RotateFromEnds(s);
    if k > 0 {
      RotateTimesFrom(s, k - 1);
      RotateLeftOfRotateFrom(s, k - 1);
    }
  }

  /** After as many moves as the list has elements, the list is back in its original order. */
  lemma FullCycle<T>(s: seq<T>)
    ensures RotateTimes(s, |s|) == s
  {
    RotateTimesFrom(s, |s|);
    RotateFromEnds(s);
  }

  /**
   * Moves the first element of `a` to the last slot, shifting every other
   * element one slot towards the front; arrays shorter than two are untouched.
   */
  method SwapFirstToLast<T>(a: array<T>)
    modifies a
    ensures a[..] == RotateLeft(old(a[..]))
    ensures a.Length < 2 ==> a[..] == old(a[..])
    ensures forall i :: 0 <= i < a.Length - 1 ==> a[i] == old(a[i + 1])
    ensures a.Length >= 2 ==> a[a.Length - 1] == old(a[0])
    ensures multiset(a[..]) == multiset(old(a[..]))
  {
    if a.Length < 2 {
      return;
    }
    var first := a[0];
    for i := 0 to a.Length - 1
      invariant forall k :: 0 <= k < i ==> a[k] == old(a[k + 1])
      invariant forall k :: i <= k < a.Length ==> a[k] == old(a[k])
    {
      a[i] := a[i + 1];
    }
    a[a.Length - 1] := first;
    assert a[..] == old(a[..])[1..] + [old(a[..])[0]];
    RotateLeftPermutes(old(a[..]));
  }
}
