/**
 * The strictly-after filter that every record type of the parser applies,
 * with the facts about it the callers rely on.
 */
module Timeline {
  import opened Calendar

  /** The elements of xs whose time is strictly after t, in their order. */
  function KeepAfter<T>(xs: seq<T>, time: T -> Instant, t: Instant): (r: seq<T>)
    ensures |r| <= |xs|
    ensures forall i :: 0 <= i < |r| ==> After(time(r[i]), t)
    decreases |xs|
  {
    if |xs| == 0 then []
    else
      var x := xs[|xs| - 1];
      KeepAfter(xs[..|xs| - 1], time, t) + (if After(time(x), t) then [x] else [])
  }

  /** r is xs with some elements deleted. */
  predicate SubsequenceOf<T(==)>(r: seq<T>, xs: seq<T>)
    decreases |xs|
  {
    if |r| == 0 then true
    else if |xs| == 0 then false
    else if r[|r| - 1] == xs[|xs| - 1] then SubsequenceOf(r[..|r| - 1], xs[..|xs| - 1])
    else SubsequenceOf(r, xs[..|xs| - 1])
  }

  lemma {:induction false} SubsequenceDropLast<T>(r: seq<T>, xs: seq<T>)
    requires |r| > 0 && SubsequenceOf(r, xs)
    ensures SubsequenceOf(r[..|r| - 1], xs)
    decreases |xs|, 0
  {
    if r[|r| - 1] == xs[|xs| - 1] {
      SubsequenceWeaken(r[..|r| - 1], xs[..|xs| - 1], xs[|xs| - 1]);
    } else {
      SubsequenceDropLast(r, xs[..|xs| - 1]);
      SubsequenceWeaken(r[..|r| - 1], xs[..|xs| - 1], xs[|xs| - 1]);
    }
  }

  lemma {:induction false} SubsequenceWeaken<T>(r: seq<T>, xs: seq<T>, x: T)
    requires SubsequenceOf(r, xs)
    ensures SubsequenceOf(r, xs + [x])
    decreases |xs|, 1
  {
    assert (xs + [x])[..|xs|] == xs;
    if |r| > 0 && r[|r| - 1] == x {
      SubsequenceDropLast(r, xs);
    }
  }

  /** The filter keeps the order: its result is a subsequence of its input. */
  lemma {:induction false} KeepAfterOrder<T>(xs: seq<T>, time: T -> Instant, t: Instant)
    ensures SubsequenceOf(KeepAfter(xs, time, t), xs)
    decreases |xs|
  {
    if |xs| > 0 {
      var pre, x := xs[..|xs| - 1], xs[|xs| - 1];
      KeepAfterOrder(pre, time, t);
      var k := KeepAfter(pre, time, t);
      if After(time(x), t) {
        assert (k + [x])[..|k|] == k;
      } else {
        assert xs == pre + [x];
        assert KeepAfter(xs, time, t) == k;
        SubsequenceWeaken(k, pre, x);
      }
    }
  }

  /** An element is kept exactly when it occurs in the input and its time is strictly after t. */
  lemma {:induction false} KeepAfterMembers<T>(xs: seq<T>, time: T -> Instant, t: Instant, x: T)
    ensures x in KeepAfter(xs, time, t) <==> x in xs && After(time(x), t)
    decreases |xs|
  {
    if |xs| > 0 {
      var pre := xs[..|xs| - 1];
      KeepAfterMembers(pre, time, t, x);
      assert xs == pre + [xs[|xs| - 1]];
    }
  }

  /** Filtering a concatenation filters each part. */
  lemma {:induction false} KeepAfterAppend<T>(xs: seq<T>, ys: seq<T>, time: T -> Instant, t: Instant)
    ensures KeepAfter(xs + ys, time, t) == KeepAfter(xs, time, t) + KeepAfter(ys, time, t)
    decreases |ys|
  {
    if |ys| == 0 {
      assert xs + ys == xs;
    } else {
      var pre := ys[..|ys| - 1];
      KeepAfterAppend(xs, pre, time, t);
      assert (xs + ys)[..|xs + ys| - 1] == xs + pre;
    }
  }

  /** When every element is after t nothing is dropped. */
  lemma {:induction false} KeepAfterAll<T>(xs: seq<T>, time: T -> Instant, t: Instant)
    requires forall i :: 0 <= i < |xs| ==> After(time(xs[i]), t)
    ensures KeepAfter(xs, time, t) == xs
    decreases |xs|
  {
    if |xs| > 0 {
      KeepAfterAll(xs[..|xs| - 1], time, t);
    }
  }

  /** When no element is after t nothing is kept. */
  lemma {:induction false} KeepAfterNone<T>(xs: seq<T>, time: T -> Instant, t: Instant)
    requires forall i :: 0 <= i < |xs| ==> !After(time(xs[i]), t)
    ensures KeepAfter(xs, time, t) == []
    decreases |xs|
  {
    if |xs| > 0 {
      KeepAfterNone(xs[..|xs| - 1], time, t);
    }
  }

  /** The elements of xs whose time is strictly before t, in their order. */
  function KeepBefore<T>(xs: seq<T>, time: T -> Instant, t: Instant): (r: seq<T>)
    ensures |r| <= |xs|
    ensures forall i :: 0 <= i < |r| ==> time(r[i]) < t
    decreases |xs|
  {
    if |xs| == 0 then []
    else
      var x := xs[|xs| - 1];
      KeepBefore(xs[..|xs| - 1], time, t) + (if time(x) < t then [x] else [])
  }

  /** An element is kept exactly when it occurs in the input and its time is strictly before t. */
  lemma {:induction false} KeepBeforeMembers<T>(xs: seq<T>, time: T -> Instant, t: Instant, x: T)
    ensures x in KeepBefore(xs, time, t) <==> x in xs && time(x) < t
    decreases |xs|
  {
    if |xs| > 0 {
      var pre := xs[..|xs| - 1];
      KeepBeforeMembers(pre, time, t, x);
      assert xs == pre + [xs[|xs| - 1]];
    }
  }

  /** No element is both strictly before and strictly after t. */
  lemma KeepBeforeAfterDisjoint<T>(xs: seq<T>, time: T -> Instant, t: Instant, x: T)
    ensures !(x in KeepBefore(xs, time, t) && x in KeepAfter(xs, time, t))
  {
    KeepBeforeMembers(xs, time, t, x);
    KeepAfterMembers(xs, time, t, x);
  }
}
