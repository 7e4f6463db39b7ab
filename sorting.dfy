/**
 * Go's string order (byte-wise lexicographic, as in a < b on strings) and
 * sort.Strings. Over a set of keys, sorting gives one sequence, whatever
 * order the keys were listed in.
 */
module Sorting {

  /** a <= b in Go's string order: a is a prefix of b, or a is smaller at the first difference. */
  predicate LessEq(a: string, b: string)
    decreases |a|
  {
    |a| == 0 || (|b| > 0 && (a[0] < b[0] || (a[0] == b[0] && LessEq(a[1..], b[1..]))))
  }

  lemma {:induction false} LessEqTotal(a: string, b: string)
    ensures LessEq(a, b) || LessEq(b, a)
    decreases |a|
  {
    if |a| > 0 && |b| > 0 && a[0] == b[0] {
      LessEqTotal(a[1..], b[1..]);
    }
  }

  lemma {:induction false} LessEqAntisymmetric(a: string, b: string)
    requires LessEq(a, b) && LessEq(b, a)
    ensures a == b
    decreases |a|
  {
    if |a| > 0 {
      LessEqAntisymmetric(a[1..], b[1..]);
      assert a == [a[0]] + a[1..] && b == [b[0]] + b[1..];
    }
  }

  lemma {:induction false} LessEqTransitive(a: string, b: string, c: string)
    requires LessEq(a, b) && LessEq(b, c)
    ensures LessEq(a, c)
    decreases |a|
  {
    if |a| > 0 && a[0] == b[0] && b[0] == c[0] {
      LessEqTransitive(a[1..], b[1..], c[1..]);
    }
  }

  predicate Sorted(s: seq<string>)
  {
    forall i, j :: 0 <= i < j < |s| ==> LessEq(s[i], s[j])
  }

  /** x put in front of the first element of s it does not exceed. */
  function Insert(x: string, s: seq<string>): (r: seq<string>)
    ensures multiset(r) == multiset(s) + multiset{x}
    decreases |s|
  {
    if |s| == 0 then [x]
    else if LessEq(x, s[0]) then [x] + s
    else
      assert s == [s[0]] + s[1..];
      [s[0]] + Insert(x, s[1..])
  }

  /** Every element of Insert(x, s) is x or an element of s. */
  lemma InsertElement(x: string, s: seq<string>, j: nat)
    requires j < |Insert(x, s)|
    ensures Insert(x, s)[j] == x || exists m :: 0 <= m < |s| && s[m] == Insert(x, s)[j]
  {
    var y := Insert(x, s)[j];
    assert y in multiset(Insert(x, s));
    assert y == x || y in multiset(s);
  }

  lemma {:induction false} InsertSorted(x: string, s: seq<string>)
    requires Sorted(s)
    ensures Sorted(Insert(x, s))
    decreases |s|
  {
    if |s| > 0 {
      var r := Insert(x, s);
      if LessEq(x, s[0]) {
        forall j | 1 <= j < |r|
          ensures LessEq(r[0], r[j])
        {
          if j > 1 {
            LessEqTransitive(x, s[0], s[j - 1]);
          }
        }
      } else {
        LessEqTotal(x, s[0]);
        var tail := Insert(x, s[1..]);
        assert Sorted(s[1..]) by {
          SortedTail(s);
        }
        InsertSorted(x, s[1..]);
        assert r == [s[0]] + tail;
        forall j | 0 <= j < |tail|
          ensures LessEq(s[0], tail[j])
        {
          InsertElement(x, s[1..], j);
          if tail[j] != x {
            var m :| 0 <= m < |s[1..]| && s[1..][m] == tail[j];
            assert s[m + 1] == tail[j];
          }
        }
      }
    }
  }

  /** The tail of a sorted sequence is sorted. */
  lemma SortedTail(s: seq<string>)
    requires Sorted(s) && |s| > 0
    ensures Sorted(s[1..])
  {
    forall i, j | 0 <= i < j < |s[1..]| ensures LessEq(s[1..][i], s[1..][j]) {
      assert s[1..][i] == s[i + 1] && s[1..][j] == s[j + 1];
    }
  }

  /** The head of a sorted sequence does not exceed any of its elements. */
  lemma SortedHeadLeast(s: seq<string>, x: string)
    requires Sorted(s) && x in multiset(s)
    ensures LessEq(s[0], x)
  {
    var i :| 0 <= i < |s| && s[i] == x;
    if i == 0 {
      LessEqTotal(x, x);
    }
  }

  /** A sequence is its head and its tail, as multisets too. */
  lemma MultisetHead(s: seq<string>)
    requires |s| > 0
    ensures multiset(s) == multiset(s[1..]) + multiset{s[0]}
  {
    assert s == [s[0]] + s[1..];
  }

  /** Taking off the head takes it out of the multiset. */
  lemma MultisetTail(s: seq<string>)
    requires |s| > 0
    ensures multiset(s[1..]) == multiset(s) - multiset{s[0]}
  {
    assert s == [s[0]] + s[1..];
  }

  /** sort.Strings, as a function on the sequence. */
  function SortStrings(xs: seq<string>): (r: seq<string>)
    ensures Sorted(r)
    ensures multiset(r) == multiset(xs)
    decreases |xs|
  {
    if |xs| == 0 then []
    else
      var rest := SortStrings(xs[1..]);
      InsertSorted(xs[0], rest);
      MultisetHead(xs);
      Insert(xs[0], rest)
  }

  /** Two sorted listings of the same elements are the same sequence. */
  lemma {:induction false} SortedUnique(a: seq<string>, b: seq<string>)
    requires Sorted(a) && Sorted(b) && multiset(a) == multiset(b)
    ensures a == b
    decreases |a|
  {
    assert |b| == |multiset(b)| == |a|;
    if |a| > 0 {
      assert a[0] in multiset(b) && b[0] in multiset(a);
      SortedHeadLeast(a, b[0]);
      SortedHeadLeast(b, a[0]);
      LessEqAntisymmetric(a[0], b[0]);
      MultisetTail(a);
      MultisetTail(b);
      SortedTail(a);
      SortedTail(b);
      SortedUnique(a[1..], b[1..]);
      assert a == [a[0]] + a[1..];
      assert b == [b[0]] + b[1..];
    }
  }

  /** A non-empty set of strings has a least element. */
  lemma {:induction false} LeastExists(keys: set<string>)
    requires keys != {}
    ensures exists m :: m in keys && forall k :: k in keys ==> LessEq(m, k)
    decreases |keys|
  {
    var x :| x in keys;
    var rest := keys - {x};
    if rest == {} {
      LessEqTotal(x, x);
      forall k | k in keys ensures LessEq(x, k) {
        assert k !in rest;
      }
    } else {
      LeastExists(rest);
      var m :| m in rest && forall k :: k in rest ==> LessEq(m, k);
      LessEqTotal(m, x);
      if LessEq(m, x) {
        forall k | k in keys ensures LessEq(m, k) {
          if k != x {
            assert k in rest;
          }
        }
        assert m in keys;
      } else {
        forall k | k in keys ensures LessEq(x, k) {
          if k != x {
            assert k in rest;
            LessEqTransitive(x, m, k);
          } else {
            LessEqTotal(x, x);
          }
        }
      }
    }
  }

  /** The keys of a set in ascending order. */
  ghost function SortedKeys(keys: set<string>): (r: seq<string>)
    ensures Sorted(r)
    ensures multiset(r) == multiset(keys)
    decreases |keys|
  {
    if keys == {} then []
    else
      LeastExists(keys);
      var m :| m in keys && forall k :: k in keys ==> LessEq(m, k);
      var rest := SortedKeys(keys - {m});
      SortedKeysStep(keys, m, rest);
      [m] + rest
  }

  /** The least key in front of the others in order is the whole set in order. */
  lemma SortedKeysStep(keys: set<string>, m: string, rest: seq<string>)
    requires m in keys && forall k :: k in keys ==> LessEq(m, k)
    requires Sorted(rest) && multiset(rest) == multiset(keys - {m})
    ensures Sorted([m] + rest) && multiset([m] + rest) == multiset(keys)
  {
    var r := [m] + rest;
    forall i, j | 0 <= i < j < |r| ensures LessEq(r[i], r[j]) {
      assert r[j] == rest[j - 1];
      if i == 0 {
        assert rest[j - 1] in multiset(rest);
      } else {
        assert r[i] == rest[i - 1];
      }
    }
    assert multiset(r) == multiset{m} + multiset(rest);
    SetRemoved(keys, m);
  }

  /** A set is one of its elements and the rest, as multisets too. */
  lemma SetRemoved(keys: set<string>, m: string)
    requires m in keys
    ensures multiset(keys) == multiset{m} + multiset(keys - {m})
  {
    assert keys == {m} + (keys - {m});
  }

  lemma SortedKeysMembers(keys: set<string>)
    ensures forall k :: k in SortedKeys(keys) <==> k in keys
  {
    var r := SortedKeys(keys);
    forall k
      ensures k in r <==> k in keys
    {
      assert k in r <==> k in multiset(r);
      assert k in keys <==> k in multiset(keys);
    }
  }

  /** Sorting any listing of the keys of a set, each once, gives the set's ascending order. */
  lemma SortListing(xs: seq<string>, keys: set<string>)
    requires multiset(xs) == multiset(keys)
    ensures SortStrings(xs) == SortedKeys(keys)
  {
    SortedUnique(SortStrings(xs), SortedKeys(keys));
  }
}
