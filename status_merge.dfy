/**
 * The two folds over sequences that parser/client.go and parser/job.go
 * both perform: picking out, in order, what a listing yields for the
 * blobs that qualify, and the drain of processed log files into a status
 * map (keyed by the blob's name in client.go and by the log file's own
 * name in job.go), each file stored under its key in the order received.
 */
module StatusMerge {
  import opened Base

  /** What f yields for the elements of xs that yield something, in order. */
  function Kept<A, B>(xs: seq<A>, f: A -> Option<B>): seq<B>
    decreases |xs|
  {
    if |xs| == 0 then []
    else
      var rest := Kept(xs[..|xs| - 1], f);
      match f(xs[|xs| - 1])
      case None => rest
      case Some(y) => rest + [y]
  }

  /** One more element: the loop step of a selection proved against Kept. */
  lemma KeptStep<A, B>(xs: seq<A>, f: A -> Option<B>, i: nat)
    requires i < |xs|
    ensures f(xs[i]).None? ==> Kept(xs[..i + 1], f) == Kept(xs[..i], f)
    ensures f(xs[i]).Some? ==> Kept(xs[..i + 1], f) == Kept(xs[..i], f) + [f(xs[i]).value]
  {
    assert xs[..i + 1][..i] == xs[..i];
  }

  /** Exactly what f yields for some element is kept. */
  lemma {:induction false} KeptMembers<A, B>(xs: seq<A>, f: A -> Option<B>, y: B)
    ensures y in Kept(xs, f) <==> exists i :: 0 <= i < |xs| && f(xs[i]) == Some(y)
    decreases |xs|
  {
    if |xs| > 0 {
      var n := |xs| - 1;
      var init := xs[..n];
      KeptMembers(init, f, y);
      if exists i :: 0 <= i < |xs| && f(xs[i]) == Some(y) {
        var i :| 0 <= i < |xs| && f(xs[i]) == Some(y);
        if i < n {
          assert init[i] == xs[i];
        }
      }
      if exists i :: 0 <= i < n && f(init[i]) == Some(y) {
        var i :| 0 <= i < n && f(init[i]) == Some(y);
        assert xs[i] == init[i];
      }
    }
  }

  /** Exactly what f yields for some element of the first k is kept from them. */
  lemma KeptPrefixMembers<A, B>(xs: seq<A>, f: A -> Option<B>, k: nat, y: B)
    requires k <= |xs|
    ensures y in Kept(xs[..k], f) <==> exists i :: 0 <= i < k && f(xs[i]) == Some(y)
  {
    KeptMembers(xs[..k], f, y);
    assert forall i :: 0 <= i < k ==> xs[..k][i] == xs[i];
  }

  /** Kept is no longer than xs, and when every element yields something it is what they yield, in order. */
  lemma {:induction false} KeptLength<A, B>(xs: seq<A>, f: A -> Option<B>)
    ensures |Kept(xs, f)| <= |xs|
    ensures (forall i :: 0 <= i < |xs| ==> f(xs[i]).Some?) ==> Kept(xs, f) == seq(|xs|, i requires 0 <= i < |xs| => f(xs[i]).value)
    decreases |xs|
  {
    if |xs| > 0 {
      var n := |xs| - 1;
      KeptLength(xs[..n], f);
    }
  }

  /** m after storing each result under its key, in order; a later result replaces an earlier one with the same key. */
  function Merged<T>(m: map<string, T>, results: seq<T>, key: T -> string): map<string, T>
    decreases |results|
  {
    if |results| == 0 then m
    else Merged(m, results[..|results| - 1], key)[key(results[|results| - 1]) := results[|results| - 1]]
  }

  /** The keys after the drain: the old keys and the key of every result, and no others. */
  lemma {:induction false} MergedKeys<T>(m: map<string, T>, results: seq<T>, key: T -> string)
    ensures Merged(m, results, key).Keys == m.Keys + set i | 0 <= i < |results| :: key(results[i])
    decreases |results|
  {
    if |results| > 0 {
      var n := |results| - 1;
      var init := results[..n];
      MergedKeys(m, init, key);
      var before := set i | 0 <= i < |init| :: key(init[i]);
      var after := set i | 0 <= i < |results| :: key(results[i]);
      assert after == before + {key(results[n])} by {
        forall k | k in after ensures k in before + {key(results[n])} {
          var i :| 0 <= i < |results| && key(results[i]) == k;
          if i < n {
            assert init[i] == results[i];
          }
        }
        forall k | k in before ensures k in after {
          var i :| 0 <= i < |init| && key(init[i]) == k;
          assert results[i] == init[i];
        }
      }
    }
  }

  /** A result that no later result shares its key with is what the drain leaves under that key. */
  lemma {:induction false} MergedLast<T>(m: map<string, T>, results: seq<T>, key: T -> string, i: nat)
    requires i < |results|
    requires forall j :: i < j < |results| ==> key(results[j]) != key(results[i])
    ensures key(results[i]) in Merged(m, results, key)
    ensures Merged(m, results, key)[key(results[i])] == results[i]
    decreases |results|
  {
    var n := |results| - 1;
    if i < n {
      var init := results[..n];
      assert init[i] == results[i];
      forall j | i < j < |init| ensures key(init[j]) != key(init[i]) {
        assert init[j] == results[j];
      }
      MergedLast(m, init, key, i);
    }
  }

  /** A key no result has keeps its old entry, or stays absent. */
  lemma {:induction false} MergedUntouched<T>(m: map<string, T>, results: seq<T>, key: T -> string, k: string)
    requires forall j :: 0 <= j < |results| ==> key(results[j]) != k
    ensures k in Merged(m, results, key) <==> k in m
    ensures k in m ==> Merged(m, results, key)[k] == m[k]
    decreases |results|
  {
    if |results| > 0 {
      var n := |results| - 1;
      var init := results[..n];
      forall j | 0 <= j < |init| ensures key(init[j]) != k {
        assert init[j] == results[j];
      }
      MergedUntouched(m, init, key, k);
    }
  }

  /** One more result at the end. */
  lemma MergedSnoc<T>(m: map<string, T>, results: seq<T>, key: T -> string, x: T)
    ensures Merged(m, results + [x], key) == Merged(m, results, key)[key(x) := x]
  {
    assert (results + [x])[..|results|] == results;
  }

  /**
   * When every result's key is one of names (the keys of the files that
   * were handed out), the drain adds no key outside names and leaves every
   * other key's entry as it was.
   */
  lemma MergedWithin<T>(m: map<string, T>, results: seq<T>, key: T -> string, names: set<string>)
    requires forall i :: 0 <= i < |results| ==> key(results[i]) in names
    ensures Merged(m, results, key).Keys <= m.Keys + names
    ensures forall k :: k in m && k !in names ==> k in Merged(m, results, key) && Merged(m, results, key)[k] == m[k]
  {
    MergedKeys(m, results, key);
    forall k | k in m && k !in names
      ensures k in Merged(m, results, key) && Merged(m, results, key)[k] == m[k]
    {
      MergedUntouched(m, results, key, k);
    }
  }

  /** One more result: the loop step of a drain proved against Merged. */
  lemma MergedStep<T>(m: map<string, T>, results: seq<T>, key: T -> string, i: nat)
    requires i < |results|
    ensures Merged(m, results[..i + 1], key) == Merged(m, results[..i], key)[key(results[i]) := results[i]]
  {
    assert results[..i + 1][..i] == results[..i];
  }

  /** The position of the first element for which ok fails, or the length of xs. */
  function FirstFailing<A>(xs: seq<A>, ok: A -> bool): (k: nat)
    ensures k <= |xs|
    ensures forall i :: 0 <= i < k ==> ok(xs[i])
    ensures k < |xs| ==> !ok(xs[k])
    decreases |xs|
  {
    if |xs| == 0 then 0
    else if !ok(xs[0]) then 0
    else
      var k := 1 + FirstFailing(xs[1..], ok);
      assert forall i :: 1 <= i < k ==> xs[i] == xs[1..][i - 1];
      k
  }

  /** A scan that has passed only elements that pass ok stops at the first that does not. */
  lemma FirstFailingStep<A>(xs: seq<A>, ok: A -> bool, i: nat)
    requires i <= FirstFailing(xs, ok) && i < |xs|
    ensures ok(xs[i]) ==> i + 1 <= FirstFailing(xs, ok)
    ensures !ok(xs[i]) ==> i == FirstFailing(xs, ok)
  {
  }

  /** What f yields for each element of xs in turn, concatenated. */
  function Flattened<A, B>(xs: seq<A>, f: A -> seq<B>): seq<B>
    decreases |xs|
  {
    if |xs| == 0 then [] else Flattened(xs[..|xs| - 1], f) + f(xs[|xs| - 1])
  }

  /** One more element: the loop step of a concatenation proved against Flattened. */
  lemma FlattenedStep<A, B>(xs: seq<A>, f: A -> seq<B>, i: nat)
    requires i < |xs|
    ensures Flattened(xs[..i + 1], f) == Flattened(xs[..i], f) + f(xs[i])
  {
    assert xs[..i + 1][..i] == xs[..i];
  }

  /** Elements that each yield nothing yield nothing together. */
  lemma {:induction false} FlattenedEmpty<A, B>(xs: seq<A>, f: A -> seq<B>)
    requires forall i :: 0 <= i < |xs| ==> f(xs[i]) == []
    ensures Flattened(xs, f) == []
    decreases |xs|
  {
    if |xs| > 0 {
      var n := |xs| - 1;
      forall i | 0 <= i < n ensures f(xs[..n][i]) == [] {
        assert xs[..n][i] == xs[i];
      }
      FlattenedEmpty(xs[..n], f);
    }
  }

  /** Every element of the concatenation is one of what some element of xs yields. */
  lemma {:induction false} FlattenedFrom<A, B>(xs: seq<A>, f: A -> seq<B>, k: nat)
    requires k < |Flattened(xs, f)|
    ensures exists i, j :: 0 <= i < |xs| && 0 <= j < |f(xs[i])| && Flattened(xs, f)[k] == f(xs[i])[j]
    decreases |xs|
  {
    var n := |xs| - 1;
    var init := Flattened(xs[..n], f);
    if k < |init| {
      FlattenedFrom(xs[..n], f, k);
      var i, j :| 0 <= i < n && 0 <= j < |f(xs[..n][i])| && init[k] == f(xs[..n][i])[j];
      assert xs[..n][i] == xs[i];
    } else {
      assert Flattened(xs, f)[k] == f(xs[n])[k - |init|];
    }
  }
}
