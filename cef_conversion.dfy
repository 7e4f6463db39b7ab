/**
 * What the per-record CEF conversions of parser/event_record.go,
 * parser/appgw_access_record.go and parser/appgw_firewall_record.go share:
 * the skeleton constructor for a product, the outcome of a conversion that
 * may panic, and the sequential composition of the outcomes of a loop.
 */
module CefConversion {
  import opened Base
  import opened Calendar
  import opened Cef

  /**
   * NewAzureCEFEventForProduct is not part of this model's sources; it is
   * taken to be NewNsgCEFEvent with the device product replaced.
   */
  function NewAzureCefEventForProduct(product: string): CefEvent
  {
    NewNsgCefEvent().(deviceProduct := product)
  }

  /**
   * The state a conversion function is in when it returns or panics: a
   * missing property or a value of the wrong type makes a type assertion
   * panic; otherwise it has the events and errors it appended.
   */
  datatype Conversion = Panicked | Done(events: seq<CefEvent>, errors: seq<Error>)

  const NoEvents: Conversion := Done([], [])

  /** Running one part and then the next: a panic in either ends the run. */
  function Then(a: Conversion, b: Conversion): Conversion
  {
    if a.Panicked? || b.Panicked? then Panicked else Done(a.events + b.events, a.errors + b.errors)
  }

  /**
   * What the caller receives: the deferred recover swallows a panic and,
   * the results being unnamed, the function returns nil events and nil
   * errors; a finished run returns what it appended.
   */
  function Recovered(c: Conversion): (r: (seq<CefEvent>, seq<Error>))
    ensures c.Panicked? ==> r == ([], [])
    ensures c.Done? ==> r == (c.events, c.errors)
  {
    if c.Panicked? then ([], []) else (c.events, c.errors)
  }

  /** A loop over xs whose body is step: the outcomes of the iterations in order. */
  function Fold<T>(xs: seq<T>, step: T -> Conversion): Conversion
    decreases |xs|
  {
    if |xs| == 0 then NoEvents else Then(Fold(xs[..|xs| - 1], step), step(xs[|xs| - 1]))
  }

  lemma ThenAssociative(a: Conversion, b: Conversion, c: Conversion)
    ensures Then(Then(a, b), c) == Then(a, Then(b, c))
  {
  }

  /** The outcome of a loop over a + b is that of a followed by that of b. */
  lemma {:induction false} FoldAppend<T>(a: seq<T>, b: seq<T>, step: T -> Conversion)
    ensures Fold(a + b, step) == Then(Fold(a, step), Fold(b, step))
    decreases |b|
  {
    if |b| == 0 {
      assert a + b == a;
    } else {
      var pre := b[..|b| - 1];
      FoldAppend(a, pre, step);
      assert (a + b)[..|a + b| - 1] == a + pre;
      ThenAssociative(Fold(a, step), Fold(pre, step), step(b[|b| - 1]));
    }
  }

  /**
   * A loop finishes exactly when none of its iterations panics, and then
   * its events and errors are those of the iterations, concatenated.
   */
  lemma {:induction false} FoldDone<T>(xs: seq<T>, step: T -> Conversion)
    ensures Fold(xs, step).Done? <==> forall i :: 0 <= i < |xs| ==> step(xs[i]).Done?
    decreases |xs|
  {
    if |xs| > 0 {
      FoldDone(xs[..|xs| - 1], step);
      assert forall i :: 0 <= i < |xs| - 1 ==> xs[..|xs| - 1][i] == xs[i];
    }
  }

  /** One iteration that panics makes the whole loop panic, whatever comes before or after it. */
  lemma FoldPanics<T>(xs: seq<T>, i: nat, step: T -> Conversion)
    requires i < |xs| && step(xs[i]).Panicked?
    ensures Fold(xs, step).Panicked?
  {
    FoldDone(xs, step);
  }

  /** Element i of a loop's input contributes its own outcome between those of its neighbours. */
  lemma FoldSplit<T>(xs: seq<T>, i: nat, step: T -> Conversion)
    requires i < |xs|
    ensures Fold(xs, step) == Then(Then(Fold(xs[..i], step), step(xs[i])), Fold(xs[i + 1..], step))
  {
    assert xs == xs[..i] + [xs[i]] + xs[i + 1..];
    FoldAppend(xs[..i] + [xs[i]], xs[i + 1..], step);
    FoldAppend(xs[..i], [xs[i]], step);
    assert Fold([xs[i]], step) == Then(NoEvents, step(xs[i]));
    assert [xs[i]][..0] == [];
  }

  /**
   * The time of a CEF event copied from a decoded record. A record time
   * decoded from "...Z" has the UTC location, which time.Time stores as
   * nil, so the zero instant decodes to time.Time{} itself.
   */
  function DecodedTime(t: Instant): (r: Option<Instant>)
    ensures r.None? <==> t == ZeroTime
    ensures r.Some? ==> r.value == t
  {
    if t == ZeroTime then None else Some(t)
  }
}
