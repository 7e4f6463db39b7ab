/**
 * The two regular expressions of the parser package as explicit searches.
 *
 * The blob-name pattern `.*\/(.*)\/y=([0-9]{4})\/m=([0-9]{2})\/d=([0-9]{2})\/h=([0-9]{2})\/m=([0-9]{2}).*`
 * starts with a greedy `.*`, so of all the places where the date group fits
 * Go's leftmost-first matcher keeps the last one; the name group is then the
 * whole path segment in front of `y=`. The model splits the name at '/' and
 * looks for the last window of segments that fits.
 *
 * The resource-id pattern `.*SUBSCRIPTIONS\/(.*)\/RESOURCEGROUPS\/(.*)\/PROVIDERS\/.*KIND\/(.*)[\/]?[.*]*`
 * is greedy at every step; the match it keeps is the one whose markers are,
 * from the last one backwards, each as far right as the later ones allow.
 */
module Patterns {
  import opened Base
  import opened Text

  // ------------------------------------------------------------ blob names

  /** The six submatches a blob name yields. */
  datatype KeyMatch = KeyMatch(name: string, year: string, month: string, day: string, hour: string, minute: string)

  /** A segment that is exactly the tag followed by n digits. */
  predicate Field(seg: string, tag: string, n: nat)
  {
    |seg| == |tag| + n && seg[..|tag|] == tag && AllDigits(seg[|tag|..])
  }

  /** A segment that begins with "m=" and two digits; the rest of the name is free. */
  predicate MinuteField(seg: string)
  {
    |seg| >= 4 && seg[..2] == "m=" && AllDigits(seg[2..4])
  }

  /** The date group fits after segment i (which has a '/' in front of it). */
  predicate WindowAt(segs: seq<string>, i: int)
  {
    1 <= i && i + 5 < |segs|
    && Field(segs[i + 1], "y=", 4) && Field(segs[i + 2], "m=", 2) && Field(segs[i + 3], "d=", 2)
    && Field(segs[i + 4], "h=", 2) && MinuteField(segs[i + 5])
  }

  /** The greatest i <= from at which the date group fits. */
  function LastWindow(segs: seq<string>, from: int): (r: Option<nat>)
    ensures r.Some? ==> r.value <= from && WindowAt(segs, r.value)
    ensures r.Some? ==> forall j :: r.value < j <= from ==> !WindowAt(segs, j)
    ensures r.None? ==> forall j :: j <= from ==> !WindowAt(segs, j)
    decreases from
  {
    if from < 1 then None
    else if WindowAt(segs, from) then Some(from)
    else LastWindow(segs, from - 1)
  }

  /** FindStringSubmatch of the blob-name pattern: None when it does not match. */
  function MatchKey(key: string): (r: Option<KeyMatch>)
    ensures r.Some? <==> exists i :: WindowAt(Split(key, '/'), i)
    ensures r.Some? ==> exists i :: (WindowAt(Split(key, '/'), i) && r.value == WindowMatch(Split(key, '/'), i)
        && forall j :: i < j ==> !WindowAt(Split(key, '/'), j))
    ensures r.Some? ==> DigitFields(r.value)
  {
    var segs := Split(key, '/');
    assert forall j :: |segs| - 6 < j ==> !WindowAt(segs, j);
    match LastWindow(segs, |segs| - 6)
    case None => None
    case Some(i) => Some(WindowMatch(segs, i))
  }

  /** The digit groups of a match have the widths the pattern demands. */
  predicate DigitFields(m: KeyMatch)
  {
    |m.year| == 4 && |m.month| == 2 && |m.day| == 2 && |m.hour| == 2 && |m.minute| == 2
    && AllDigits(m.year) && AllDigits(m.month) && AllDigits(m.day) && AllDigits(m.hour) && AllDigits(m.minute)
  }

  function WindowMatch(segs: seq<string>, i: int): (m: KeyMatch)
    requires WindowAt(segs, i)
    ensures DigitFields(m)
  {
    KeyMatch(segs[i], segs[i + 1][2..], segs[i + 2][2..], segs[i + 3][2..], segs[i + 4][2..], segs[i + 5][2..4])
  }

  /** The last segment of a '/'-separated path. */
  function LastSegment(s: string): string
  {
    var segs := Split(s, '/');
    segs[|segs| - 1]
  }

  /** The date group "y=YYYY/m=MM/d=DD/h=HH" of an hour, as getSourceFileName prints it. */
  function HourGroup(y: string, mo: string, d: string, h: string): string
  {
    "y=" + y + "/m=" + mo + "/d=" + d + "/h=" + h
  }

  /** The name getSourceFileName builds from a prefix and a date group. */
  function HourKey(pre: string, group: string): string
  {
    pre + "/" + group + "/m=00/PT1H.json"
  }

  /** Appending t + v, where t is '/' and a tag, to a path appends one segment. */
  lemma SplitExtend(a: string, t: string, v: string)
    requires |t| >= 1 && t[0] == '/' && '/' !in t[1..] && '/' !in v
    ensures Split(a + t + v, '/') == Split(a, '/') + [t[1..] + v]
  {
    assert a + t + v == a + ['/'] + (t[1..] + v);
    SplitAround(a, t[1..] + v, '/');
    SplitWithoutSep(t[1..] + v, '/');
  }

  lemma HourGroupSegments(y: string, mo: string, d: string, h: string)
    requires '/' !in y && '/' !in mo && '/' !in d && '/' !in h
    ensures Split(HourGroup(y, mo, d, h), '/') == ["y=" + y, "m=" + mo, "d=" + d, "h=" + h]
  {
    var ys := "y=" + y;
    SplitWithoutSep(ys, '/');
    assert "/m="[1..] == "m=" && "/d="[1..] == "d=" && "/h="[1..] == "h=";
    SplitExtend(ys, "/m=", mo);
    SplitExtend(ys + "/m=" + mo, "/d=", d);
    SplitExtend(ys + "/m=" + mo + "/d=" + d, "/h=", h);
  }

  /** The segments of the name getSourceFileName builds. */
  lemma HourKeySegments(pre: string, y: string, mo: string, d: string, h: string)
    requires '/' !in y && '/' !in mo && '/' !in d && '/' !in h
    ensures Split(HourKey(pre, HourGroup(y, mo, d, h)), '/')
      == Split(pre, '/') + ["y=" + y, "m=" + mo, "d=" + d, "h=" + h, "m=00", "PT1H.json"]
  {
    var g := HourGroup(y, mo, d, h);
    HourGroupSegments(y, mo, d, h);
    SplitAround(pre, g, '/');
    var x := pre + "/" + g;
    var m, f := "/m=", "/PT1H.json";
    assert HourKey(pre, g) == x + m + "00" + f + "";
    assert m[1..] + "00" == "m=00" && f[1..] + "" == "PT1H.json";
    SplitExtend(x, m, "00");
    SplitExtend(x + m + "00", f, "");
  }

  /** In those segments the date group fits after the prefix's last segment and nowhere later. */
  lemma HourKeyWindow(p: seq<string>, y: string, mo: string, d: string, h: string)
    requires |p| >= 2
    requires |y| == 4 && |mo| == 2 && |d| == 2 && |h| == 2
    requires AllDigits(y) && AllDigits(mo) && AllDigits(d) && AllDigits(h)
    ensures var segs := p + ["y=" + y, "m=" + mo, "d=" + d, "h=" + h, "m=00", "PT1H.json"];
      LastWindow(segs, |segs| - 6) == Some(|p| - 1)
      && WindowMatch(segs, |p| - 1) == KeyMatch(p[|p| - 1], y, mo, d, h, "00")
  {
    var ys, ms, ds, hs := "y=" + y, "m=" + mo, "d=" + d, "h=" + h;
    var segs := p + [ys, ms, ds, hs, "m=00", "PT1H.json"];
    var i := |p| - 1;
    assert segs[i + 1] == ys && segs[i + 2] == ms && segs[i + 3] == ds && segs[i + 4] == hs && segs[i + 5] == "m=00";
    assert ys[..2] == "y=" && ys[2..] == y;
    assert ms[..2] == "m=" && ms[2..] == mo;
    assert ds[..2] == "d=" && ds[2..] == d;
    assert hs[..2] == "h=" && hs[2..] == h;
    assert "m=00"[..2] == "m=" && "m=00"[2..4] == "00";
    assert WindowAt(segs, i);
    assert !WindowAt(segs, i + 1) by {
      assert segs[i + 2] == ms;
    }
  }

  /**
   * A name made of a prefix with at least one '/', the date group of an hour
   * and the trailer "/m=00/PT1H.json" matches, and yields the prefix's last
   * segment and the group's digits.
   */
  lemma MatchHourKey(pre: string, y: string, mo: string, d: string, h: string)
    requires '/' in pre
    requires |y| == 4 && |mo| == 2 && |d| == 2 && |h| == 2
    requires AllDigits(y) && AllDigits(mo) && AllDigits(d) && AllDigits(h)
    ensures MatchKey(HourKey(pre, HourGroup(y, mo, d, h))) == Some(KeyMatch(LastSegment(pre), y, mo, d, h, "00"))
  {
    var p := Split(pre, '/');
    var segs := Split(HourKey(pre, HourGroup(y, mo, d, h)), '/');
    assert segs == p + ["y=" + y, "m=" + mo, "d=" + d, "h=" + h, "m=00", "PT1H.json"] by {
      assert '/' !in y && '/' !in mo && '/' !in d && '/' !in h by {
        assert !IsDigit('/');
      }
      HourKeySegments(pre, y, mo, d, h);
    }
    assert |p| >= 2 by {
      SplitCount(pre, '/');
      CountPositive(pre, '/');
    }
    HourKeyWindow(p, y, mo, d, h);
  }

  lemma {:induction false} CountPositive(s: string, c: char)
    requires c in s
    ensures Count(s, c) >= 1
    decreases |s|
  {
    if s[0] != c {
      assert c in s[1..];
      CountPositive(s[1..], c);
    }
  }

  // ------------------------------------------------------------ resource ids

  /** The three submatches of a resource id: subscription, resource group and resource name. */
  datatype ResourceMatch = ResourceMatch(subscription: string, resourceGroup: string, name: string)

  /**
   * p1 to p4 are positions of the pattern's four markers, "SUBSCRIPTIONS/",
   * "/RESOURCEGROUPS/", "/PROVIDERS/" and kind + "/", each ending at or
   * before the next one begins.
   */
  predicate Chain(id: string, kind: string, p1: int, p2: int, p3: int, p4: int)
  {
    && OccursAt(id, "SUBSCRIPTIONS/", p1) && OccursAt(id, "/RESOURCEGROUPS/", p2)
    && OccursAt(id, "/PROVIDERS/", p3) && OccursAt(id, kind + "/", p4)
    && p1 + 14 <= p2 && p2 + 16 <= p3 && p3 + 11 <= p4
  }

  /**
   * FindStringSubmatch of the resource-id pattern whose last marker is
   * kind + "/" ("NETWORKSECURITYGROUPS" or "APPLICATIONGATEWAYS"). The
   * greedy `.*` and `(.*)` groups take each marker as late as the rest of
   * the pattern allows, so the match uses the chain of markers that lies,
   * position by position, at or after every other chain; the submatches are
   * the text between its markers and the text after the last one.
   */
  function MatchResourceId(id: string, kind: string): (r: Option<ResourceMatch>)
    ensures r.Some? ==> exists p1, p2, p3, p4 :: (
      && Chain(id, kind, p1, p2, p3, p4)
      && (forall q1, q2, q3, q4 :: Chain(id, kind, q1, q2, q3, q4) ==> q1 <= p1 && q2 <= p2 && q3 <= p3 && q4 <= p4)
      && r.value == ResourceMatch(id[p1 + 14..p2], id[p2 + 16..p3], id[p4 + |kind| + 1..]))
    ensures r.None? ==> forall q1, q2, q3, q4 :: !Chain(id, kind, q1, q2, q3, q4)
  {
    var c := GreatestChain(id, kind);
    if c.None? then None
    else
      assert Chain(id, kind, c.value.subs, c.value.groups, c.value.providers, c.value.end);
      Some(Submatches(id, kind, c.value))
  }

  /** The text between the markers of a chain, and after its last one. */
  function Submatches(id: string, kind: string, c: ChainAt): ResourceMatch
    requires Chain(id, kind, c.subs, c.groups, c.providers, c.end)
  {
    ResourceMatch(id[c.subs + 14..c.groups], id[c.groups + 16..c.providers], id[c.end + |kind| + 1..])
  }

  /** Positions of the four markers of a chain. */
  datatype ChainAt = ChainAt(subs: nat, groups: nat, providers: nat, end: nat)

  /**
   * The backward searches of the greedy match: the last kind + "/", the last
   * "/PROVIDERS/" ending before it, and so on. They find a chain exactly
   * when there is one, and the chain they find lies at or after every other.
   */
  function GreatestChain(id: string, kind: string): (r: Option<ChainAt>)
    ensures r.Some? ==> Chain(id, kind, r.value.subs, r.value.groups, r.value.providers, r.value.end)
    ensures r.Some? ==> forall q1, q2, q3, q4 :: Chain(id, kind, q1, q2, q3, q4) ==>
      q1 <= r.value.subs && q2 <= r.value.groups && q3 <= r.value.providers && q4 <= r.value.end
    ensures r.None? ==> forall q1, q2, q3, q4 :: !Chain(id, kind, q1, q2, q3, q4)
  {
    var end := LastOccurrence(id, kind + "/", |id|);
    if end.None? then None else
    var providers := LastOccurrence(id, "/PROVIDERS/", end.value);
    if providers.None? then None else
    var groups := LastOccurrence(id, "/RESOURCEGROUPS/", providers.value);
    if groups.None? then None else
    var subs := LastOccurrence(id, "SUBSCRIPTIONS/", groups.value);
    if subs.None? then None else
    assert forall q1, q2, q3, q4 :: Chain(id, kind, q1, q2, q3, q4) ==>
      q1 <= subs.value && q2 <= groups.value && q3 <= providers.value && q4 <= end.value by {
      forall q1, q2, q3, q4 | Chain(id, kind, q1, q2, q3, q4)
        ensures q1 <= subs.value && q2 <= groups.value && q3 <= providers.value && q4 <= end.value
      {
        assert q4 <= end.value;
        assert q3 <= providers.value;
        assert q2 <= groups.value;
      }
    }
    Some(ChainAt(subs.value, groups.value, providers.value, end.value))
  }

  /**
   * Any chain of markers, each occurring before the next one, gives the
   * resource id a match: a resource id has a match exactly when its markers
   * occur in order.
   */
  lemma MatchResourceIdComplete(id: string, kind: string, p1: nat, p2: nat, p3: nat, p4: nat)
    requires Chain(id, kind, p1, p2, p3, p4)
    ensures MatchResourceId(id, kind).Some?
  {
  }

  /**
   * The chain that lies at or after every other chain is the one the match
   * reads its submatches from.
   */
  lemma MatchResourceIdGreatest(id: string, kind: string, p1: nat, p2: nat, p3: nat, p4: nat)
    requires Chain(id, kind, p1, p2, p3, p4)
    requires forall q1, q2, q3, q4 :: Chain(id, kind, q1, q2, q3, q4) ==> q1 <= p1 && q2 <= p2 && q3 <= p3 && q4 <= p4
    ensures MatchResourceId(id, kind) == Some(ResourceMatch(id[p1 + 14..p2], id[p2 + 16..p3], id[p4 + |kind| + 1..]))
  {
    GreatestChainIs(id, kind, p1, p2, p3, p4);
    MatchOfChain(id, kind, ChainAt(p1, p2, p3, p4));
    SubmatchesAt(id, kind, p1, p2, p3, p4);
  }

  /** The searches find the chain that lies at or after every other chain. */
  lemma GreatestChainIs(id: string, kind: string, p1: nat, p2: nat, p3: nat, p4: nat)
    requires Chain(id, kind, p1, p2, p3, p4)
    requires forall q1, q2, q3, q4 :: Chain(id, kind, q1, q2, q3, q4) ==> q1 <= p1 && q2 <= p2 && q3 <= p3 && q4 <= p4
    ensures GreatestChain(id, kind) == Some(ChainAt(p1, p2, p3, p4))
  {
    var c := GreatestChain(id, kind);
    assert c.Some?;
    assert Chain(id, kind, c.value.subs, c.value.groups, c.value.providers, c.value.end);
  }

  /** The submatches of the chain at p1 to p4. */
  lemma SubmatchesAt(id: string, kind: string, p1: nat, p2: nat, p3: nat, p4: nat)
    requires Chain(id, kind, p1, p2, p3, p4)
    ensures Submatches(id, kind, ChainAt(p1, p2, p3, p4))
      == ResourceMatch(id[p1 + 14..p2], id[p2 + 16..p3], id[p4 + |kind| + 1..])
  {
  }

  /** The submatches are the text between the markers of the chain the searches find. */
  lemma MatchOfChain(id: string, kind: string, c: ChainAt)
    requires GreatestChain(id, kind) == Some(c)
    ensures Chain(id, kind, c.subs, c.groups, c.providers, c.end)
    ensures MatchResourceId(id, kind) == Some(Submatches(id, kind, c))
  {
  }
}
