/**
 * Blob names of the form ".../<name>/y=YYYY/m=MM/d=DD/h=HH/m=MM/...": the
 * hour bucket and the name a blob name encodes, and the name a record's
 * resource id and time encode.
 */
module BlobKeys {
  import opened Base
  import opened Text
  import opened Calendar
  import opened Patterns

  /**
   * getLogTimeFromName: the time the y=, m=, d=, h= and m= segments denote,
   * in UTC with zero seconds; the given error when the name does not match.
   */
  function LogTimeFromName(name: string, mismatch: Error): (r: Result<Instant>)
    ensures MatchKey(name).None? ==> r == Err(mismatch)
    ensures r.Ok? ==> MatchKey(name).Some?
    ensures r.Ok? ==> (var m := MatchKey(name).value;
      ToCivil(r.value) == DateTime(ValueOf(m.year), ValueOf(m.month), ValueOf(m.day), ValueOf(m.hour), ValueOf(m.minute), 0))
  {
    match MatchKey(name)
    case None => Err(mismatch)
    case Some(m) => ParseHourFields(m.year, m.month, m.day, m.hour, m.minute)
  }

  /** getNsgName / getLoggedResourceName: the segment just before "/y="; the given error when the name does not match. */
  function LoggedName(name: string, mismatch: Error): (r: Result<string>)
    ensures r.Ok? <==> MatchKey(name).Some?
    ensures r.Ok? ==> r.value == MatchKey(name).value.name
    ensures r.Err? ==> r == Err(mismatch)
  {
    match MatchKey(name)
    case None => Err(mismatch)
    case Some(m) => Ok(m.name)
  }

  /** getSourceFileName: "resourceId=" + the resource id + "/y=YYYY/m=MM/d=DD/h=HH/m=00/PT1H.json". */
  function SourceFileName(resourceId: string, t: Instant): string
  {
    "resourceId=" + resourceId + "/" + HourPath(t) + "/m=00/PT1H.json"
  }

  /**
   * The name getSourceFileName builds parses back: its hour bucket is the
   * record's time truncated to the hour, and its name is the last segment of
   * the resource id.
   */
  lemma SourceFileNameRoundTrip(resourceId: string, t: Instant, mismatch: Error)
    requires '/' in resourceId
    requires 0 <= ToCivil(t).year <= 9999
    ensures LogTimeFromName(SourceFileName(resourceId, t), mismatch) == Ok(TruncateHour(t))
    ensures LoggedName(SourceFileName(resourceId, t), mismatch) == Ok(LastSegment(resourceId))
  {
    SourceFileNameMatch(resourceId, t);
    ParseHourPath(t);
  }

  /** The submatches of the name getSourceFileName builds: the resource's last segment and the hour fields with minute "00". */
  lemma SourceFileNameMatch(resourceId: string, t: Instant)
    requires '/' in resourceId
    requires 0 <= ToCivil(t).year <= 9999
    ensures var dt := ToCivil(t);
      MatchKey(SourceFileName(resourceId, t))
        == Some(KeyMatch(LastSegment(resourceId), Year4(dt.year), Two(dt.month), Two(dt.day), Two(dt.hour), "00"))
  {
    var dt := ToCivil(t);
    var pre := "resourceId=" + resourceId;
    var y, mo, d, h := Year4(dt.year), Two(dt.month), Two(dt.day), Two(dt.hour);
    FourDigitYear(dt.year);
    TwoDigits(dt.month);
    TwoDigits(dt.day);
    TwoDigits(dt.hour);
    assert SourceFileName(resourceId, t) == HourKey(pre, HourGroup(y, mo, d, h));
    ResourcePrefix(resourceId);
    MatchHourKey(pre, y, mo, d, h);
  }

  /** The "resourceId=" prefix keeps the id's '/' and its last segment. */
  lemma ResourcePrefix(resourceId: string)
    requires '/' in resourceId
    ensures '/' in "resourceId=" + resourceId
    ensures LastSegment("resourceId=" + resourceId) == LastSegment(resourceId)
  {
    var k :| 0 <= k < |resourceId| && resourceId[k] == '/';
    assert ("resourceId=" + resourceId)[11 + k] == '/';
    assert '/' !in "resourceId=";
    LastSegmentOfPrefixed("resourceId=", resourceId);
  }

  /** A prefix without '/' in front of a path with a '/' does not change its last segment. */
  lemma LastSegmentOfPrefixed(a: string, b: string)
    requires '/' !in a && '/' in b
    ensures LastSegment(a + b) == LastSegment(b)
  {
    var k :| 0 <= k < |b| && b[k] == '/';
    var u, v := b[..k], b[k + 1..];
    assert b == u + ['/'] + v;
    assert a + b == (a + u) + ['/'] + v;
    SplitAround(a + u, v, '/');
    SplitAround(u, v, '/');
  }
  /**
   * A name of the right shape whose date does not exist, the 30th of
   * February of any year: the pattern matches it, but its time does not
   * parse.
   */
  lemma FebruaryThirtiethKey(pre: string, y: string, h: string, mismatch: Error)
    requires '/' in pre && |y| == 4 && |h| == 2 && AllDigits(y) && AllDigits(h) && ValueOf(h) < 24
    ensures MatchKey(HourKey(pre, HourGroup(y, "02", "30", h))).Some?
    ensures LogTimeFromName(HourKey(pre, HourGroup(y, "02", "30", h)), mismatch) == Err(TimeOutOfRange("day"))
  {
    MatchHourKey(pre, y, "02", "30", h);
    FebruaryThirtieth(y, h);
  }

  lemma FebruaryThirtieth(y: string, h: string)
    requires |y| == 4 && |h| == 2 && AllDigits(y) && AllDigits(h) && ValueOf(h) < 24
    ensures ParseHourFields(y, "02", "30", h, "00") == Err(TimeOutOfRange("day"))
  {
    assert ValueOf("02") == 2 && ValueOf("30") == 30 && ValueOf("00") == 0;
  }
}
