/**
 * parser/types.go: the typed NSG flow-log document, the log-file checkpoint
 * record, and the operations on them: the blob-name parsers, the
 * strictly-after filter, the flattening of flow tuples, the partial-range
 * load and the file name SaveToPath writes to.
 */
module NsgTypes {
  import opened Base
  import opened Text
  import opened Calendar
  import opened Patterns
  import opened Storage
  import opened Timeline
  import opened MacAddress
  import opened BlobKeys
  import opened Payload

  // ------------------------------------------------------------------ data

  /** A sub-flow: the MAC address of the VM and its comma-separated flow tuples. */
  datatype SubFlow = SubFlow(mac: string, flowTuples: seq<string>)

  /** A flow: the rule that matched and its sub-flows. */
  datatype Flow = Flow(rule: string, flows: seq<SubFlow>)

  datatype Properties = Properties(version: int, flows: seq<Flow>)

  /** One record of an NSG flow log, normally one per minute. */
  datatype Record = Record(time: Instant, systemId: string, category: string, resourceId: string,
                           operationName: string, properties: Properties)

  /** The decoded document: {"records": [...]}. */
  datatype NsgLog = NsgLog(records: seq<Record>)

  /** A log blob and the checkpoint kept for it; nsgLog is the *NsgLog pointer (None for nil). */
  datatype NsgLogFile = NsgLogFile(
    name: string,
    etag: string,
    lastModified: Instant,
    lastProcessed: Instant,
    lastProcessedRecord: Instant,
    lastProcessedTimeStamp: int,
    lastRecordCount: int,
    lastProcessedRange: BlobRange,
    logTime: Instant,
    blob: Blob,
    nsgLog: Option<NsgLog>,
    nsgName: string)

  /** The zero NsgLogFile{}. */
  const EmptyLogFile := NsgLogFile("", "", ZeroTime, ZeroTime, ZeroTime, 0, 0, NoRange, ZeroTime, NoBlob, None, "")

  /**
   * The flat form of one flow tuple. The *string fields are Options: None
   * stands for the nil pointer GetFlowLogsAfter leaves in them.
   */
  datatype NsgFlowLog = NsgFlowLog(
    timestamp: int,
    systemId: Option<string>,
    category: Option<string>,
    resourceId: Option<string>,
    operationName: Option<string>,
    rule: Option<string>,
    mac: string,
    sourceIp: string,
    destinationIp: string,
    sourcePort: string,
    destinationPort: string,
    protocol: string,
    trafficFlow: string,
    traffic: string)

  function RecordTime(r: Record): Instant { r.time }

  // ------------------------------------------------------------ blob names

  /** getLogTimeFromName. */
  function GetLogTimeFromName(name: string): (r: Result<Instant>)
    ensures MatchKey(name).None? ==> r == Err(KeyMismatch(name))
    ensures r.Ok? ==> MatchKey(name).Some?
  {
    LogTimeFromName(name, KeyMismatch(name))
  }

  /** getNsgName. */
  function GetNsgName(name: string): (r: Result<string>)
    ensures r.Ok? <==> MatchKey(name).Some?
    ensures r.Ok? ==> r.value == MatchKey(name).value.name
  {
    LoggedName(name, KeyMismatch(name))
  }

  /** The value half of a Go (time.Time, error) pair: the zero time when there was an error. */
  function TimeOrZero(r: Result<Instant>): Instant
  {
    if r.Ok? then r.value else ZeroTime
  }

  /** The value half of a Go (string, error) pair: "" when there was an error. */
  function TextOrEmpty(r: Result<string>): string
  {
    if r.Ok? then r.value else ""
  }

  /**
   * NewNsgLogFile: Name, Etag and LastModified from the blob, LogTime and
   * NsgName from its name. The error returned is getNsgName's: the second
   * `:=` overwrites the one getLogTimeFromName gave.
   */
  function NewNsgLogFile(blob: Blob): (r: (NsgLogFile, Option<Error>))
    ensures r.0 == EmptyLogFile.(blob := blob, name := blob.name, etag := blob.etag,
      lastModified := blob.lastModified, logTime := r.0.logTime, nsgName := r.0.nsgName)
    ensures r.1.None? <==> MatchKey(blob.name).Some?
    ensures r.1.None? ==> r.0.nsgName == MatchKey(blob.name).value.name
    ensures GetLogTimeFromName(blob.name).Ok? ==> r.0.logTime == GetLogTimeFromName(blob.name).value
    ensures GetLogTimeFromName(blob.name).Err? ==> r.0.logTime == ZeroTime
  {
    var t := GetLogTimeFromName(blob.name);
    var n := GetNsgName(blob.name);
    (EmptyLogFile.(blob := blob, name := blob.name, etag := blob.etag, lastModified := blob.lastModified,
                   logTime := TimeOrZero(t), nsgName := TextOrEmpty(n)),
     if n.Err? then Some(n.error) else None)
  }

  /**
   * NewNsgLogFile with the two errors kept apart: the time parser's error
   * comes first, so a name whose date does not exist is reported.
   */
  function NewNsgLogFileCorrected(blob: Blob): (r: (NsgLogFile, Option<Error>))
    ensures r.0 == NewNsgLogFile(blob).0
    ensures r.1.None? <==> GetLogTimeFromName(blob.name).Ok?
  {
    var t := GetLogTimeFromName(blob.name);
    (NewNsgLogFile(blob).0, if t.Err? then Some(t.error) else NewNsgLogFile(blob).1)
  }

  /**
   * A name with the right shape whose date does not exist (the 30th of
   * February): the as-written constructor reports no error and leaves the
   * zero time as LogTime; the corrected one reports the day.
   */
  lemma NewNsgLogFileLosesDateError(blob: Blob, pre: string, y: string, h: string)
    requires '/' in pre && |y| == 4 && |h| == 2 && AllDigits(y) && AllDigits(h) && ValueOf(h) < 24
    requires blob.name == HourKey(pre, HourGroup(y, "02", "30", h))
    ensures NewNsgLogFile(blob).1 == None
    ensures NewNsgLogFile(blob).0.logTime == ZeroTime
    ensures NewNsgLogFileCorrected(blob).1 == Some(TimeOutOfRange("day"))
  {
    FebruaryThirtiethKey(pre, y, h, KeyMismatch(blob.name));
  }

  /** ShortName: the NSG name, '-', and the log hour as "2006-01-02-15". */
  function ShortName(f: NsgLogFile): string
  {
    f.nsgName + "-" + HourStamp(f.logTime)
  }

  /**
   * For the blob getSourceFileName names, the short name is the resource's
   * last path segment followed by the record's hour.
   */
  lemma ShortNameOfSourceBlob(blob: Blob, resourceId: string, t: Instant)
    requires blob.name == SourceFileName(resourceId, t)
    requires '/' in resourceId && 0 <= ToCivil(t).year <= 9999
    ensures NewNsgLogFile(blob).1 == None
    ensures ShortName(NewNsgLogFile(blob).0) == LastSegment(resourceId) + "-" + HourStamp(t)
  {
    SourceFileNameRoundTrip(resourceId, t, KeyMismatch(blob.name));
    StampsOfTruncatedHour(t);
  }

  /**
   * SaveToPath's file name: "nsgLog-" + the six submatches + ".json-" +
   * LastModified as "2006-01-02-15-04-05" + ".json"; an error when the
   * blob name does not match.
   */
  function SaveFileName(f: NsgLogFile): (r: Result<string>)
    ensures r.Ok? <==> MatchKey(f.blob.name).Some?
    ensures r.Err? ==> r == Err(KeyMismatch(f.blob.name))
  {
    match MatchKey(f.blob.name)
    case None => Err(KeyMismatch(f.blob.name))
    case Some(m) =>
      Ok("nsgLog-" + m.name + "-" + m.year + m.month + m.day + m.hour + m.minute + ".json"
         + "-" + SecondStamp(f.lastModified) + ".json")
  }

  /**
   * The file SaveToPath writes for a blob named after a record: the
   * resource's last segment, the hour digits with minute "00", and the
   * modification time.
   */
  lemma SaveFileNameOfSourceBlob(f: NsgLogFile, resourceId: string, t: Instant)
    requires f.blob.name == SourceFileName(resourceId, t)
    requires '/' in resourceId && 0 <= ToCivil(t).year <= 9999
    ensures var dt := ToCivil(t);
      SaveFileName(f) == Ok("nsgLog-" + LastSegment(resourceId) + "-" + Year4(dt.year) + Two(dt.month)
        + Two(dt.day) + Two(dt.hour) + "00" + ".json" + "-" + SecondStamp(f.lastModified) + ".json")
  {
    SourceFileNameMatch(resourceId, t);
  }

  /**
   * SaveToPath: nil exactly when the name matches, the document marshals
   * (marshalled is None when json.Marshal fails) and the write succeeds.
   */
  function SaveToPath(f: NsgLogFile, marshalled: Option<string>, writeOk: bool): (r: Option<Error>)
    ensures r.None? <==> SaveFileName(f).Ok? && marshalled.Some? && writeOk
    ensures SaveFileName(f).Err? ==> r == Some(SaveFileName(f).error)
  {
    match SaveFileName(f)
    case Err(e) => Some(e)
    case Ok(_) => if marshalled.None? then Some(MarshalFailed) else if !writeOk then Some(WriteFailed) else None
  }

  // ------------------------------------------------------------ resource ids

  /** RecordRegExp applied to the record's resourceId, with NETWORKSECURITYGROUPS as the last marker. */
  function RecordMatch(r: Record): Option<ResourceMatch>
  {
    MatchResourceId(r.resourceId, "NETWORKSECURITYGROUPS")
  }

  /** GetNsg: submatch 3. */
  function GetNsg(r: Record): (n: Result<string>)
    ensures n.Ok? <==> RecordMatch(r).Some?
    ensures n.Ok? ==> n.value == RecordMatch(r).value.name
  {
    match RecordMatch(r)
    case None => Err(ResourceIdMismatch(r.resourceId))
    case Some(m) => Ok(m.name)
  }

  /** GetSubscription: submatch 1. */
  function GetSubscription(r: Record): (n: Result<string>)
    ensures n.Ok? <==> RecordMatch(r).Some?
    ensures n.Ok? ==> n.value == RecordMatch(r).value.subscription
  {
    match RecordMatch(r)
    case None => Err(ResourceIdMismatch(r.resourceId))
    case Some(m) => Ok(m.subscription)
  }

  /** GetResourceGroup: submatch 2. */
  function GetResourceGroup(r: Record): (n: Result<string>)
    ensures n.Ok? <==> RecordMatch(r).Some?
    ensures n.Ok? ==> n.value == RecordMatch(r).value.resourceGroup
  {
    match RecordMatch(r)
    case None => Err(ResourceIdMismatch(r.resourceId))
    case Some(m) => Ok(m.resourceGroup)
  }

  // ------------------------------------------------------------ filtering

  /** Records.After: the records strictly after afterTime, in order. */
  method After(slice: seq<Record>, afterTime: Instant) returns (returnRecords: seq<Record>)
    ensures returnRecords == KeepAfter(slice, RecordTime, afterTime)
  {
    returnRecords := [];
    for i := 0 to |slice|
      invariant returnRecords == KeepAfter(slice[..i], RecordTime, afterTime)
    {
      assert slice[..i + 1][..i] == slice[..i];
      if slice[i].time > afterTime {
        returnRecords := returnRecords + [slice[i]];
      }
    }
    assert slice[..|slice|] == slice;
  }

  // ------------------------------------------------------------ flow tuples

  /** A flow tuple together with what the loops know about it when they reach it. */
  datatype TupleRef = TupleRef(resourceId: string, rule: string, mac: string, tuple: string)

  function TuplesOf(resourceId: string, rule: string, mac: string, ts: seq<string>): seq<TupleRef>
    decreases |ts|
  {
    if |ts| == 0 then []
    else TuplesOf(resourceId, rule, mac, ts[..|ts| - 1]) + [TupleRef(resourceId, rule, mac, ts[|ts| - 1])]
  }

  function SubFlowTuples(resourceId: string, rule: string, subs: seq<SubFlow>): seq<TupleRef>
    decreases |subs|
  {
    if |subs| == 0 then []
    else
      var s := subs[|subs| - 1];
      SubFlowTuples(resourceId, rule, subs[..|subs| - 1]) + TuplesOf(resourceId, rule, s.mac, s.flowTuples)
  }

  function FlowTuples(resourceId: string, flows: seq<Flow>): seq<TupleRef>
    decreases |flows|
  {
    if |flows| == 0 then []
    else
      var f := flows[|flows| - 1];
      FlowTuples(resourceId, flows[..|flows| - 1]) + SubFlowTuples(resourceId, f.rule, f.flows)
  }

  /** Every tuple of a record, in flow, sub-flow and tuple order. */
  function RecordTuples(r: Record): seq<TupleRef>
  {
    FlowTuples(r.resourceId, r.properties.flows)
  }

  /** The tuples of all records, in record order. */
  function AllTuples(records: seq<Record>): seq<TupleRef>
    decreases |records|
  {
    if |records| == 0 then []
    else AllTuples(records[..|records| - 1]) + RecordTuples(records[|records| - 1])
  }

  /** What part gives for each record strictly after t, in record order. */
  function Gathered(records: seq<Record>, t: Instant, part: Record -> seq<TupleRef>): seq<TupleRef>
    decreases |records|
  {
    if |records| == 0 then []
    else
      var r := records[|records| - 1];
      Gathered(records[..|records| - 1], t, part) + (if Calendar.After(r.time, t) then part(r) else [])
  }

  /** The tuples the loops visit: those of the records strictly after t. */
  function TuplesAfter(records: seq<Record>, t: Instant): seq<TupleRef>
  {
    Gathered(records, t, RecordTuples)
  }

  lemma {:induction false} TuplesOfAppend(resourceId: string, rule: string, mac: string, a: seq<string>, b: seq<string>)
    ensures TuplesOf(resourceId, rule, mac, a + b) == TuplesOf(resourceId, rule, mac, a) + TuplesOf(resourceId, rule, mac, b)
    decreases |b|
  {
    if |b| == 0 {
      assert a + b == a;
    } else {
      var n := |b| - 1;
      assert (a + b)[..|a + b| - 1] == a + b[..n];
      TuplesOfAppend(resourceId, rule, mac, a, b[..n]);
      AppendAssoc(TuplesOf(resourceId, rule, mac, a), TuplesOf(resourceId, rule, mac, b[..n]), [TupleRef(resourceId, rule, mac, b[n])]);
    }
  }

  lemma {:induction false} SubFlowTuplesAppend(resourceId: string, rule: string, a: seq<SubFlow>, b: seq<SubFlow>)
    ensures SubFlowTuples(resourceId, rule, a + b) == SubFlowTuples(resourceId, rule, a) + SubFlowTuples(resourceId, rule, b)
    decreases |b|
  {
    if |b| == 0 {
      assert a + b == a;
    } else {
      var n := |b| - 1;
      assert (a + b)[..|a + b| - 1] == a + b[..n];
      SubFlowTuplesAppend(resourceId, rule, a, b[..n]);
      AppendAssoc(SubFlowTuples(resourceId, rule, a), SubFlowTuples(resourceId, rule, b[..n]), TuplesOf(resourceId, rule, b[n].mac, b[n].flowTuples));
    }
  }

  lemma {:induction false} FlowTuplesAppend(resourceId: string, a: seq<Flow>, b: seq<Flow>)
    ensures FlowTuples(resourceId, a + b) == FlowTuples(resourceId, a) + FlowTuples(resourceId, b)
    decreases |b|
  {
    if |b| == 0 {
      assert a + b == a;
    } else {
      var n := |b| - 1;
      assert (a + b)[..|a + b| - 1] == a + b[..n];
      FlowTuplesAppend(resourceId, a, b[..n]);
      AppendAssoc(FlowTuples(resourceId, a), FlowTuples(resourceId, b[..n]), SubFlowTuples(resourceId, b[n].rule, b[n].flows));
    }
  }

  lemma {:induction false} AllTuplesAppend(a: seq<Record>, b: seq<Record>)
    ensures AllTuples(a + b) == AllTuples(a) + AllTuples(b)
    decreases |b|
  {
    if |b| == 0 {
      assert a + b == a;
    } else {
      var n := |b| - 1;
      assert (a + b)[..|a + b| - 1] == a + b[..n];
      AllTuplesAppend(a, b[..n]);
      AppendAssoc(AllTuples(a), AllTuples(b[..n]), RecordTuples(b[n]));
    }
  }

  lemma {:induction false} GatheredAppend(a: seq<Record>, b: seq<Record>, t: Instant, part: Record -> seq<TupleRef>)
    ensures Gathered(a + b, t, part) == Gathered(a, t, part) + Gathered(b, t, part)
    decreases |b|
  {
    if |b| == 0 {
      assert a + b == a;
    } else {
      var n := |b| - 1;
      assert (a + b)[..|a + b| - 1] == a + b[..n];
      GatheredAppend(a, b[..n], t, part);
      AppendAssoc(Gathered(a, t, part), Gathered(b[..n], t, part), (if Calendar.After(b[n].time, t) then part(b[n]) else []));
    }
  }

  /** The loops visit exactly the tuples of the records Records.After keeps. */
  lemma {:induction false} TuplesAfterFiltered(records: seq<Record>, t: Instant)
    ensures TuplesAfter(records, t) == AllTuples(KeepAfter(records, RecordTime, t))
    decreases |records|
  {
    if |records| > 0 {
      var pre, r := records[..|records| - 1], records[|records| - 1];
      TuplesAfterFiltered(pre, t);
      var kept := KeepAfter(pre, RecordTime, t);
      if Calendar.After(r.time, t) {
        AllTuplesAppend(kept, [r]);
        assert AllTuples([r]) == AllTuples([r][..0]) + RecordTuples(r);
      } else {
        assert kept + [] == kept;
      }
    }
  }

  /** A tuple with exactly the eight comma-separated fields a version-1 flow tuple has. */
  predicate WellFormed(ref: TupleRef)
  {
    |Split(ref.tuple, ',')| == 8
  }

  /** The index of the first tuple that is not well formed, or |refs| when all are. */
  function FirstBad(refs: seq<TupleRef>): (k: nat)
    ensures k <= |refs|
    ensures forall i :: 0 <= i < k ==> WellFormed(refs[i])
    ensures k < |refs| ==> !WellFormed(refs[k])
    decreases |refs|
  {
    if |refs| == 0 then 0
    else if !WellFormed(refs[0]) then 0
    else 1 + FirstBad(refs[1..])
  }

  lemma {:induction false} TuplesOfLength(resourceId: string, rule: string, mac: string, ts: seq<string>)
    ensures |TuplesOf(resourceId, rule, mac, ts)| == |ts|
    decreases |ts|
  {
    if |ts| > 0 {
      TuplesOfLength(resourceId, rule, mac, ts[..|ts| - 1]);
    }
  }

  /** FirstBad is the only index with its two properties. */
  lemma FirstBadUnique(refs: seq<TupleRef>, k: nat)
    requires k <= |refs|
    requires forall i :: 0 <= i < k ==> WellFormed(refs[i])
    requires k < |refs| ==> !WellFormed(refs[k])
    ensures FirstBad(refs) == k
  {
  }

  /** Field i of a split tuple; "" past the end (never reached: only well-formed tuples are converted). */
  function FieldAt(fields: seq<string>, i: nat): string
  {
    if i < |fields| then fields[i] else ""
  }

  /**
   * The flat form of a well-formed tuple: fields 1 to 7 in order, the first
   * field as the timestamp (0 when it does not parse, clamped when it
   * overflows), the rule and resource id of the enclosing flow and record,
   * and the MAC address with colons.
   */
  function FlowLog(ref: TupleRef): NsgFlowLog
  {
    var fields := Split(ref.tuple, ',');
    NsgFlowLog(ParseInt(fields[0]).value, None, None, Some(ref.resourceId), None, Some(ref.rule), Grouped(ref.mac),
      FieldAt(fields, 1), FieldAt(fields, 2), FieldAt(fields, 3), FieldAt(fields, 4),
      FieldAt(fields, 5), FieldAt(fields, 6), FieldAt(fields, 7))
  }

  /** out is conv applied to refs, one entry per tuple, and every tuple in refs is well formed. */
  ghost predicate Converted<E>(out: seq<E>, refs: seq<TupleRef>, conv: TupleRef -> E)
  {
    |out| == |refs| && forall n :: 0 <= n < |refs| ==> WellFormed(refs[n]) && out[n] == conv(refs[n])
  }

  /**
   * What converting refs in order, stopping at the first malformed tuple,
   * returns: the flat form of the tuples before it, and an error naming it
   * exactly when there is one.
   */
  ghost predicate Outcome<E>(logs: seq<E>, err: Option<Error>, refs: seq<TupleRef>, conv: TupleRef -> E)
  {
    var k := FirstBad(refs);
    Converted(logs, refs[..k], conv)
    && (err.None? <==> k == |refs|)
    && (k < |refs| ==> err == Some(TupleTokens(refs[k].tuple)))
  }

  /** Two conversions one after the other convert the tuples of both. */
  lemma ConvertedAppend<E>(l1: seq<E>, a: seq<TupleRef>, l2: seq<E>, b: seq<TupleRef>, conv: TupleRef -> E)
    requires Converted(l1, a, conv) && Converted(l2, b, conv)
    ensures Converted(l1 + l2, a + b, conv)
  {
    forall n | |a| <= n < |a + b| ensures WellFormed((a + b)[n]) && (l1 + l2)[n] == conv((a + b)[n]) {
      assert (a + b)[n] == b[n - |a|];
      assert (l1 + l2)[n] == l2[n - |a|];
    }
  }

  /** Running through a without error and then through b is running through a + b. */
  lemma OutcomeAppend<E>(l1: seq<E>, a: seq<TupleRef>, l2: seq<E>, e: Option<Error>, b: seq<TupleRef>, conv: TupleRef -> E)
    requires Outcome(l1, None, a, conv) && Outcome(l2, e, b, conv)
    ensures Outcome(l1 + l2, e, a + b, conv)
  {
    var k := FirstBad(b);
    FirstBadUnique(a + b, |a| + k);
    assert (a + b)[..|a| + k] == a + b[..k];
    assert a[..|a|] == a;
    ConvertedAppend(l1, a, l2, b[..k], conv);
  }

  /** A stop inside a is a stop inside a + b. */
  lemma OutcomeStop<E>(logs: seq<E>, e: Error, a: seq<TupleRef>, b: seq<TupleRef>, conv: TupleRef -> E)
    requires Outcome(logs, Some(e), a, conv)
    ensures Outcome(logs, Some(e), a + b, conv)
  {
    var k := FirstBad(a);
    FirstBadUnique(a + b, k);
    assert (a + b)[..k] == a[..k];
  }

  /** One turn of the loop over tuples, for a tuple with its eight fields: its flat form follows those before it. */
  lemma TupleNext<E>(resourceId: string, rule: string, mac: string, ts: seq<string>, l: nat, acc: seq<E>, x: E, conv: TupleRef -> E)
    requires l < |ts|
    requires Converted(acc, TuplesOf(resourceId, rule, mac, ts[..l]), conv)
    requires WellFormed(TupleRef(resourceId, rule, mac, ts[l]))
    requires x == conv(TupleRef(resourceId, rule, mac, ts[l]))
    ensures Converted(acc + [x], TuplesOf(resourceId, rule, mac, ts[..l + 1]), conv)
  {
    assert ts[..l + 1][..l] == ts[..l];
    ConvertedAppend(acc, TuplesOf(resourceId, rule, mac, ts[..l]), [x], [TupleRef(resourceId, rule, mac, ts[l])], conv);
  }

  /** The loop over tuples stops at the first without eight fields, with what it made before it and an error naming it. */
  lemma TupleStop<E>(resourceId: string, rule: string, mac: string, ts: seq<string>, l: nat, acc: seq<E>, conv: TupleRef -> E)
    requires l < |ts|
    requires Converted(acc, TuplesOf(resourceId, rule, mac, ts[..l]), conv)
    requires !WellFormed(TupleRef(resourceId, rule, mac, ts[l]))
    ensures Outcome(acc, Some(TupleTokens(ts[l])), TuplesOf(resourceId, rule, mac, ts), conv)
  {
    var ref := TupleRef(resourceId, rule, mac, ts[l]);
    var done := TuplesOf(resourceId, rule, mac, ts[..l]);
    var all := TuplesOf(resourceId, rule, mac, ts);
    assert ts[..l + 1][..l] == ts[..l];
    assert TuplesOf(resourceId, rule, mac, ts[..l + 1]) == done + [ref];
    assert ts == ts[..l + 1] + ts[l + 1..];
    TuplesOfAppend(resourceId, rule, mac, ts[..l + 1], ts[l + 1..]);
    assert all == done + [ref] + TuplesOf(resourceId, rule, mac, ts[l + 1..]);
    TuplesOfLength(resourceId, rule, mac, ts[..l]);
    assert all[..l] == done && all[l] == ref;
    FirstBadUnique(all, l);
  }

  /** A loop over tuples that converted all of them returns them all and no error. */
  lemma TuplesDone<E>(refs: seq<TupleRef>, acc: seq<E>, conv: TupleRef -> E)
    requires Converted(acc, refs, conv)
    ensures Outcome(acc, None, refs, conv)
  {
    FirstBadUnique(refs, |acc|);
    assert refs[..|acc|] == refs;
  }

  /** One turn of the loop over sub-flows: the sub-flow's tuples follow those before it. */
  lemma SubFlowStep<E>(resourceId: string, rule: string, subs: seq<SubFlow>, k: nat, l1: seq<E>, l2: seq<E>, e: Option<Error>, conv: TupleRef -> E)
    requires k < |subs|
    requires Outcome(l1, None, SubFlowTuples(resourceId, rule, subs[..k]), conv)
    requires Outcome(l2, e, TuplesOf(resourceId, rule, subs[k].mac, subs[k].flowTuples), conv)
    ensures e.None? ==> Outcome(l1 + l2, None, SubFlowTuples(resourceId, rule, subs[..k + 1]), conv)
    ensures e.Some? ==> Outcome(l1 + l2, e, SubFlowTuples(resourceId, rule, subs), conv)
  {
    assert subs[..k + 1][..k] == subs[..k];
    OutcomeAppend(l1, SubFlowTuples(resourceId, rule, subs[..k]),
      l2, e, TuplesOf(resourceId, rule, subs[k].mac, subs[k].flowTuples), conv);
    if e.Some? {
      assert subs == subs[..k + 1] + subs[k + 1..];
      SubFlowTuplesAppend(resourceId, rule, subs[..k + 1], subs[k + 1..]);
      OutcomeStop(l1 + l2, e.value, SubFlowTuples(resourceId, rule, subs[..k + 1]),
        SubFlowTuples(resourceId, rule, subs[k + 1..]), conv);
    }
  }

  /** One turn of the loop over flows: the flow's tuples follow those before it. */
  lemma FlowStep<E>(resourceId: string, flows: seq<Flow>, j: nat, l1: seq<E>, l2: seq<E>, e: Option<Error>, conv: TupleRef -> E)
    requires j < |flows|
    requires Outcome(l1, None, FlowTuples(resourceId, flows[..j]), conv)
    requires Outcome(l2, e, SubFlowTuples(resourceId, flows[j].rule, flows[j].flows), conv)
    ensures e.None? ==> Outcome(l1 + l2, None, FlowTuples(resourceId, flows[..j + 1]), conv)
    ensures e.Some? ==> Outcome(l1 + l2, e, FlowTuples(resourceId, flows), conv)
  {
    assert flows[..j + 1][..j] == flows[..j];
    OutcomeAppend(l1, FlowTuples(resourceId, flows[..j]),
      l2, e, SubFlowTuples(resourceId, flows[j].rule, flows[j].flows), conv);
    if e.Some? {
      assert flows == flows[..j + 1] + flows[j + 1..];
      FlowTuplesAppend(resourceId, flows[..j + 1], flows[j + 1..]);
      OutcomeStop(l1 + l2, e.value, FlowTuples(resourceId, flows[..j + 1]),
        FlowTuples(resourceId, flows[j + 1..]), conv);
    }
  }

  /** Converting the tuples of one sub-flow (the innermost loop). */
  method SubFlowLogs(resourceId: string, rule: string, subFlow: SubFlow) returns (flowLogs: seq<NsgFlowLog>, err: Option<Error>)
    ensures Outcome(flowLogs, err, TuplesOf(resourceId, rule, subFlow.mac, subFlow.flowTuples), FlowLog)
  {
    var ts := subFlow.flowTuples;
    flowLogs := [];
    var l := 0;
    while l < |ts|
      invariant 0 <= l <= |ts|
      invariant Converted(flowLogs, TuplesOf(resourceId, rule, subFlow.mac, ts[..l]), FlowLog)
    {
      var flowTuple := ts[l];
      var tuples := Split(flowTuple, ',');
      if |tuples| != 8 {
        TupleStop(resourceId, rule, subFlow.mac, ts, l, flowLogs, FlowLog);
        return flowLogs, Some(TupleTokens(flowTuple));
      }
      var epochTime := ParseInt(tuples[0]).value;
      var mac := FormatMac(subFlow.mac);
      var flowLog := NsgFlowLog(epochTime, None, None, Some(resourceId), None, Some(rule), mac,
        tuples[1], tuples[2], tuples[3], tuples[4], tuples[5], tuples[6], tuples[7]);
      assert flowLog == FlowLog(TupleRef(resourceId, rule, subFlow.mac, flowTuple));
      TupleNext(resourceId, rule, subFlow.mac, ts, l, flowLogs, flowLog, FlowLog);
      flowLogs := flowLogs + [flowLog];
      l := l + 1;
    }
    assert ts[..l] == ts;
    TuplesDone(TuplesOf(resourceId, rule, subFlow.mac, ts), flowLogs, FlowLog);
    return flowLogs, None;
  }

  /** Converting the sub-flows of one flow. */
  method FlowLogs(resourceId: string, flow: Flow) returns (flowLogs: seq<NsgFlowLog>, err: Option<Error>)
    ensures Outcome(flowLogs, err, SubFlowTuples(resourceId, flow.rule, flow.flows), FlowLog)
  {
    var subs := flow.flows;
    flowLogs := [];
    var k := 0;
    while k < |subs|
      invariant 0 <= k <= |subs|
      invariant Outcome(flowLogs, None, SubFlowTuples(resourceId, flow.rule, subs[..k]), FlowLog)
    {
      var logs, e := SubFlowLogs(resourceId, flow.rule, subs[k]);
      SubFlowStep(resourceId, flow.rule, subs, k, flowLogs, logs, e, FlowLog);
      flowLogs := flowLogs + logs;
      if e.Some? {
        return flowLogs, e;
      }
      k := k + 1;
    }
    assert subs[..k] == subs;
    return flowLogs, None;
  }

  /**
   * Converting the flows of one record, each entry keeping the rule of its
   * own flow (the corrected form of RecordLogs).
   */
  method RecordLogsCorrected(record: Record) returns (flowLogs: seq<NsgFlowLog>, err: Option<Error>)
    ensures Outcome(flowLogs, err, RecordTuples(record), FlowLog)
  {
    var flows := record.properties.flows;
    flowLogs := [];
    var j := 0;
    while j < |flows|
      invariant 0 <= j <= |flows|
      invariant Outcome(flowLogs, None, FlowTuples(record.resourceId, flows[..j]), FlowLog)
    {
      var logs, e := FlowLogs(record.resourceId, flows[j]);
      FlowStep(record.resourceId, flows, j, flowLogs, logs, e, FlowLog);
      flowLogs := flowLogs + logs;
      if e.Some? {
        return flowLogs, e;
      }
      j := j + 1;
    }
    assert flows[..j] == flows;
    return flowLogs, None;
  }

  /**
   * GetFlowLogsAfter as evidently intended: one flat entry per tuple of the
   * records strictly after afterTime, in record, flow, sub-flow and tuple
   * order, each with the rule of its own flow and the resource id of its own
   * record. At the first tuple that does not have eight fields it stops,
   * returning the entries made so far and an error.
   */
  method GetFlowLogsAfterCorrected(nsgLog: NsgLog, afterTime: Instant) returns (flowLogs: seq<NsgFlowLog>, err: Option<Error>)
    ensures Outcome(flowLogs, err, TuplesAfter(nsgLog.records, afterTime), FlowLog)
  {
    var records := nsgLog.records;
    flowLogs := [];
    var i := 0;
    while i < |records|
      invariant 0 <= i <= |records|
      invariant Outcome(flowLogs, None, TuplesAfter(records[..i], afterTime), FlowLog)
    {
      var record := records[i];
      var logs, e := [], None;
      if record.time > afterTime {
        logs, e := RecordLogsCorrected(record);
      }
      RecordStep(records, afterTime, i, flowLogs, logs, e, FlowLog, RecordTuples);
      flowLogs := flowLogs + logs;
      if e.Some? {
        return flowLogs, e;
      }
      i := i + 1;
    }
    assert records[..i] == records;
    return flowLogs, None;
  }

  /** One turn of the loop over records: a record after the cut-off adds its part, any other adds nothing. */
  lemma RecordStep<E>(records: seq<Record>, t: Instant, i: nat, l1: seq<E>, l2: seq<E>, e: Option<Error>,
                      conv: TupleRef -> E, part: Record -> seq<TupleRef>)
    requires i < |records|
    requires Outcome(l1, None, Gathered(records[..i], t, part), conv)
    requires Calendar.After(records[i].time, t) ==> Outcome(l2, e, part(records[i]), conv)
    requires !Calendar.After(records[i].time, t) ==> l2 == [] && e == None
    ensures e.None? ==> Outcome(l1 + l2, None, Gathered(records[..i + 1], t, part), conv)
    ensures e.Some? ==> Outcome(l1 + l2, e, Gathered(records, t, part), conv)
    ensures e.None? <==> !Calendar.After(records[i].time, t) || FirstBad(part(records[i])) == |part(records[i])|
  {
    assert records[..i + 1][..i] == records[..i];
    var done := Gathered(records[..i], t, part);
    if Calendar.After(records[i].time, t) {
      OutcomeAppend(l1, done, l2, e, part(records[i]), conv);
    } else {
      assert Gathered(records[..i + 1], t, part) == done + [];
      assert l1 + l2 == l1;
      OutcomeAppend(l1, done, l2, e, [], conv);
    }
    if e.Some? {
      assert records == records[..i + 1] + records[i + 1..];
      GatheredAppend(records[..i + 1], records[i + 1..], t, part);
      OutcomeStop(l1 + l2, e.value, Gathered(records[..i + 1], t, part), Gathered(records[i + 1..], t, part), conv);
    }
  }

  // ------------------------------------------------------------ the shared range variables

  /*
   * Each entry's Rule is a pointer to the Rule of the range variable `flow`,
   * and its ResourceID a pointer to the ResourceID of the range variable
   * `record` (parser/types.go, lines 249 and 258). A range clause before
   * Go 1.22 declares its variables once per execution of the for statement
   * and overwrites them on every turn, so after GetFlowLogsAfter returns,
   * every entry reads what the variable last held: for Rule, the flow at
   * which the loop over its record's flows stopped; for ResourceID, the
   * record at which the loop over all records stopped. The methods below
   * keep the variables as the loops do and point the entries at them when
   * the loop that owns them ends (RuleTo, ResourceIdTo).
   */

  /**
   * The rule in `flow` once the loop over r's flows is over. The loop stops
   * in the flow that holds the first tuple without eight fields, and that
   * tuple carries its flow's rule; when there is no such tuple it runs
   * through to the last flow; the zero Flow's "" when r has none.
   */
  function FlowVarRule(r: Record): string
  {
    var refs := RecordTuples(r);
    var k := FirstBad(refs);
    var flows := r.properties.flows;
    if k < |refs| then refs[k].rule else if |flows| > 0 then flows[|flows| - 1].rule else ""
  }

  /**
   * The resource id in `record` once the loop over records is over: that of
   * the first tuple without eight fields, which is its record's, else that
   * of the last record, whether after t or not; the zero Record's "" when
   * there is none.
   */
  function RecordVarId(records: seq<Record>, t: Instant): string
  {
    var refs := TuplesAfter(records, t);
    var k := FirstBad(refs);
    if k < |refs| then refs[k].resourceId else if |records| > 0 then records[|records| - 1].resourceId else ""
  }

  /** The tuples of one sub-flow carry the resource id and rule they were listed under. */
  lemma {:induction false} TuplesOfFields(resourceId: string, rule: string, mac: string, ts: seq<string>)
    ensures forall n :: 0 <= n < |TuplesOf(resourceId, rule, mac, ts)| ==>
      TuplesOf(resourceId, rule, mac, ts)[n].resourceId == resourceId && TuplesOf(resourceId, rule, mac, ts)[n].rule == rule
    decreases |ts|
  {
    if |ts| > 0 {
      TuplesOfFields(resourceId, rule, mac, ts[..|ts| - 1]);
    }
  }

  /** The tuples of a flow's sub-flows carry the record's resource id and the flow's rule. */
  lemma {:induction false} SubFlowTuplesFields(resourceId: string, rule: string, subs: seq<SubFlow>)
    ensures forall n :: 0 <= n < |SubFlowTuples(resourceId, rule, subs)| ==>
      SubFlowTuples(resourceId, rule, subs)[n].resourceId == resourceId && SubFlowTuples(resourceId, rule, subs)[n].rule == rule
    decreases |subs|
  {
    if |subs| > 0 {
      var s := subs[|subs| - 1];
      SubFlowTuplesFields(resourceId, rule, subs[..|subs| - 1]);
      TuplesOfFields(resourceId, rule, s.mac, s.flowTuples);
    }
  }

  /** The tuples of a record's flows carry the record's resource id. */
  lemma {:induction false} FlowTuplesResourceId(resourceId: string, flows: seq<Flow>)
    ensures forall n :: 0 <= n < |FlowTuples(resourceId, flows)| ==> FlowTuples(resourceId, flows)[n].resourceId == resourceId
    decreases |flows|
  {
    if |flows| > 0 {
      var f := flows[|flows| - 1];
      FlowTuplesResourceId(resourceId, flows[..|flows| - 1]);
      SubFlowTuplesFields(resourceId, f.rule, f.flows);
    }
  }

  /**
   * When the tuples of a, and of b up to its k-th, have eight fields and the
   * k-th of b has not, the first malformed tuple of a + b + c is that one.
   */
  lemma FirstBadIn(a: seq<TupleRef>, b: seq<TupleRef>, c: seq<TupleRef>)
    requires FirstBad(a) == |a| && FirstBad(b) < |b|
    ensures FirstBad(a + b + c) == |a| + FirstBad(b) && (a + b + c)[|a| + FirstBad(b)] == b[FirstBad(b)]
  {
    FirstBadUnique(a + b + c, |a| + FirstBad(b));
  }

  /**
   * The loop over flows stops in flow j: the flows before it have only
   * well-formed tuples and flow j has one that is not. Then FlowVarRule
   * is flows[j]'s rule.
   */
  lemma FlowStopRule(r: Record, j: nat)
    requires j < |r.properties.flows|
    requires FirstBad(FlowTuples(r.resourceId, r.properties.flows[..j])) == |FlowTuples(r.resourceId, r.properties.flows[..j])|
    requires var f := r.properties.flows[j]; FirstBad(SubFlowTuples(r.resourceId, f.rule, f.flows)) < |SubFlowTuples(r.resourceId, f.rule, f.flows)|
    ensures FirstBad(RecordTuples(r)) < |RecordTuples(r)|
    ensures FlowVarRule(r) == r.properties.flows[j].rule
  {
    var flows, rid := r.properties.flows, r.resourceId;
    var a, b := FlowTuples(rid, flows[..j]), SubFlowTuples(rid, flows[j].rule, flows[j].flows);
    assert flows[..j + 1] == flows[..j] + [flows[j]];
    FlowTuplesAppend(rid, flows[..j], [flows[j]]);
    assert FlowTuples(rid, [flows[j]]) == FlowTuples(rid, [flows[j]][..0]) + b;
    assert flows == flows[..j + 1] + flows[j + 1..];
    FlowTuplesAppend(rid, flows[..j + 1], flows[j + 1..]);
    FirstBadIn(a, b, FlowTuples(rid, flows[j + 1..]));
    SubFlowTuplesFields(rid, flows[j].rule, flows[j].flows);
  }

  /**
   * The loop over records stops at record i: after t, with a malformed
   * tuple, and the tuples of the records before it all well formed. Then the
   * first malformed tuple of the whole log is in record i.
   */
  lemma RecordStopId(records: seq<Record>, t: Instant, i: nat, part: Record -> seq<TupleRef>)
    requires i < |records| && Calendar.After(records[i].time, t)
    requires FirstBad(Gathered(records[..i], t, part)) == |Gathered(records[..i], t, part)|
    requires FirstBad(part(records[i])) < |part(records[i])|
    ensures var refs := Gathered(records, t, part);
      FirstBad(refs) < |refs| && refs[FirstBad(refs)] == part(records[i])[FirstBad(part(records[i]))]
  {
    var a, b := Gathered(records[..i], t, part), part(records[i]);
    assert records[..i + 1][..i] == records[..i];
    assert Gathered(records[..i + 1], t, part) == a + b;
    assert records == records[..i + 1] + records[i + 1..];
    GatheredAppend(records[..i + 1], records[i + 1..], t, part);
    FirstBadIn(a, b, Gathered(records[i + 1..], t, part));
  }

  /** The tuples, each read through a rule pointer that now holds rule. */
  function WithRule(refs: seq<TupleRef>, rule: string): seq<TupleRef>
  {
    seq(|refs|, n requires 0 <= n < |refs| => refs[n].(rule := rule))
  }

  /** The tuples, each read through a resource-id pointer that now holds resourceId. */
  function WithResourceId(refs: seq<TupleRef>, resourceId: string): seq<TupleRef>
  {
    seq(|refs|, n requires 0 <= n < |refs| => refs[n].(resourceId := resourceId))
  }

  /** The entries, their Rule pointing at a variable that now holds rule. */
  function RuleTo(logs: seq<NsgFlowLog>, rule: string): seq<NsgFlowLog>
  {
    seq(|logs|, n requires 0 <= n < |logs| => logs[n].(rule := Some(rule)))
  }

  /** The entries, their ResourceID pointing at a variable that now holds resourceId. */
  function ResourceIdTo(logs: seq<NsgFlowLog>, resourceId: string): seq<NsgFlowLog>
  {
    seq(|logs|, n requires 0 <= n < |logs| => logs[n].(resourceId := Some(resourceId)))
  }

  /** The tuples of r as its entries read them: every one with the rule FlowVarRule(r). */
  function AliasedRecordTuples(r: Record): seq<TupleRef>
  {
    WithRule(RecordTuples(r), FlowVarRule(r))
  }

  /**
   * The tuples GetFlowLogsAfter visits, as its entries read them after it
   * returns: those of TuplesAfter, in the same order, each record's with
   * that record's FlowVarRule, and all with RecordVarId.
   */
  function AsWrittenTuples(records: seq<Record>, t: Instant): seq<TupleRef>
  {
    WithResourceId(Gathered(records, t, AliasedRecordTuples), RecordVarId(records, t))
  }

  /** Re-pointing a tuple's rule and resource id re-points the two fields of its flat form, and nothing else. */
  lemma FlowLogRetargeted(ref: TupleRef, resourceId: string, rule: string)
    ensures FlowLog(ref.(resourceId := resourceId, rule := rule))
         == FlowLog(ref).(resourceId := Some(resourceId), rule := Some(rule))
  {
  }

  /** Re-pointing the rules keeps every tuple's fields, so the loops stop at the same tuple. */
  lemma FirstBadWithRule(refs: seq<TupleRef>, rule: string)
    ensures |WithRule(refs, rule)| == |refs|
    ensures FirstBad(WithRule(refs, rule)) == FirstBad(refs)
  {
    FirstBadUnique(WithRule(refs, rule), FirstBad(refs));
  }

  /** Pointing the entries at a rule changes neither where the loops stop nor what else they hold. */
  lemma OutcomeWithRule(logs: seq<NsgFlowLog>, e: Option<Error>, refs: seq<TupleRef>, rule: string)
    requires Outcome(logs, e, refs, FlowLog)
    ensures FirstBad(WithRule(refs, rule)) == FirstBad(refs)
    ensures Outcome(RuleTo(logs, rule), e, WithRule(refs, rule), FlowLog)
  {
    var k := FirstBad(refs);
    var w := WithRule(refs, rule);
    FirstBadWithRule(refs, rule);
    forall n | 0 <= n < k ensures WellFormed(w[..k][n]) && RuleTo(logs, rule)[n] == FlowLog(w[..k][n]) {
      assert w[..k][n] == refs[..k][n].(rule := rule);
      FlowLogRetargeted(refs[n], refs[n].resourceId, rule);
    }
  }

  /** Pointing the entries at a resource id changes neither where the loops stop nor what else they hold. */
  lemma OutcomeWithResourceId(logs: seq<NsgFlowLog>, e: Option<Error>, refs: seq<TupleRef>, resourceId: string)
    requires Outcome(logs, e, refs, FlowLog)
    ensures FirstBad(WithResourceId(refs, resourceId)) == FirstBad(refs)
    ensures Outcome(ResourceIdTo(logs, resourceId), e, WithResourceId(refs, resourceId), FlowLog)
  {
    var k := FirstBad(refs);
    var w := WithResourceId(refs, resourceId);
    FirstBadUnique(w, k);
    forall n | 0 <= n < k ensures WellFormed(w[..k][n]) && ResourceIdTo(logs, resourceId)[n] == FlowLog(w[..k][n]) {
      assert w[..k][n] == refs[..k][n].(resourceId := resourceId);
      FlowLogRetargeted(refs[n], resourceId, refs[n].rule);
    }
  }

  /**
   * The tuples gathered with each record's rule re-pointed are TuplesAfter,
   * in the same order, differing at most in their rules.
   */
  lemma {:induction false} AliasedShape(records: seq<Record>, t: Instant)
    ensures var g, refs := Gathered(records, t, AliasedRecordTuples), TuplesAfter(records, t);
      |g| == |refs| && forall n :: 0 <= n < |g| ==> g[n] == refs[n].(rule := g[n].rule)
    decreases |records|
  {
    if |records| > 0 {
      var pre, r := records[..|records| - 1], records[|records| - 1];
      AliasedShape(pre, t);
      var g, refs := Gathered(records, t, AliasedRecordTuples), TuplesAfter(records, t);
      var g0, refs0 := Gathered(pre, t, AliasedRecordTuples), TuplesAfter(pre, t);
      if Calendar.After(r.time, t) {
        assert g == g0 + AliasedRecordTuples(r) && refs == refs0 + RecordTuples(r);
        forall n | 0 <= n < |g| ensures g[n] == refs[n].(rule := g[n].rule) {
          if n >= |g0| {
            assert g[n] == AliasedRecordTuples(r)[n - |g0|];
            assert refs[n] == RecordTuples(r)[n - |g0|];
          }
        }
      } else {
        assert g == g0 + [] && refs == refs0 + [];
      }
    }
  }

  /** The first malformed tuple and the resource ids are the same whether the rules are re-pointed or not. */
  lemma AliasedStop(records: seq<Record>, t: Instant)
    ensures var g, refs := Gathered(records, t, AliasedRecordTuples), TuplesAfter(records, t);
      && |g| == |refs| && FirstBad(g) == FirstBad(refs)
      && forall n :: 0 <= n < |g| ==> g[n].resourceId == refs[n].resourceId
  {
    AliasedShape(records, t);
    FirstBadUnique(TuplesAfter(records, t), FirstBad(Gathered(records, t, AliasedRecordTuples)));
  }

  /**
   * The loop over records stops at record i: its entries, and those before
   * it, read the resource id of records[i].
   */
  lemma RecordStopped(records: seq<Record>, t: Instant, i: nat, logs: seq<NsgFlowLog>, e: Option<Error>)
    requires i < |records| && Calendar.After(records[i].time, t)
    requires FirstBad(Gathered(records[..i], t, AliasedRecordTuples)) == |Gathered(records[..i], t, AliasedRecordTuples)|
    requires FirstBad(AliasedRecordTuples(records[i])) < |AliasedRecordTuples(records[i])|
    requires Outcome(logs, e, Gathered(records, t, AliasedRecordTuples), FlowLog)
    ensures Outcome(ResourceIdTo(logs, records[i].resourceId), e, AsWrittenTuples(records, t), FlowLog)
  {
    var r := records[i];
    RecordStopId(records, t, i, AliasedRecordTuples);
    FlowTuplesResourceId(r.resourceId, r.properties.flows);
    AliasedStop(records, t);
    assert RecordVarId(records, t) == r.resourceId;
    OutcomeWithResourceId(logs, e, Gathered(records, t, AliasedRecordTuples), r.resourceId);
  }

  /** The loop over records runs through: every entry reads the resource id of the last record. */
  lemma RecordsDone(records: seq<Record>, t: Instant, logs: seq<NsgFlowLog>, resourceId: string)
    requires Outcome(logs, None, Gathered(records, t, AliasedRecordTuples), FlowLog)
    requires resourceId == if |records| > 0 then records[|records| - 1].resourceId else ""
    ensures Outcome(ResourceIdTo(logs, resourceId), None, AsWrittenTuples(records, t), FlowLog)
  {
    AliasedStop(records, t);
    assert RecordVarId(records, t) == resourceId;
    OutcomeWithResourceId(logs, None, Gathered(records, t, AliasedRecordTuples), resourceId);
  }

  /**
   * What the entries read after GetFlowLogsAfter returns: the tuples of
   * TuplesAfter, in the same order, with the same first malformed tuple,
   * each with the resource id RecordVarId and, for the tuples of a record
   * r, the rule FlowVarRule(r).
   */
  lemma AsWrittenTuplesShape(records: seq<Record>, t: Instant)
    ensures var a, refs := AsWrittenTuples(records, t), TuplesAfter(records, t);
      && |a| == |refs| && FirstBad(a) == FirstBad(refs)
      && forall n :: 0 <= n < |a| ==> a[n] == refs[n].(resourceId := RecordVarId(records, t), rule := a[n].rule)
  {
    var g := Gathered(records, t, AliasedRecordTuples);
    AliasedShape(records, t);
    AliasedStop(records, t);
    FirstBadUnique(AsWrittenTuples(records, t), FirstBad(g));
  }

  /**
   * When every record carries the same resource id (one network security
   * group per blob), the shared `record` variable is harmless: every entry
   * reads its own record's resource id.
   */
  lemma SharedResourceIdHarmless(records: seq<Record>, t: Instant, id: string)
    requires forall i :: 0 <= i < |records| ==> records[i].resourceId == id
    ensures |AsWrittenTuples(records, t)| == |TuplesAfter(records, t)|
    ensures forall n :: 0 <= n < |TuplesAfter(records, t)| ==>
      AsWrittenTuples(records, t)[n].resourceId == TuplesAfter(records, t)[n].resourceId == id
  {
    AsWrittenTuplesShape(records, t);
    TuplesAfterResourceId(records, t, id);
  }

  /** With every record carrying id, so does every tuple after t. */
  lemma {:induction false} TuplesAfterResourceId(records: seq<Record>, t: Instant, id: string)
    requires forall i :: 0 <= i < |records| ==> records[i].resourceId == id
    ensures forall n :: 0 <= n < |TuplesAfter(records, t)| ==> TuplesAfter(records, t)[n].resourceId == id
    decreases |records|
  {
    if |records| > 0 {
      var pre, r := records[..|records| - 1], records[|records| - 1];
      TuplesAfterResourceId(pre, t, id);
      FlowTuplesResourceId(r.resourceId, r.properties.flows);
      var refs0 := TuplesAfter(pre, t);
      var part: seq<TupleRef> := if Calendar.After(r.time, t) then RecordTuples(r) else [];
      assert TuplesAfter(records, t) == refs0 + part;
      forall n | 0 <= n < |refs0 + part| ensures (refs0 + part)[n].resourceId == id {
        if n >= |refs0| {
          assert (refs0 + part)[n] == part[n - |refs0|];
        }
      }
    }
  }

  /**
   * A record after t with two flows of one well-formed tuple each, under
   * different rules: the first tuple's entry reads the last flow's rule,
   * where its own flow's rule was meant.
   */
  lemma RuleReadFromLastFlow(r: Record, t: Instant, rule1: string, mac1: string, x: string, rule2: string, mac2: string, y: string)
    requires Calendar.After(r.time, t) && rule1 != rule2
    requires r.properties.flows == [Flow(rule1, [SubFlow(mac1, [x])]), Flow(rule2, [SubFlow(mac2, [y])])]
    requires |Split(x, ',')| == 8 && |Split(y, ',')| == 8
    ensures TuplesAfter([r], t) == [TupleRef(r.resourceId, rule1, mac1, x), TupleRef(r.resourceId, rule2, mac2, y)]
    ensures AsWrittenTuples([r], t) == [TupleRef(r.resourceId, rule2, mac1, x), TupleRef(r.resourceId, rule2, mac2, y)]
  {
    TwoFlowRecord(r, rule1, mac1, x, rule2, mac2, y);
    GatheredOne(r, t, RecordTuples);
    GatheredOne(r, t, AliasedRecordTuples);
  }

  /** The tuples of a record with two flows of one tuple each, and the rule the loop over them leaves in `flow`. */
  lemma TwoFlowRecord(r: Record, rule1: string, mac1: string, x: string, rule2: string, mac2: string, y: string)
    requires r.properties.flows == [Flow(rule1, [SubFlow(mac1, [x])]), Flow(rule2, [SubFlow(mac2, [y])])]
    requires |Split(x, ',')| == 8 && |Split(y, ',')| == 8
    ensures RecordTuples(r) == [TupleRef(r.resourceId, rule1, mac1, x), TupleRef(r.resourceId, rule2, mac2, y)]
    ensures FlowVarRule(r) == rule2
  {
    var rid := r.resourceId;
    var f1, f2 := Flow(rule1, [SubFlow(mac1, [x])]), Flow(rule2, [SubFlow(mac2, [y])]);
    var refs := [TupleRef(rid, rule1, mac1, x), TupleRef(rid, rule2, mac2, y)];
    OneTupleFlow(rid, f1, mac1, x);
    OneTupleFlow(rid, f2, mac2, y);
    assert [f1, f2][..1] == [f1];
    assert RecordTuples(r) == FlowTuples(rid, [f1]) + SubFlowTuples(rid, rule2, f2.flows);
    FirstBadUnique(refs, 2);
  }

  /**
   * A record after t with one well-formed tuple, followed by a record at or
   * before t with another resource id: the entry reads the second record's
   * resource id, where its own record's was meant.
   */
  lemma ResourceIdReadFromLastRecord(a: Record, b: Record, t: Instant, rule: string, mac: string, x: string)
    requires Calendar.After(a.time, t) && !Calendar.After(b.time, t) && a.resourceId != b.resourceId
    requires a.properties.flows == [Flow(rule, [SubFlow(mac, [x])])] && |Split(x, ',')| == 8
    ensures TuplesAfter([a, b], t) == [TupleRef(a.resourceId, rule, mac, x)]
    ensures AsWrittenTuples([a, b], t) == [TupleRef(b.resourceId, rule, mac, x)]
  {
    var f := Flow(rule, [SubFlow(mac, [x])]);
    var ref := TupleRef(a.resourceId, rule, mac, x);
    OneTupleFlow(a.resourceId, f, mac, x);
    assert [f][..0] == [];
    assert RecordTuples(a) == [ref];
    assert [a, b][..1] == [a];
    GatheredOne(a, t, RecordTuples);
    GatheredOne(a, t, AliasedRecordTuples);
    assert TuplesAfter([a, b], t) == TuplesAfter([a], t) + [];
    assert Gathered([a, b], t, AliasedRecordTuples) == Gathered([a], t, AliasedRecordTuples) + [];
    FirstBadUnique([ref], 1);
    assert RecordVarId([a, b], t) == b.resourceId;
    assert FlowVarRule(a) == rule;
  }

  /** The tuples of a flow with a single sub-flow of a single tuple. */
  lemma OneTupleFlow(resourceId: string, f: Flow, mac: string, x: string)
    requires f.flows == [SubFlow(mac, [x])]
    ensures SubFlowTuples(resourceId, f.rule, f.flows) == [TupleRef(resourceId, f.rule, mac, x)]
    ensures FlowTuples(resourceId, [f]) == [TupleRef(resourceId, f.rule, mac, x)]
  {
    assert [x][..0] == [];
    assert TuplesOf(resourceId, f.rule, mac, [x]) == TuplesOf(resourceId, f.rule, mac, []) + [TupleRef(resourceId, f.rule, mac, x)];
    assert f.flows[..0] == [];
    assert SubFlowTuples(resourceId, f.rule, f.flows) == SubFlowTuples(resourceId, f.rule, []) + TuplesOf(resourceId, f.rule, mac, [x]);
    assert [f][..0] == [];
    assert FlowTuples(resourceId, [f]) == FlowTuples(resourceId, []) + SubFlowTuples(resourceId, f.rule, f.flows);
  }

  /** A log of one record after t gathers that record's part. */
  lemma GatheredOne(r: Record, t: Instant, part: Record -> seq<TupleRef>)
    requires Calendar.After(r.time, t)
    ensures Gathered([r], t, part) == part(r)
  {
    assert [r][..0] == [];
    assert Gathered([r], t, part) == Gathered([], t, part) + part(r);
  }

  /**
   * Converting the flows of one record as parser/types.go does: every
   * entry's Rule points at the range variable `flow`, so all of them read
   * the rule of the flow the loop ends on.
   */
  method RecordLogs(record: Record) returns (flowLogs: seq<NsgFlowLog>, err: Option<Error>)
    ensures Outcome(flowLogs, err, AliasedRecordTuples(record), FlowLog)
  {
    var flows := record.properties.flows;
    var logs: seq<NsgFlowLog> := [];
    var flow := Flow("", []);
    var j := 0;
    while j < |flows|
      invariant 0 <= j <= |flows|
      invariant Outcome(logs, None, FlowTuples(record.resourceId, flows[..j]), FlowLog)
      invariant flow.rule == if j > 0 then flows[j - 1].rule else ""
    {
      flow := flows[j];
      var more, e := FlowLogs(record.resourceId, flow);
      FlowStep(record.resourceId, flows, j, logs, more, e, FlowLog);
      if e.Some? {
        FlowStopRule(record, j);
        OutcomeWithRule(logs + more, e, RecordTuples(record), flow.rule);
        return RuleTo(logs + more, flow.rule), e;
      }
      logs := logs + more;
      j := j + 1;
    }
    assert flows[..j] == flows;
    assert FlowVarRule(record) == flow.rule;
    OutcomeWithRule(logs, None, RecordTuples(record), flow.rule);
    return RuleTo(logs, flow.rule), None;
  }

  /**
   * NsgLog.GetFlowLogsAfter as written: the entries of the records strictly
   * after afterTime, as AsWrittenTuples reads them, stopping with an error
   * at the first tuple that does not have eight fields. The loop over
   * records is here; the loops nested in it are RecordLogs, FlowLogs and
   * SubFlowLogs.
   */
  method GetFlowLogsAfter(nsgLog: NsgLog, afterTime: Instant) returns (flowLogs: seq<NsgFlowLog>, err: Option<Error>)
    ensures Outcome(flowLogs, err, AsWrittenTuples(nsgLog.records, afterTime), FlowLog)
  {
    var records := nsgLog.records;
    var logs: seq<NsgFlowLog> := [];
    var record := Record(0, "", "", "", "", Properties(0, []));
    var i := 0;
    while i < |records|
      invariant 0 <= i <= |records|
      invariant Outcome(logs, None, Gathered(records[..i], afterTime, AliasedRecordTuples), FlowLog)
      invariant record.resourceId == if i > 0 then records[i - 1].resourceId else ""
    {
      record := records[i];
      var more, e := [], None;
      if record.time > afterTime {
        more, e := RecordLogs(record);
      }
      RecordStep(records, afterTime, i, logs, more, e, FlowLog, AliasedRecordTuples);
      if e.Some? {
        RecordStopped(records, afterTime, i, logs + more, e);
        return ResourceIdTo(logs + more, record.resourceId), e;
      }
      logs := logs + more;
      i := i + 1;
    }
    assert records[..i] == records;
    RecordsDone(records, afterTime, logs, record.resourceId);
    return ResourceIdTo(logs, record.resourceId), None;
  }

  // ------------------------------------------------------------ loading

  /** A *NsgLogFile: the log file the pointer-receiver methods update in place. */
  class LogFileRef {
    var file: NsgLogFile

    constructor (f: NsgLogFile)
      ensures file == f
    {
      file := f;
    }

    /**
     * LoadBlobRange: content is what the range read returned. NsgLog is
     * replaced only after a successful decode; nothing else changes.
     */
    method LoadBlobRange(content: string, decode: string -> Option<NsgLog>) returns (err: Option<Error>)
      modifies this
      ensures DecodeSpliced(content, decode).Ok? ==> err.None? && file == old(file).(nsgLog := Some(DecodeSpliced(content, decode).value))
      ensures DecodeSpliced(content, decode).Err? ==> err == Some(DecodeSpliced(content, decode).error) && file == old(file)
    {
      var firstRecord := IndexOf(content, RecordStart);
      if firstRecord == -1 {
        return Some(NoRecordStart);
      }
      var structuredJson := RecordsOpening + content[firstRecord..];
      var nsgLog := decode(structuredJson);
      if nsgLog.None? {
        return Some(DecodeFailed);
      }
      file := file.(nsgLog := nsgLog);
      return None;
    }
  }
}
