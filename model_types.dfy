/**
 * model/types.go: the model package's log-file record and flat flow log,
 * its blob-name parsers, SaveToPath, LoadBlob, Records.After and
 * ConvertToNsgFlowLog. Its Record and NsgLog have the same shape as the
 * parser package's, so the NsgTypes datatypes stand for both.
 */
module ModelTypes {
  import opened Base
  import opened Text
  import opened Calendar
  import opened Patterns
  import opened Storage
  import opened Timeline
  import opened MacAddress
  import opened BlobKeys
  import NsgTypes

  type Record = NsgTypes.Record
  type NsgLog = NsgTypes.NsgLog
  type TupleRef = NsgTypes.TupleRef

  /** The model package's NsgLogFile: nine fields, with LastCount for the record count. */
  datatype NsgLogFile = NsgLogFile(
    name: string,
    etag: string,
    lastModified: Instant,
    lastProcessed: Instant,
    lastCount: int,
    logTime: Instant,
    blob: Blob,
    nsgLog: Option<NsgLog>,
    nsgName: string)

  const EmptyLogFile := NsgLogFile("", "", ZeroTime, ZeroTime, 0, ZeroTime, NoBlob, None, "")

  /** The model package's NsgFlowLog: every field a plain string except the timestamp. */
  datatype NsgFlowLog = NsgFlowLog(
    timestamp: int,
    systemId: string,
    category: string,
    resourceId: string,
    operationName: string,
    rule: string,
    mac: string,
    sourceIp: string,
    destinationIp: string,
    sourcePort: string,
    destinationPort: string,
    protocol: string,
    trafficFlow: string,
    traffic: string)

  function RecordTime(r: Record): Instant { r.time }

  // ------------------------------------------------------------ blob names

  /** getLogTimeFromName: the hour bucket of a matching name, the mismatch error otherwise. */
  function GetLogTimeFromName(name: string): (r: Result<Instant>)
    ensures MatchKey(name).None? ==> r == Err(KeyMismatch(name))
    ensures r.Ok? ==> MatchKey(name).Some?
  {
    LogTimeFromName(name, KeyMismatch(name))
  }

  /** getNsgName: the segment before "/y=" of a matching name, the mismatch error otherwise. */
  function GetNsgName(name: string): (r: Result<string>)
    ensures r.Ok? <==> MatchKey(name).Some?
    ensures r.Ok? ==> r.value == MatchKey(name).value.name
  {
    LoggedName(name, KeyMismatch(name))
  }

  /**
   * NewNsgLogFile: Name, Etag and LastModified from the blob, LogTime and
   * NsgName from its name, and the error of getNsgName, which overwrites the
   * one getLogTimeFromName gave.
   */
  function NewNsgLogFile(blob: Blob): (r: (NsgLogFile, Option<Error>))
    ensures r.0 == EmptyLogFile.(blob := blob, name := blob.name, etag := blob.etag,
      lastModified := blob.lastModified, logTime := r.0.logTime, nsgName := r.0.nsgName)
    ensures r.1.None? <==> MatchKey(blob.name).Some?
    ensures GetLogTimeFromName(blob.name).Ok? ==> r.0.logTime == GetLogTimeFromName(blob.name).value
    ensures GetLogTimeFromName(blob.name).Err? ==> r.0.logTime == ZeroTime
  {
    var t := GetLogTimeFromName(blob.name);
    var n := GetNsgName(blob.name);
    (EmptyLogFile.(blob := blob, name := blob.name, etag := blob.etag, lastModified := blob.lastModified,
                   logTime := if t.Ok? then t.value else ZeroTime, nsgName := if n.Ok? then n.value else ""),
     if n.Err? then Some(n.error) else None)
  }

  /**
   * NewNsgLogFile with the two errors kept apart: the first one wins, so a
   * name whose date does not exist is reported.
   */
  function NewNsgLogFileCorrected(blob: Blob): (r: (NsgLogFile, Option<Error>))
    ensures r.0 == NewNsgLogFile(blob).0
    ensures r.1.None? <==> GetLogTimeFromName(blob.name).Ok?
  {
    var t := GetLogTimeFromName(blob.name);
    (NewNsgLogFile(blob).0, if t.Err? then Some(t.error) else NewNsgLogFile(blob).1)
  }

  /**
   * A name with the right shape whose date does not exist (the 30th of
   * February of any year): the as-written constructor reports no error and
   * leaves the zero time as LogTime; the corrected one reports the bad day.
   */
  lemma NewNsgLogFileLosesDateError(blob: Blob, pre: string, y: string, h: string)
    requires '/' in pre && |y| == 4 && |h| == 2 && AllDigits(y) && AllDigits(h) && ValueOf(h) < 24
    requires blob.name == HourKey(pre, HourGroup(y, "02", "30", h))
    ensures NewNsgLogFile(blob).1 == None
    ensures NewNsgLogFile(blob).0.logTime == ZeroTime
    ensures NewNsgLogFileCorrected(blob).1 == Some(TimeOutOfRange("day"))
  {
    FebruaryThirtiethKey(pre, y, h, KeyMismatch(blob.name));
  }

  // ------------------------------------------------------------ SaveToPath

  /**
   * SaveToPath's file name: "nsgLog-" + the six submatches + ".json-" +
   * LastModified as "2006-01-02-15-04-05" + ".json"; an error when the
   * blob name does not match.
   */
  function SaveFileName(f: NsgLogFile): (r: Result<string>)
    ensures r.Ok? <==> MatchKey(f.blob.name).Some?
    ensures r.Err? ==> r == Err(KeyMismatch(f.blob.name))
  {
    match MatchKey(f.blob.name)
    case None => Err(KeyMismatch(f.blob.name))
    case Some(m) =>
      var fileName := "nsgLog-" + m.name + "-" + m.year + m.month + m.day + m.hour + m.minute + ".json";
      Ok(fileName + "-" + SecondStamp(f.lastModified) + ".json")
  }

  /**
   * The file SaveToPath writes for a blob named after a record: the
   * resource's last segment, the hour digits with minute "00", and the
   * modification time.
   */
  lemma SaveFileNameOfSourceBlob(f: NsgLogFile, resourceId: string, t: Instant)
    requires f.blob.name == SourceFileName(resourceId, t)
    requires '/' in resourceId && 0 <= ToCivil(t).year <= 9999
    ensures var dt := ToCivil(t);
      SaveFileName(f) == Ok("nsgLog-" + LastSegment(resourceId) + "-" + Year4(dt.year) + Two(dt.month)
        + Two(dt.day) + Two(dt.hour) + "00" + ".json" + "-" + SecondStamp(f.lastModified) + ".json")
  {
    SourceFileNameMatch(resourceId, t);
  }

  /**
   * SaveToPath as written: an error on a name mismatch or when the document
   * does not marshal (marshalled is None), and nil otherwise: the write's
   * error is assigned and then dropped.
   */
  function SaveToPath(f: NsgLogFile, marshalled: Option<string>, writeOk: bool): (r: Option<Error>)
    ensures r.None? <==> SaveFileName(f).Ok? && marshalled.Some?
    ensures SaveFileName(f).Err? ==> r == Some(SaveFileName(f).error)
  {
    match SaveFileName(f)
    case Err(e) => Some(e)
    case Ok(_) => if marshalled.None? then Some(MarshalFailed) else None
  }

  /** SaveToPath reporting a failed write, as the parser package's revision does. */
  function SaveToPathCorrected(f: NsgLogFile, marshalled: Option<string>, writeOk: bool): (r: Option<Error>)
    ensures r.None? <==> SaveFileName(f).Ok? && marshalled.Some? && writeOk
    ensures !writeOk && SaveFileName(f).Ok? && marshalled.Some? ==> r == Some(WriteFailed)
  {
    match SaveToPath(f, marshalled, writeOk)
    case Some(e) => Some(e)
    case None => if writeOk then None else Some(WriteFailed)
  }

  /** A write that fails goes unreported by SaveToPath as written, and is reported by the corrected one. */
  lemma SaveToPathDropsWriteError(f: NsgLogFile, doc: string)
    requires MatchKey(f.blob.name).Some?
    ensures SaveToPath(f, Some(doc), false) == None
    ensures SaveToPathCorrected(f, Some(doc), false) == Some(WriteFailed)
  {
  }

  // ------------------------------------------------------------ LoadBlob

  /** A *NsgLogFile of the model package. */
  class LogFileRef {
    var file: NsgLogFile

    constructor (f: NsgLogFile)
      ensures file == f
    {
      file := f;
    }

    /**
     * LoadBlob: read is the blob's content (None when Blob.Get fails); the
     * whole content is decoded, and NsgLog is set only when that succeeds.
     */
    method LoadBlob(read: Option<string>, decode: string -> Option<NsgLog>) returns (err: Option<Error>)
      modifies this
      ensures read.None? ==> err == Some(ReadFailed) && file == old(file)
      ensures read.Some? && decode(read.value).None? ==> err == Some(DecodeFailed) && file == old(file)
      ensures read.Some? && decode(read.value).Some? ==> err.None? && file == old(file).(nsgLog := decode(read.value))
    {
      if read.None? {
        return Some(ReadFailed);
      }
      var nsgLog := decode(read.value);
      if nsgLog.None? {
        return Some(DecodeFailed);
      }
      file := file.(nsgLog := nsgLog);
      return None;
    }
  }

  // ------------------------------------------------------------ Records.After

  /** Records.After: the records strictly after afterTime, in order. */
  method After(slice: seq<Record>, afterTime: Instant) returns (returnRecords: seq<Record>)
    ensures returnRecords == KeepAfter(slice, RecordTime, afterTime)
  {
    returnRecords := [];
    for i := 0 to |slice|
      invariant returnRecords == KeepAfter(slice[..i], RecordTime, afterTime)
    {
      assert slice[..i + 1][..i] == slice[..i];
      if slice[i].time > afterTime {
        returnRecords := returnRecords + [slice[i]];
      }
    }
    assert slice[..|slice|] == slice;
  }

  // ------------------------------------------------------------ ConvertToNsgFlowLog

  /** Every tuple splits into at least the eight fields the conversion reads. */
  predicate TuplesIndexable(ts: seq<string>)
  {
    forall t :: t in ts ==> |Split(t, ',')| >= 8
  }

  predicate SubFlowsIndexable(subs: seq<NsgTypes.SubFlow>)
  {
    forall s :: s in subs ==> TuplesIndexable(s.flowTuples)
  }

  predicate FlowsIndexable(flows: seq<NsgTypes.Flow>)
  {
    forall f :: f in flows ==> SubFlowsIndexable(f.flows)
  }

  predicate RecordsIndexable(records: seq<Record>)
  {
    forall r :: r in records ==> FlowsIndexable(r.properties.flows)
  }

  /**
   * The flat form of a tuple: the first field parsed as the timestamp (0
   * when it does not parse), fields 1 to 7 in order, the rule and resource
   * id of its flow and record, and the MAC address with colons; every other
   * field empty. Fields past the eighth are ignored.
   */
  function FlatLog(ref: TupleRef): NsgFlowLog
  {
    var tuples := Split(ref.tuple, ',');
    NsgFlowLog(ParseInt(tuples[0]).value, "", "", ref.resourceId, "", ref.rule, Grouped(ref.mac),
      NsgTypes.FieldAt(tuples, 1), NsgTypes.FieldAt(tuples, 2), NsgTypes.FieldAt(tuples, 3),
      NsgTypes.FieldAt(tuples, 4), NsgTypes.FieldAt(tuples, 5), NsgTypes.FieldAt(tuples, 6),
      NsgTypes.FieldAt(tuples, 7))
  }

  /** FlatLog of each tuple, in order. */
  function FlatLogs(refs: seq<TupleRef>): (r: seq<NsgFlowLog>)
    ensures |r| == |refs|
    decreases |refs|
  {
    if |refs| == 0 then [] else FlatLogs(refs[..|refs| - 1]) + [FlatLog(refs[|refs| - 1])]
  }

  lemma {:induction false} FlatLogsAppend(a: seq<TupleRef>, b: seq<TupleRef>)
    ensures FlatLogs(a + b) == FlatLogs(a) + FlatLogs(b)
    decreases |b|
  {
    if |b| > 0 {
      assert (a + b)[..|a + b| - 1] == a + b[..|b| - 1];
      FlatLogsAppend(a, b[..|b| - 1]);
    } else {
      assert a + b == a;
    }
  }

  /** Entry i of the conversion is the flat form of tuple i. */
  lemma {:induction false} FlatLogsAt(refs: seq<TupleRef>, i: nat)
    requires i < |refs|
    ensures FlatLogs(refs)[i] == FlatLog(refs[i])
    decreases |refs|
  {
    if i < |refs| - 1 {
      FlatLogsAt(refs[..|refs| - 1], i);
    }
  }

  /** The innermost loop, over the tuples of a sub-flow. */
  method SubFlowFlatLogs(resourceId: string, rule: string, subFlow: NsgTypes.SubFlow) returns (flowLogs: seq<NsgFlowLog>)
    requires TuplesIndexable(subFlow.flowTuples)
    ensures flowLogs == FlatLogs(NsgTypes.TuplesOf(resourceId, rule, subFlow.mac, subFlow.flowTuples))
  {
    var ts := subFlow.flowTuples;
    flowLogs := [];
    for l := 0 to |ts|
      invariant flowLogs == FlatLogs(NsgTypes.TuplesOf(resourceId, rule, subFlow.mac, ts[..l]))
    {
      var flowTuple := ts[l];
      ghost var ref := NsgTypes.TupleRef(resourceId, rule, subFlow.mac, flowTuple);
      ghost var done := NsgTypes.TuplesOf(resourceId, rule, subFlow.mac, ts[..l]);
      assert ts[..l + 1][..l] == ts[..l];
      assert NsgTypes.TuplesOf(resourceId, rule, subFlow.mac, ts[..l + 1]) == done + [ref];
      assert (done + [ref])[..|done + [ref]| - 1] == done;
      assert flowTuple in ts;
      var tuples := Split(flowTuple, ',');
      var epochTime := ParseInt(tuples[0]).value;
      var mac := FormatMac(subFlow.mac);
      var alog := NsgFlowLog(epochTime, "", "", resourceId, "", rule, mac,
        tuples[1], tuples[2], tuples[3], tuples[4], tuples[5], tuples[6], tuples[7]);
      assert alog == FlatLog(ref);
      flowLogs := flowLogs + [alog];
    }
    assert ts[..|ts|] == ts;
  }

  /** The loop over the sub-flows of a flow. */
  method FlowFlatLogs(resourceId: string, flow: NsgTypes.Flow) returns (flowLogs: seq<NsgFlowLog>)
    requires SubFlowsIndexable(flow.flows)
    ensures flowLogs == FlatLogs(NsgTypes.SubFlowTuples(resourceId, flow.rule, flow.flows))
  {
    var subs := flow.flows;
    flowLogs := [];
    for k := 0 to |subs|
      invariant flowLogs == FlatLogs(NsgTypes.SubFlowTuples(resourceId, flow.rule, subs[..k]))
    {
      assert subs[..k + 1][..k] == subs[..k];
      assert subs[k] in subs;
      var logs := SubFlowFlatLogs(resourceId, flow.rule, subs[k]);
      FlatLogsAppend(NsgTypes.SubFlowTuples(resourceId, flow.rule, subs[..k]),
        NsgTypes.TuplesOf(resourceId, flow.rule, subs[k].mac, subs[k].flowTuples));
      flowLogs := flowLogs + logs;
    }
    assert subs[..|subs|] == subs;
  }

  /** The loop over the flows of a record. */
  method RecordFlatLogs(record: Record) returns (flowLogs: seq<NsgFlowLog>)
    requires FlowsIndexable(record.properties.flows)
    ensures flowLogs == FlatLogs(NsgTypes.RecordTuples(record))
  {
    var flows := record.properties.flows;
    flowLogs := [];
    for j := 0 to |flows|
      invariant flowLogs == FlatLogs(NsgTypes.FlowTuples(record.resourceId, flows[..j]))
    {
      assert flows[..j + 1][..j] == flows[..j];
      assert flows[j] in flows;
      var logs := FlowFlatLogs(record.resourceId, flows[j]);
      FlatLogsAppend(NsgTypes.FlowTuples(record.resourceId, flows[..j]),
        NsgTypes.SubFlowTuples(record.resourceId, flows[j].rule, flows[j].flows));
      flowLogs := flowLogs + logs;
    }
    assert flows[..|flows|] == flows;
  }

  /**
   * ConvertToNsgFlowLog: one flat entry per tuple of every record, with no
   * time filter, in record, flow, sub-flow and tuple order, and never an
   * error. Every tuple must have at least eight fields, since the loop
   * indexes the eighth without checking.
   */
  method ConvertToNsgFlowLog(nsgLog: NsgLog) returns (flowLogs: seq<NsgFlowLog>, err: Option<Error>)
    requires RecordsIndexable(nsgLog.records)
    ensures err.None?
    ensures flowLogs == FlatLogs(NsgTypes.AllTuples(nsgLog.records))
  {
    var records := nsgLog.records;
    flowLogs := [];
    for i := 0 to |records|
      invariant flowLogs == FlatLogs(NsgTypes.AllTuples(records[..i]))
    {
      assert records[..i + 1][..i] == records[..i];
      assert records[i] in records;
      var logs := RecordFlatLogs(records[i]);
      FlatLogsAppend(NsgTypes.AllTuples(records[..i]), NsgTypes.RecordTuples(records[i]));
      flowLogs := flowLogs + logs;
    }
    assert records[..|records|] == records;
    return flowLogs, None;
  }

  /**
   * What each entry holds: for a tuple with at least eight fields, fields 1
   * to 7 in order, the rule, the resource id and the grouped MAC address,
   * and the other string fields empty.
   */
  lemma FlatLogFields(refs: seq<TupleRef>, i: nat)
    requires i < |refs| && |Split(refs[i].tuple, ',')| >= 8
    ensures var log := FlatLogs(refs)[i]; var tuples := Split(refs[i].tuple, ',');
      && log.timestamp == ParseInt(tuples[0]).value
      && log.sourceIp == tuples[1] && log.destinationIp == tuples[2]
      && log.sourcePort == tuples[3] && log.destinationPort == tuples[4]
      && log.protocol == tuples[5] && log.trafficFlow == tuples[6] && log.traffic == tuples[7]
      && log.rule == refs[i].rule && log.resourceId == refs[i].resourceId && log.mac == Grouped(refs[i].mac)
      && log.systemId == "" && log.category == "" && log.operationName == ""
  {
    FlatLogsAt(refs, i);
  }

  /** A time field that does not begin like a number gives timestamp 0, and the entry is still made. */
  lemma UnparsableEpochIsZero(ref: TupleRef)
    requires var f := Split(ref.tuple, ','); |f[0]| == 0 || !(IsDigit(f[0][0]) || f[0][0] == '+' || f[0][0] == '-')
    ensures FlatLog(ref).timestamp == 0
  {
    var f := Split(ref.tuple, ',');
    assert ParseInt(f[0]) == IntParse(0, false);
  }

  /**
   * On a tuple with exactly eight fields the model package's flat entry
   * and the parser package's (NsgTypes.FlowLog) agree on the timestamp, the
   * seven fields, the MAC address, the rule and the resource id.
   */
  lemma AgreesWithParserRevision(ref: TupleRef)
    requires NsgTypes.WellFormed(ref)
    ensures var a, b := FlatLog(ref), NsgTypes.FlowLog(ref);
      && a.timestamp == b.timestamp && a.mac == b.mac
      && a.sourceIp == b.sourceIp && a.destinationIp == b.destinationIp
      && a.sourcePort == b.sourcePort && a.destinationPort == b.destinationPort
      && a.protocol == b.protocol && a.trafficFlow == b.trafficFlow && a.traffic == b.traffic
      && Some(a.rule) == b.rule && Some(a.resourceId) == b.resourceId
  {
  }

  /**
   * Against the entries the parser package's GetFlowLogsAfter returns as
   * written: this package's entry for tuple n and parser entry n agree on
   * every field but the two pointers; the parser entry's rule is what the
   * shared flow variable last held and its resource id the last record's.
   */
  lemma AgreesWithParserAsWritten(records: seq<NsgTypes.Record>, t: Instant, n: nat)
    requires n < |NsgTypes.TuplesAfter(records, t)| && NsgTypes.WellFormed(NsgTypes.TuplesAfter(records, t)[n])
    ensures var ref, w := NsgTypes.TuplesAfter(records, t)[n], NsgTypes.AsWrittenTuples(records, t);
      && n < |w|
      && var a, b := FlatLog(ref), NsgTypes.FlowLog(w[n]);
      && a.timestamp == b.timestamp && a.mac == b.mac
      && a.sourceIp == b.sourceIp && a.destinationIp == b.destinationIp
      && a.sourcePort == b.sourcePort && a.destinationPort == b.destinationPort
      && a.protocol == b.protocol && a.trafficFlow == b.trafficFlow && a.traffic == b.traffic
      && a.rule == ref.rule && b.rule == Some(w[n].rule)
      && a.resourceId == ref.resourceId && b.resourceId == Some(NsgTypes.RecordVarId(records, t))
  {
    var ref, w := NsgTypes.TuplesAfter(records, t)[n], NsgTypes.AsWrittenTuples(records, t);
    NsgTypes.AsWrittenTuplesShape(records, t);
    assert w[n] == ref.(resourceId := NsgTypes.RecordVarId(records, t), rule := w[n].rule);
    NsgTypes.FlowLogRetargeted(ref, NsgTypes.RecordVarId(records, t), w[n].rule);
    AgreesWithParserRevision(ref);
  }
}
