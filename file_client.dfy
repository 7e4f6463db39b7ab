/**
 * parser/file_client.go: the file sink for NSG event log files. It loads
 * the range of the blob not yet read, converts every record after the last
 * one processed into CEF events, writes them as one JSON file named after
 * the blob's hour and the events' time stamps, and records the checkpoint.
 */
module FileClient {
  import opened Base
  import opened Calendar
  import opened Storage
  import opened Payload
  import opened Cef
  import opened EventRecord
  import opened EventLogFile
  import opened StatusMerge
  import Client

  /**
   * The range of an event log file still to read: from where the previous
   * range ended to the blob's content length, as the other log files'
   * getUnprocessedBlobRange computes it.
   */
  function UnprocessedRange(f: AzureNsgLogFile): (r: BlobRange)
    ensures r == BlobRange(f.lastProcessedRange.end, f.blob.contentLength)
  {
    ResumeRange(f.lastProcessedRange, f.blob.contentLength)
  }

  /** The record GetCEFList converts: initialised first when it is not yet. */
  function Prepared(r: AzureNsgEventRecord): (s: AzureNsgEventRecord)
    ensures s.time == r.time && s.operationName == r.operationName
  {
    if r.initialized then r else InitializedRecord(r)
  }

  /** What GetCEFList gives for one record after startTime, its errors dropped. */
  function EventsOf(startTime: Instant): AzureNsgEventRecord -> seq<CefEvent>
  {
    r => CefList(Prepared(r), startTime).0
  }

  /** The events of each record in turn, converted after startTime. */
  function Events(records: seq<AzureNsgEventRecord>, startTime: Instant): seq<CefEvent>
  {
    Flattened(records, EventsOf(startTime))
  }

  /** An event's time in Unix seconds: the zero time.Time{} for an event without one. */
  function EventUnix(e: CefEvent): (t: int)
    ensures e.time.Some? ==> t == e.time.value
    ensures e.time.None? ==> t == ZeroTime
  {
    match e.time
    case None => ZeroTime
    case Some(t) => t
  }

  /**
   * The checkpoint recorded once the events are out: the time of the run,
   * the number of decoded records, the time of the last of them, the range
   * read and the time stamp of the last event.
   */
  function Checkpoint(f: AzureNsgLogFile, log: AzureNsgEventLog, blobRange: BlobRange, now: Instant, endTimeStamp: int): AzureNsgLogFile
    requires |log.records| > 0
  {
    f.(azureNsgEventLog := Some(log), lastProcessed := now, lastRecordCount := |log.records|,
       lastProcessedRecord := log.records[|log.records| - 1].time, lastProcessedRange := blobRange,
       lastProcessedTimeStamp := endTimeStamp)
  }

  // ------------------------------------------------------------ what the events are

  /** Records none of which is after startTime give no events. */
  lemma EventsOnlyAfter(records: seq<AzureNsgEventRecord>, startTime: Instant)
    requires forall i :: 0 <= i < |records| ==> !Calendar.After(records[i].time, startTime)
    ensures Events(records, startTime) == []
  {
    forall i | 0 <= i < |records| ensures EventsOf(startTime)(records[i]) == [] {
    }
    FlattenedEmpty(records, EventsOf(startTime));
  }

  /** Records of which none is a flow-events record give no events. */
  lemma EventsOnlyFromFlows(records: seq<AzureNsgEventRecord>, startTime: Instant)
    requires forall i :: 0 <= i < |records| ==> records[i].operationName != FlowEventsOperation
    ensures Events(records, startTime) == []
  {
    forall i | 0 <= i < |records| ensures EventsOf(startTime)(records[i]) == [] {
    }
    FlattenedEmpty(records, EventsOf(startTime));
  }

  /**
   * Every event comes from a record strictly after startTime and names
   * that record, as InitRecord leaves it.
   */
  lemma EventsFromRecords(records: seq<AzureNsgEventRecord>, startTime: Instant, k: nat)
    requires k < |Events(records, startTime)|
    ensures exists i :: 0 <= i < |records| && Calendar.After(records[i].time, startTime)
                        && CarriesRecord(Prepared(records[i]), Events(records, startTime)[k])
  {
    FlattenedFrom(records, EventsOf(startTime), k);
    var i, j :| 0 <= i < |records| && 0 <= j < |EventsOf(startTime)(records[i])|
                && Events(records, startTime)[k] == EventsOf(startTime)(records[i])[j];
    EventsCarryRecord(Prepared(records[i]), startTime);
  }

  /**
   * A checkpoint of records in time order leaves nothing to convert: run
   * again on the same records, the sink finds no event.
   */
  lemma NothingNewAfterCheckpoint(f: AzureNsgLogFile, log: AzureNsgEventLog, blobRange: BlobRange, now: Instant, endTimeStamp: int)
    requires |log.records| > 0
    requires forall i, j :: 0 <= i <= j < |log.records| ==> log.records[i].time <= log.records[j].time
    ensures Events(log.records, Checkpoint(f, log, blobRange, now, endTimeStamp).lastProcessedRecord) == []
  {
    var last := |log.records| - 1;
    forall i | 0 <= i < |log.records| ensures !Calendar.After(log.records[i].time, log.records[last].time) {
    }
    EventsOnlyAfter(log.records, log.records[last].time);
  }

  /** After a checkpoint the next run reads on from the end of the range just read. */
  lemma CheckpointResumes(f: AzureNsgLogFile, log: AzureNsgEventLog, blobRange: BlobRange, now: Instant, endTimeStamp: int)
    requires |log.records| > 0
    ensures var c := Checkpoint(f, log, blobRange, now, endTimeStamp);
      && UnprocessedRange(c) == BlobRange(blobRange.end, f.blob.contentLength)
      && c.name == f.name && c.blob == f.blob && c.etag == f.etag && c.lastModified == f.lastModified
      && c.logTime == f.logTime && c.nsgName == f.nsgName
  {
  }

  // ------------------------------------------------------------ the sink

  /** The loop over the records: each converted by GetCEFList on a copy, its events appended, its errors dropped. */
  method CollectEvents(records: seq<AzureNsgEventRecord>, startTime: Instant) returns (events: seq<CefEvent>)
    ensures events == Events(records, startTime)
  {
    events := [];
    for i := 0 to |records|
      invariant events == Events(records[..i], startTime)
    {
      var record := new EventRecordRef(records[i]);
      var cefEvents, _ := record.GetCefList(startTime);
      FlattenedStep(records, EventsOf(startTime), i);
      events := events + cefEvents;
    }
    assert records[..|records|] == records;
  }

  /**
   * The part of ProcessNsgLogFile after the events are known: the output
   * name, the JSON, the write (its error ignored) and the checkpoint.
   */
  method WriteEvents(logFile: AzureNsgLogFileRef, blobRange: BlobRange, events: seq<CefEvent>,
                     marshal: seq<CefEvent> -> Option<string>, now: Instant)
    returns (err: Option<Error>, written: Option<(string, string)>, result: Option<AzureNsgLogFile>)
    requires |events| > 0 && logFile.file.azureNsgEventLog.Some? && |logFile.file.azureNsgEventLog.value.records| > 0
    modifies logFile
    ensures var f := old(logFile.file); var endTimeStamp := EventUnix(events[|events| - 1]);
      var name := Client.OutputFileName(f.blob.name, EventUnix(events[0]), endTimeStamp);
      && (name.Err? ==> err == Some(name.error) && written.None? && result.None? && logFile.file == f)
      && (name.Ok? && marshal(events).None? ==> err == Some(MarshalFailed) && written.None? && result.None? && logFile.file == f)
      && (name.Ok? && marshal(events).Some? ==>
            (&& err.None? && written == Some((name.value, marshal(events).value))
             && logFile.file == Checkpoint(f, f.azureNsgEventLog.value, blobRange, now, endTimeStamp)
             && result == Some(logFile.file)))
  {
    var startTimeStamp := EventUnix(events[0]);
    var endTimeStamp := EventUnix(events[|events| - 1]);
    var fileName := Client.OutputFileName(logFile.file.blob.name, startTimeStamp, endTimeStamp);
    if fileName.Err? {
      return Some(fileName.error), None, None;
    }
    var outJson := marshal(events);
    if outJson.None? {
      return Some(MarshalFailed), None, None;
    }
    written := Some((fileName.value, outJson.value));
    var records := logFile.file.azureNsgEventLog.value.records;
    logFile.file := logFile.file.(lastProcessed := now);
    logFile.file := logFile.file.(lastRecordCount := |records|);
    logFile.file := logFile.file.(lastProcessedRecord := records[|records| - 1].time);
    logFile.file := logFile.file.(lastProcessedRange := blobRange);
    logFile.file := logFile.file.(lastProcessedTimeStamp := endTimeStamp);
    err := None;
    result := Some(logFile.file);
  }

  /**
   * What the sink leaves once g holds the decoded log: no event means nil,
   * nothing sent and no progress; a name or marshal error is returned with
   * nothing sent; otherwise the file is written and g is checkpointed.
   */
  ghost predicate Sank(g: AzureNsgLogFile, blobRange: BlobRange, marshal: seq<CefEvent> -> Option<string>, now: Instant,
                       err: Option<Error>, written: Option<(string, string)>, result: Option<AzureNsgLogFile>, file: AzureNsgLogFile)
    requires g.azureNsgEventLog.Some?
  {
    var log := g.azureNsgEventLog.value;
    var events := Events(log.records, g.lastProcessedRecord);
    && (|events| == 0 ==> err.None? && written.None? && result.None? && file == g)
    && (|events| > 0 ==>
          (var endTimeStamp := EventUnix(events[|events| - 1]);
           var name := Client.OutputFileName(g.blob.name, EventUnix(events[0]), endTimeStamp);
           && (name.Err? ==> err == Some(name.error) && written.None? && result.None? && file == g)
           && (name.Ok? && marshal(events).None? ==> err == Some(MarshalFailed) && written.None? && result.None? && file == g)
           && (name.Ok? && marshal(events).Some? ==>
                 (&& err.None? && written == Some((name.value, marshal(events).value)) && |log.records| > 0
                  && file == Checkpoint(g, log, blobRange, now, endTimeStamp)
                  && result == Some(file)))))
  }

  /** The part of ProcessNsgLogFile after the load: the events, the zero check and the write. */
  method ConvertAndWrite(logFile: AzureNsgLogFileRef, blobRange: BlobRange, marshal: seq<CefEvent> -> Option<string>, now: Instant)
    returns (err: Option<Error>, written: Option<(string, string)>, result: Option<AzureNsgLogFile>)
    requires logFile.file.azureNsgEventLog.Some?
    modifies logFile
    ensures Sank(old(logFile.file), blobRange, marshal, now, err, written, result, logFile.file)
  {
    var events := CollectEvents(logFile.file.azureNsgEventLog.value.records, logFile.file.lastProcessedRecord);
    var logCount := |events|;
    if logCount == 0 {
      return None, None, None;
    }
    assert |logFile.file.azureNsgEventLog.value.records| > 0;
    err, written, result := WriteEvents(logFile, blobRange, events, marshal, now);
  }

  /**
   * FileClient.ProcessNsgLogFile: readRange gives the bytes GetRange
   * returns for a range, decode the JSON decoder, marshal json.Marshal of
   * the events (None when it fails); written is the file name and content
   * written, whose write error is ignored, and result what goes on
   * resultsChan. A load error is returned with nothing sent and the file
   * unchanged; otherwise the file holds the decoded log and the outcome is
   * as Sank says.
   */
  method ProcessNsgLogFile(logFile: AzureNsgLogFileRef, readRange: BlobRange -> string,
                           decode: string -> Option<AzureNsgEventLog>, marshal: seq<CefEvent> -> Option<string>, now: Instant)
    returns (err: Option<Error>, written: Option<(string, string)>, result: Option<AzureNsgLogFile>)
    modifies logFile
    ensures var f := old(logFile.file); var d := DecodeSpliced(readRange(UnprocessedRange(f)), decode);
      && (d.Err? ==> err == Some(d.error) && written.None? && result.None? && logFile.file == f)
      && (d.Ok? ==> Sank(f.(azureNsgEventLog := Some(d.value)), UnprocessedRange(f), marshal, now, err, written, result, logFile.file))
  {
    written, result := None, None;
    var blobRange := UnprocessedRange(logFile.file);
    err := logFile.LoadBlobRange(blobRange, readRange, decode);
    if err.Some? {
      return;
    }
    err, written, result := ConvertAndWrite(logFile, blobRange, marshal, now);
  }
}
