/**
 * parser/appgw_firewall_log_file.go: a log blob of Application Gateway firewall
 * records, with its lazily built record cache, its getters and setters,
 * its two constructors, its partial-range load and the range still to be
 * read.
 */
module FirewallLogFile {
  import opened Base
  import opened Text
  import opened Calendar
  import opened Patterns
  import opened Storage
  import opened BlobKeys
  import opened Payload
  import opened Common
  import FirewallRecord

  type AzureAppGwFirewallEventRecord = FirewallRecord.AzureAppGwFirewallEventRecord

  // ------------------------------------------------------------ the event log

  /**
   * A variable holding one record: the range variable v of GetRecords'
   * loop, whose address the cache entries hold, and InitRecord's receiver.
   */
  class RecordVar {
    var record: AzureAppGwFirewallEventRecord

    constructor (record: AzureAppGwFirewallEventRecord)
      ensures this.record == record
    {
      this.record := record;
    }
  }

  /**
   * What the range loop of GetRecords leaves in the cache: one entry per
   * record, each the address of the one loop variable (which the loop
   * declares once, as Go did before version 1.22), which holds the last
   * record.
   */
  predicate AliasesLast(cache: seq<RecordVar>, records: seq<AzureAppGwFirewallEventRecord>)
    reads cache
  {
    && |cache| == |records|
    && (forall i :: 0 <= i < |cache| ==> cache[i] == cache[0])
    && (|cache| > 0 ==> cache[0].record == records[|records| - 1])
  }

  /** One entry per record, each its own variable holding that record. */
  predicate CopiesEach(cache: seq<RecordVar>, records: seq<AzureAppGwFirewallEventRecord>)
    reads cache
  {
    && |cache| == |records|
    && (forall i :: 0 <= i < |cache| ==> cache[i].record == records[i])
    && (forall i, j :: 0 <= i < j < |cache| ==> cache[i] != cache[j])
  }

  /**
   * AzureAppGwFirewallAccessLog: the decoded records and the exported cache (AzureEventRecords) GetRecords
   * fills (None for the nil slice).
   */
  class AzureAppGwFirewallAccessLog {
    var records: seq<AzureAppGwFirewallEventRecord>
    var eventRecordCache: Option<seq<RecordVar>>

    constructor (records: seq<AzureAppGwFirewallEventRecord>)
      ensures this.records == records && eventRecordCache == None
    {
      this.records := records;
      eventRecordCache := None;
    }

    /** The variables the cache entries point to. */
    function Cells(): set<RecordVar>
      reads this
    {
      if eventRecordCache.None? then {} else set c | c in eventRecordCache.value
    }

    /**
     * GetRecords: the first call fills the cache with one entry per record,
     * each the address of the loop variable, so that all of them share the
     * last record; every later call returns the cache as it is. The records
     * themselves are never changed.
     */
    method GetRecords() returns (r: seq<RecordVar>)
      modifies this
      ensures records == old(records)
      ensures old(eventRecordCache).Some? ==> eventRecordCache == old(eventRecordCache)
      ensures old(eventRecordCache).None? ==> AliasesLast(r, records) && (|r| > 0 ==> fresh(r[0]))
      ensures eventRecordCache == Some(r)
    {
      if eventRecordCache.None? {
        var cache: seq<RecordVar> := [];
        var rs := records;
        if |rs| > 0 {
          var v := new RecordVar(rs[0]);
          for i := 0 to |rs|
            invariant records == rs
            invariant |cache| == i && (forall j :: 0 <= j < i ==> cache[j] == v)
            invariant i > 0 ==> v.record == rs[i - 1]
          {
            v.record := rs[i];
            cache := cache + [v];
          }
        }
        eventRecordCache := Some(cache);
      }
      r := eventRecordCache.value;
    }

    /**
     * GetRecords with a variable of its own for each entry: the first call
     * fills the cache with one fresh variable per record, holding that
     * record, in order; every later call returns the cache as it is.
     */
    method GetRecordsCorrected() returns (r: seq<RecordVar>)
      modifies this
      ensures records == old(records)
      ensures old(eventRecordCache).Some? ==> eventRecordCache == old(eventRecordCache)
      ensures old(eventRecordCache).None? ==> CopiesEach(r, records) && (forall i :: 0 <= i < |r| ==> fresh(r[i]))
      ensures eventRecordCache == Some(r)
    {
      if eventRecordCache.None? {
        var cache: seq<RecordVar> := [];
        var rs := records;
        for i := 0 to |rs|
          invariant records == rs
          invariant CopiesEach(cache, rs[..i])
          invariant forall j :: 0 <= j < i ==> fresh(cache[j])
        {
          var v := new RecordVar(rs[i]);
          cache := cache + [v];
        }
        assert rs[..|rs|] == rs;
        eventRecordCache := Some(cache);
      }
      r := eventRecordCache.value;
    }
  }

  // ------------------------------------------------------------ blob names

  /** getAppGwLogTimeFromName: the hour bucket of a matching name, errResourceIdName otherwise. */
  function GetAppGwFirewallLogTimeFromName(name: string): (r: Result<Instant>)
    ensures MatchKey(name).None? ==> r == Err(ResourceIdName)
    ensures r.Ok? ==> MatchKey(name).Some?
  {
    LogTimeFromName(name, ResourceIdName)
  }

  function TimeOrZero(r: Result<Instant>): Instant
  {
    if r.Ok? then r.value else ZeroTime
  }

  function TextOrEmpty(r: Result<string>): string
  {
    if r.Ok? then r.value else ""
  }

  // ------------------------------------------------------------ constructors, on values

  /**
   * The getters of the log file NewAzureAppGwFirewallLogFile makes, and its error:
   * Name, Etag and LastModified from the blob, LogTime and the resource
   * name from the blob name. The error is getLoggedResourceName's, which
   * overwrites the time parser's.
   */
  function NewLogFileView(blob: Blob): (r: (LogFileView, Option<Error>))
    ensures r.0 == EmptyView.(blob := blob, name := blob.name, etag := blob.etag,
      lastModified := blob.lastModified, logTime := r.0.logTime, nsgName := r.0.nsgName)
    ensures r.1.None? <==> MatchKey(blob.name).Some?
    ensures r.1.Some? ==> r.1 == Some(ResourceIdName)
    ensures r.1.None? ==> r.0.nsgName == MatchKey(blob.name).value.name
    ensures GetAppGwFirewallLogTimeFromName(blob.name).Ok? ==> r.0.logTime == GetAppGwFirewallLogTimeFromName(blob.name).value
    ensures GetAppGwFirewallLogTimeFromName(blob.name).Err? ==> r.0.logTime == ZeroTime
  {
    var t := GetAppGwFirewallLogTimeFromName(blob.name);
    var n := GetLoggedResourceName(blob.name);
    (EmptyView.(blob := blob, name := blob.name, etag := blob.etag, lastModified := blob.lastModified,
                logTime := TimeOrZero(t), nsgName := TextOrEmpty(n)),
     if n.Err? then Some(n.error) else None)
  }

  /** NewAzureAppGwFirewallLogFile reporting the time parser's error first. */
  function NewLogFileViewCorrected(blob: Blob): (r: (LogFileView, Option<Error>))
    ensures r.0 == NewLogFileView(blob).0
    ensures r.1.None? <==> GetAppGwFirewallLogTimeFromName(blob.name).Ok?
  {
    var t := GetAppGwFirewallLogTimeFromName(blob.name);
    (NewLogFileView(blob).0, if t.Err? then Some(t.error) else NewLogFileView(blob).1)
  }

  /** A name of the right shape dated the 30th of February: no error as written, the day reported when corrected. */
  lemma NewLogFileLosesDateError(blob: Blob, pre: string, y: string, h: string)
    requires '/' in pre && |y| == 4 && |h| == 2 && AllDigits(y) && AllDigits(h) && ValueOf(h) < 24
    requires blob.name == HourKey(pre, HourGroup(y, "02", "30", h))
    ensures NewLogFileView(blob).1 == None
    ensures NewLogFileView(blob).0.logTime == ZeroTime
    ensures NewLogFileViewCorrected(blob).1 == Some(TimeOutOfRange("day"))
  {
    FebruaryThirtiethKey(pre, y, h, ResourceIdName);
  }

  /** A record after the constructor's InitRecord, which runs only when the record is not yet initialised. */
  function FirstRecord(record: AzureAppGwFirewallEventRecord): AzureAppGwFirewallEventRecord
  {
    if !record.initialized then FirewallRecord.InitializedRecord(record) else record
  }

  /**
   * The getters of a log file made from an initialised record, and the
   * error: the blob name of the record's hour, the record's time as
   * LastModified, the log time read back from that name, and the gateway
   * name.
   */
  function InitializedView(first: AzureAppGwFirewallEventRecord): (LogFileView, Option<Error>)
  {
    var name := FirewallRecord.GetSourceFileName(first);
    var t := GetAppGwFirewallLogTimeFromName(name);
    (EmptyView.(name := name, lastModified := first.time, logTime := TimeOrZero(t), nsgName := first.appGwName),
     if t.Err? then Some(t.error) else None)
  }

  /**
   * The getters of the log file NewAzureAppGwFirewallLogFileFromEventLog makes
   * from the first cache entry, and its error: only the blob name, the
   * modification time and the log time are set, all three from the
   * record's time, and the resource name is the gateway name InitRecord
   * finds.
   */
  function FromRecordView(record: AzureAppGwFirewallEventRecord): (r: (LogFileView, Option<Error>))
    ensures r.0 == EmptyView.(name := r.0.name, lastModified := record.time, logTime := r.0.logTime, nsgName := r.0.nsgName)
    ensures r.0.name == SourceFileName(record.resourceId, record.time)
    ensures r.1.None? <==> GetAppGwFirewallLogTimeFromName(r.0.name).Ok?
    ensures record.initialized || FirewallRecord.RecordMatch(record).None? ==> r.0.nsgName == record.appGwName
    ensures !record.initialized && FirewallRecord.RecordMatch(record).Some? ==> r.0.nsgName == FirewallRecord.RecordMatch(record).value.name
  {
    InitializedView(FirstRecord(record))
  }

  /** The name built from the first record parses back to the record's hour, with no error. */
  lemma FromRecordReadsBack(record: AzureAppGwFirewallEventRecord)
    requires '/' in record.resourceId && 0 <= ToCivil(record.time).year <= 9999
    ensures FromRecordView(record).1 == None
    ensures FromRecordView(record).0.logTime == TruncateHour(record.time)
  {
    var first := FirstRecord(record);
    assert first.resourceId == record.resourceId && first.time == record.time;
    FirewallRecord.SourceFileNameReadsBack(first);
  }

  // ------------------------------------------------------------ the log file

  /** AzureAppGwFirewallLogFile; azureAppGwFirewallAccessLog is the *AzureAppGwFirewallAccessLog pointer. */
  class AzureAppGwFirewallLogFile {
    var name: string
    var etag: string
    var lastModified: Instant
    var lastProcessed: Instant
    var lastProcessedRecord: Instant
    var lastProcessedTimeStamp: int
    var lastRecordCount: int
    var lastProcessedRange: BlobRange
    var logTime: Instant
    var blob: Blob
    var azureAppGwFirewallAccessLog: AzureAppGwFirewallAccessLog?
    var loggedResourceName: string

    /** What the getters return; GetNsgName returns the logged resource name. */
    function View(): LogFileView
      reads this
    {
      LogFileView(name, etag, lastModified, lastProcessed, lastProcessedRecord, lastProcessedTimeStamp,
        lastRecordCount, lastProcessedRange, logTime, blob, loggedResourceName)
    }

    /** A log file with the given getters, referring to the given event log. */
    constructor (v: LogFileView, log: AzureAppGwFirewallAccessLog?)
      ensures View() == v && azureAppGwFirewallAccessLog == log
    {
      name, etag, lastModified, lastProcessed, lastProcessedRecord := v.name, v.etag, v.lastModified, v.lastProcessed, v.lastProcessedRecord;
      lastProcessedTimeStamp, lastRecordCount, lastProcessedRange, logTime := v.lastProcessedTimeStamp, v.lastRecordCount, v.lastProcessedRange, v.logTime;
      blob, azureAppGwFirewallAccessLog, loggedResourceName := v.blob, log, v.nsgName;
    }

    method SetLastProcessed(t: Instant)
      modifies this
      ensures View() == old(View()).(lastProcessed := t) && azureAppGwFirewallAccessLog == old(azureAppGwFirewallAccessLog)
    {
      lastProcessed := t;
    }

    method SetLastRecordCount(n: int)
      modifies this
      ensures View() == old(View()).(lastRecordCount := n) && azureAppGwFirewallAccessLog == old(azureAppGwFirewallAccessLog)
    {
      lastRecordCount := n;
    }

    method SetLastProcessedRecord(t: Instant)
      modifies this
      ensures View() == old(View()).(lastProcessedRecord := t) && azureAppGwFirewallAccessLog == old(azureAppGwFirewallAccessLog)
    {
      lastProcessedRecord := t;
    }

    method SetLastProcessedRange(r: BlobRange)
      modifies this
      ensures View() == old(View()).(lastProcessedRange := r) && azureAppGwFirewallAccessLog == old(azureAppGwFirewallAccessLog)
    {
      lastProcessedRange := r;
    }

    method SetLastProcessedTimeStamp(ts: int)
      modifies this
      ensures View() == old(View()).(lastProcessedTimeStamp := ts) && azureAppGwFirewallAccessLog == old(azureAppGwFirewallAccessLog)
    {
      lastProcessedTimeStamp := ts;
    }

    /** ShortName: the resource name, '-', and the log hour as "2006-01-02-15". */
    function ShortName(): string
      reads this
    {
      loggedResourceName + "-" + HourStamp(logTime)
    }

    /**
     * getUnprocessedBlobRange: from the end of the range read last time, or
     * from 0 when that ended at 0, to the blob's content length.
     */
    function GetUnprocessedBlobRange(): (r: BlobRange)
      reads this
      ensures r.end == blob.contentLength
      ensures r.start == lastProcessedRange.end
    {
      ResumeRange(lastProcessedRange, blob.contentLength)
    }

    /**
     * LoadBlobRange: readRange gives the bytes GetRange returns for a range.
     * On success the decoded records go into a new event log when there was
     * none, and replace the records of the existing one otherwise, whose
     * cache is kept; on failure nothing changes. The getters never change.
     */
    method LoadBlobRange(blobRange: BlobRange, readRange: BlobRange -> string,
                         decode: string -> Option<seq<AzureAppGwFirewallEventRecord>>) returns (err: Option<Error>)
      modifies this, azureAppGwFirewallAccessLog
      ensures View() == old(View())
      ensures var d := DecodeSpliced(readRange(blobRange), decode);
        && (d.Err? ==>
              (&& err == Some(d.error) && azureAppGwFirewallAccessLog == old(azureAppGwFirewallAccessLog)
               && (azureAppGwFirewallAccessLog != null ==> unchanged(azureAppGwFirewallAccessLog))))
        && (d.Ok? ==> err.None? && azureAppGwFirewallAccessLog != null && azureAppGwFirewallAccessLog.records == d.value)
      ensures old(azureAppGwFirewallAccessLog) == null && err.None? ==>
        fresh(azureAppGwFirewallAccessLog) && azureAppGwFirewallAccessLog.eventRecordCache.None?
      ensures old(azureAppGwFirewallAccessLog) != null && err.None? ==>
        (&& azureAppGwFirewallAccessLog == old(azureAppGwFirewallAccessLog)
         && azureAppGwFirewallAccessLog.eventRecordCache == old(azureAppGwFirewallAccessLog.eventRecordCache))
    {
      var bytesRead := readRange(blobRange);
      var firstRecord := IndexOf(bytesRead, RecordStart);
      if firstRecord == -1 {
        return Some(NoRecordStart);
      }
      var structuredJson := RecordsOpening + bytesRead[firstRecord..];
      err := LoadAzureNsgEventRecords(structuredJson, decode);
    }

    /** LoadAzureNsgEventRecords: decode a payload into the event log the pointer refers to, allocating one when it is nil. */
    method LoadAzureNsgEventRecords(payload: string, decode: string -> Option<seq<AzureAppGwFirewallEventRecord>>)
      returns (err: Option<Error>)
      modifies this, azureAppGwFirewallAccessLog
      ensures View() == old(View())
      ensures decode(payload).None? ==>
        (&& err == Some(DecodeFailed) && azureAppGwFirewallAccessLog == old(azureAppGwFirewallAccessLog)
         && (azureAppGwFirewallAccessLog != null ==> unchanged(azureAppGwFirewallAccessLog)))
      ensures decode(payload).Some? ==>
        err.None? && azureAppGwFirewallAccessLog != null && azureAppGwFirewallAccessLog.records == decode(payload).value
      ensures old(azureAppGwFirewallAccessLog) == null && err.None? ==>
        fresh(azureAppGwFirewallAccessLog) && azureAppGwFirewallAccessLog.eventRecordCache.None?
      ensures old(azureAppGwFirewallAccessLog) != null && err.None? ==>
        (&& azureAppGwFirewallAccessLog == old(azureAppGwFirewallAccessLog)
         && azureAppGwFirewallAccessLog.eventRecordCache == old(azureAppGwFirewallAccessLog.eventRecordCache))
    {
      var records := decode(payload);
      if records.None? {
        return Some(DecodeFailed);
      }
      if azureAppGwFirewallAccessLog == null {
        azureAppGwFirewallAccessLog := new AzureAppGwFirewallAccessLog(records.value);
      } else {
        azureAppGwFirewallAccessLog.records := records.value;
      }
      return None;
    }

    /** LoadBlob: LoadBlobRange over the whole blob. */
    method LoadBlob(readRange: BlobRange -> string, decode: string -> Option<seq<AzureAppGwFirewallEventRecord>>)
      returns (err: Option<Error>)
      modifies this, azureAppGwFirewallAccessLog
      ensures View() == old(View())
      ensures var d := DecodeSpliced(readRange(WholeBlob(old(blob))), decode);
        && (d.Err? ==> err == Some(d.error))
        && (d.Ok? ==> err.None? && azureAppGwFirewallAccessLog != null && azureAppGwFirewallAccessLog.records == d.value)
    {
      err := LoadBlobRange(WholeBlob(blob), readRange, decode);
    }
  }

  // ------------------------------------------------------------ constructors

  /**
   * NewAzureAppGwFirewallLogFile: a new log file with no event log: Name, Etag and
   * LastModified from the blob, LogTime and the resource name from the
   * blob name, and getLoggedResourceName's error.
   */
  method NewAzureAppGwFirewallLogFile(blob: Blob) returns (logFile: AzureAppGwFirewallLogFile, err: Option<Error>)
    ensures fresh(logFile) && logFile.azureAppGwFirewallAccessLog == null
    ensures (logFile.View(), err) == NewLogFileView(blob)
  {
    var logTime := GetAppGwFirewallLogTimeFromName(blob.name);
    var nsgName := GetLoggedResourceName(blob.name);
    logFile := new AzureAppGwFirewallLogFile(EmptyView.(blob := blob, name := blob.name, etag := blob.etag,
      lastModified := blob.lastModified, logTime := TimeOrZero(logTime), nsgName := TextOrEmpty(nsgName)), null);
    err := if nsgName.Err? then Some(nsgName.error) else None;
  }

  /** InitRecord through a cache entry, when the record it points to is not yet initialised. */
  method InitFirstEntry(cell: RecordVar) returns (record: AzureAppGwFirewallEventRecord)
    modifies cell
    ensures record == FirstRecord(old(cell.record))
    ensures cell.record == record
  {
    record := cell.record;
    if !record.initialized {
      record := FirewallRecord.InitializedRecord(record);
      cell.record := record;
    }
  }

  /**
   * The part of the constructors below after the cache is filled: InitRecord
   * through the first entry, and a log file, referring to the event log,
   * with the getters InitializedView gives for the record it points to.
   */
  method FromFirstEntry(eventLog: AzureAppGwFirewallAccessLog, cell: RecordVar) returns (logFile: AzureAppGwFirewallLogFile, err: Option<Error>)
    modifies cell
    ensures fresh(logFile)
    ensures cell.record == FirstRecord(old(cell.record))
    ensures (logFile.View(), err) == InitializedView(cell.record) && logFile.azureAppGwFirewallAccessLog == eventLog
  {
    var record := InitFirstEntry(cell);
    var view := InitializedView(record);
    logFile := new AzureAppGwFirewallLogFile(view.0, eventLog);
    err := view.1;
  }

  /**
   * NewAzureAppGwFirewallLogFileFromEventLog: with an empty cache, the zero log
   * file and no error. Otherwise the record the first cache entry points
   * to is initialised in place when it is not yet, and the new log file,
   * which refers to the event log, holds the getters InitializedView
   * gives for it. When this call fills the cache, that record is the last
   * one, for every entry points to the loop variable. The records are not
   * changed.
   */
  method NewAzureAppGwFirewallLogFileFromEventLog(eventLog: AzureAppGwFirewallAccessLog) returns (logFile: AzureAppGwFirewallLogFile, err: Option<Error>)
    modifies eventLog, eventLog.Cells()
    ensures fresh(logFile)
    ensures eventLog.records == old(eventLog.records)
    ensures eventLog.eventRecordCache.Some?
    ensures old(eventLog.eventRecordCache).Some? ==> eventLog.eventRecordCache == old(eventLog.eventRecordCache)
    ensures var cache := eventLog.eventRecordCache.value;
      old(eventLog.eventRecordCache).Some? && |cache| > 0 ==>
        cache[0].record == FirstRecord(old(eventLog.eventRecordCache.value[0].record))
    ensures var cache := eventLog.eventRecordCache.value;
      old(eventLog.eventRecordCache).None? ==>
        (&& |cache| == |eventLog.records| && (forall i :: 0 <= i < |cache| ==> cache[i] == cache[0])
         && (|cache| > 0 ==> fresh(cache[0])))
    ensures var cache := eventLog.eventRecordCache.value; var records := old(eventLog.records);
      old(eventLog.eventRecordCache).None? && |records| > 0 ==> cache[0].record == FirstRecord(records[|records| - 1])
    ensures var cache := eventLog.eventRecordCache.value;
      && (|cache| == 0 ==> logFile.View() == EmptyView && logFile.azureAppGwFirewallAccessLog == null && err.None?)
      && (|cache| > 0 ==> (logFile.View(), err) == InitializedView(cache[0].record) && logFile.azureAppGwFirewallAccessLog == eventLog)
  {
    var records := eventLog.GetRecords();
    if |records| == 0 {
      logFile := new AzureAppGwFirewallLogFile(EmptyView, null);
      return logFile, None;
    }
    ghost var before := records[0].record;
    assert old(eventLog.eventRecordCache).None? ==> before == old(eventLog.records)[|old(eventLog.records)| - 1];
    ghost var filled := eventLog.eventRecordCache;
    logFile, err := FromFirstEntry(eventLog, records[0]);
    assert eventLog.eventRecordCache == filled;
    assert records[0].record == FirstRecord(before);
  }

  /**
   * NewAzureAppGwFirewallLogFileFromEventLog over a cache of copies: when this call
   * fills the cache, the new log file holds the getters FromRecordView
   * gives for the first record, and the first entry holds that record
   * initialised. A cache filled before is used as it is.
   */
  method NewAzureAppGwFirewallLogFileFromEventLogCorrected(eventLog: AzureAppGwFirewallAccessLog) returns (logFile: AzureAppGwFirewallLogFile, err: Option<Error>)
    modifies eventLog, eventLog.Cells()
    ensures fresh(logFile)
    ensures eventLog.records == old(eventLog.records)
    ensures eventLog.eventRecordCache.Some?
    ensures old(eventLog.eventRecordCache).Some? ==> eventLog.eventRecordCache == old(eventLog.eventRecordCache)
    ensures var cache := eventLog.eventRecordCache.value;
      old(eventLog.eventRecordCache).Some? && |cache| > 0 ==>
        cache[0].record == FirstRecord(old(eventLog.eventRecordCache.value[0].record))
    ensures var cache := eventLog.eventRecordCache.value; var records := eventLog.records;
      old(eventLog.eventRecordCache).None? ==>
        (&& |cache| == |records|
         && (|records| > 0 ==>
              (&& (logFile.View(), err) == FromRecordView(records[0])
               && cache[0].record == FirstRecord(records[0]))))
    ensures var cache := eventLog.eventRecordCache.value;
      && (|cache| == 0 ==> logFile.View() == EmptyView && logFile.azureAppGwFirewallAccessLog == null && err.None?)
      && (|cache| > 0 ==> (logFile.View(), err) == InitializedView(cache[0].record) && logFile.azureAppGwFirewallAccessLog == eventLog)
  {
    var records := eventLog.GetRecordsCorrected();
    if |records| == 0 {
      logFile := new AzureAppGwFirewallLogFile(EmptyView, null);
      return logFile, None;
    }
    ghost var before := records[0].record;
    ghost var filled := eventLog.eventRecordCache;
    logFile, err := FromFirstEntry(eventLog, records[0]);
    assert eventLog.eventRecordCache == filled;
    assert records[0].record == FirstRecord(before);
  }

  /**
   * Two records of different times: the log file made from an event log
   * whose cache the range loop filled takes its modification time from the
   * last record, where the first record's was meant.
   */
  lemma FromEventLogTakesLastRecord(first: AzureAppGwFirewallEventRecord, last: AzureAppGwFirewallEventRecord)
    requires first.time != last.time
    ensures InitializedView(FirstRecord(last)).0.lastModified == last.time
    ensures InitializedView(FirstRecord(last)).0.lastModified != FromRecordView(first).0.lastModified
  {
    assert FromRecordView(last) == InitializedView(FirstRecord(last));
  }
}
