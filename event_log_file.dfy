/**
 * parser/event_log_file.go: a log blob whose records are decoded as NSG
 * event records, its two constructors (from a blob listing and from a
 * decoded event log), its partial-range load, its short name, and the
 * reading of the saved process status.
 */
module EventLogFile {
  import opened Base
  import opened Text
  import opened Calendar
  import opened Patterns
  import opened Storage
  import opened BlobKeys
  import opened Payload
  import EventRecord
  import NsgTypes

  type AzureNsgEventRecord = EventRecord.AzureNsgEventRecord

  /** AzureNsgEventLog: the decoded document {"records": [...]}. */
  datatype AzureNsgEventLog = AzureNsgEventLog(records: seq<AzureNsgEventRecord>)

  /** AzureNsgLogFile; azureNsgEventLog is the *AzureNsgEventLog pointer (None for nil). */
  datatype AzureNsgLogFile = AzureNsgLogFile(
    name: string,
    etag: string,
    lastModified: Instant,
    lastProcessed: Instant,
    lastProcessedRecord: Instant,
    lastProcessedTimeStamp: int,
    lastRecordCount: int,
    lastProcessedRange: BlobRange,
    logTime: Instant,
    blob: Blob,
    azureNsgEventLog: Option<AzureNsgEventLog>,
    nsgName: string)

  /** The zero AzureNsgLogFile{}. */
  const EmptyLogFile := AzureNsgLogFile("", "", ZeroTime, ZeroTime, ZeroTime, 0, 0, NoRange, ZeroTime, NoBlob, None, "")

  /** ProcessStatus: the checkpoint of each log file, under its name. */
  type ProcessStatus = map<string, AzureNsgLogFile>

  // ------------------------------------------------------------ blob names

  /** getLogTimeFromName: the hour bucket of a matching name, errResourceIdName otherwise. */
  function GetLogTimeFromName(name: string): (r: Result<Instant>)
    ensures MatchKey(name).None? ==> r == Err(ResourceIdName)
    ensures r.Ok? ==> MatchKey(name).Some?
  {
    LogTimeFromName(name, ResourceIdName)
  }

  /** ShortName: the NSG name, '-', and the log hour as "2006-01-02-15". */
  function ShortName(f: AzureNsgLogFile): string
  {
    f.nsgName + "-" + HourStamp(f.logTime)
  }

  // ------------------------------------------------------------ constructors

  /**
   * NewAzureNsgLogFile: Name, Etag and LastModified from the blob, LogTime
   * from this file's getLogTimeFromName and NsgName from getNsgName. The
   * error returned is getNsgName's: the second `:=` overwrites the first.
   */
  function NewAzureNsgLogFile(blob: Blob): (r: (AzureNsgLogFile, Option<Error>))
    ensures r.0 == EmptyLogFile.(blob := blob, name := blob.name, etag := blob.etag,
      lastModified := blob.lastModified, logTime := r.0.logTime, nsgName := r.0.nsgName)
    ensures r.1.None? <==> MatchKey(blob.name).Some?
    ensures r.1.Some? ==> r.1 == Some(KeyMismatch(blob.name))
    ensures r.1.None? ==> r.0.nsgName == MatchKey(blob.name).value.name
    ensures GetLogTimeFromName(blob.name).Ok? ==> r.0.logTime == GetLogTimeFromName(blob.name).value
    ensures GetLogTimeFromName(blob.name).Err? ==> r.0.logTime == ZeroTime
  {
    var t := GetLogTimeFromName(blob.name);
    var n := NsgTypes.GetNsgName(blob.name);
    (EmptyLogFile.(blob := blob, name := blob.name, etag := blob.etag, lastModified := blob.lastModified,
                   logTime := NsgTypes.TimeOrZero(t), nsgName := NsgTypes.TextOrEmpty(n)),
     if n.Err? then Some(n.error) else None)
  }

  /** NewAzureNsgLogFile reporting the time parser's error first, so that a date that does not exist is reported. */
  function NewAzureNsgLogFileCorrected(blob: Blob): (r: (AzureNsgLogFile, Option<Error>))
    ensures r.0 == NewAzureNsgLogFile(blob).0
    ensures r.1.None? <==> GetLogTimeFromName(blob.name).Ok?
  {
    var t := GetLogTimeFromName(blob.name);
    (NewAzureNsgLogFile(blob).0, if t.Err? then Some(t.error) else NewAzureNsgLogFile(blob).1)
  }

  /**
   * For a name of the right shape dated the 30th of February, the
   * as-written constructor reports nothing and keeps the zero time; the
   * corrected one reports the day.
   */
  lemma NewAzureNsgLogFileLosesDateError(blob: Blob, pre: string, y: string, h: string)
    requires '/' in pre && |y| == 4 && |h| == 2 && AllDigits(y) && AllDigits(h) && ValueOf(h) < 24
    requires blob.name == HourKey(pre, HourGroup(y, "02", "30", h))
    ensures NewAzureNsgLogFile(blob).1 == None
    ensures NewAzureNsgLogFile(blob).0.logTime == ZeroTime
    ensures NewAzureNsgLogFileCorrected(blob).1 == Some(TimeOutOfRange("day"))
  {
    FebruaryThirtiethKey(pre, y, h, ResourceIdName);
  }

  /** The first record after the constructor's InitRecord: run only when the record is not yet initialized. */
  function FirstRecord(eventLog: AzureNsgEventLog): AzureNsgEventRecord
    requires |eventLog.records| > 0
  {
    var record := eventLog.records[0];
    if !record.initialized then EventRecord.InitializedRecord(record) else record
  }

  /**
   * NewAzureNsgLogFileFromEventLog: with no records, the zero log file (the
   * event log is dropped) and no error. Otherwise, from a copy of record 0
   * (initialised when it is not yet), the blob name of the record's hour,
   * the record's time as LastModified, the log time read back from that
   * name, and the record's NSG name; the event log is kept as it was.
   */
  function NewAzureNsgLogFileFromEventLog(eventLog: AzureNsgEventLog): (r: (AzureNsgLogFile, Option<Error>))
    ensures |eventLog.records| == 0 ==> r == (EmptyLogFile, None)
    ensures |eventLog.records| > 0 ==> (var rec := eventLog.records[0];
      && r.0 == EmptyLogFile.(azureNsgEventLog := Some(eventLog), name := r.0.name,
                              lastModified := rec.time, logTime := r.0.logTime, nsgName := r.0.nsgName)
      && r.0.name == SourceFileName(rec.resourceId, rec.time)
      && (r.1.None? <==> GetLogTimeFromName(r.0.name).Ok?)
      && (rec.initialized || EventRecord.RecordMatch(rec).None? ==> r.0.nsgName == rec.nsgName)
      && (!rec.initialized && EventRecord.RecordMatch(rec).Some? ==> r.0.nsgName == EventRecord.RecordMatch(rec).value.name))
  {
    if |eventLog.records| == 0 then (EmptyLogFile, None)
    else
      var record := FirstRecord(eventLog);
      var name := EventRecord.GetSourceFileName(record);
      var t := GetLogTimeFromName(name);
      (EmptyLogFile.(azureNsgEventLog := Some(eventLog), name := name, lastModified := record.time,
                     logTime := NsgTypes.TimeOrZero(t), nsgName := record.nsgName),
       if t.Err? then Some(t.error) else None)
  }

  /**
   * The name built from record 0 parses back: no error, the log time is the
   * record's time truncated to the hour, and the short name shows the
   * record's hour.
   */
  lemma FromEventLogReadsBack(eventLog: AzureNsgEventLog)
    requires |eventLog.records| > 0
    requires var rec := eventLog.records[0]; '/' in rec.resourceId && 0 <= ToCivil(rec.time).year <= 9999
    ensures var rec := eventLog.records[0]; var r := NewAzureNsgLogFileFromEventLog(eventLog);
      && r.1 == None
      && r.0.logTime == TruncateHour(rec.time)
      && ShortName(r.0) == r.0.nsgName + "-" + HourStamp(rec.time)
  {
    var rec := eventLog.records[0];
    var record := FirstRecord(eventLog);
    assert record.resourceId == rec.resourceId && record.time == rec.time;
    EventRecord.SourceFileNameReadsBack(record);
    StampsOfTruncatedHour(rec.time);
  }

  // ------------------------------------------------------------ loading

  /** A *AzureNsgLogFile: the log file the pointer-receiver methods update in place. */
  class AzureNsgLogFileRef {
    var file: AzureNsgLogFile

    constructor (f: AzureNsgLogFile)
      ensures file == f
    {
      file := f;
    }

    /**
     * LoadBlobRange: readRange gives the bytes GetRange returns for a range.
     * The event log is replaced by the decoded one only when the splice and
     * the decoding succeed; nothing else changes.
     */
    method LoadBlobRange(blobRange: BlobRange, readRange: BlobRange -> string, decode: string -> Option<AzureNsgEventLog>)
      returns (err: Option<Error>)
      modifies this
      ensures var d := DecodeSpliced(readRange(blobRange), decode);
        && (d.Ok? ==> err.None? && file == old(file).(azureNsgEventLog := Some(d.value)))
        && (d.Err? ==> err == Some(d.error) && file == old(file))
    {
      var bytesRead := readRange(blobRange);
      var firstRecord := IndexOf(bytesRead, RecordStart);
      if firstRecord == -1 {
        return Some(NoRecordStart);
      }
      var structuredJson := RecordsOpening + bytesRead[firstRecord..];
      err := LoadAzureNsgEventRecords(structuredJson, decode);
    }

    /** LoadAzureNsgEventRecords: decode a payload into the event log. */
    method LoadAzureNsgEventRecords(payload: string, decode: string -> Option<AzureNsgEventLog>) returns (err: Option<Error>)
      modifies this
      ensures decode(payload).Some? ==> err.None? && file == old(file).(azureNsgEventLog := decode(payload))
      ensures decode(payload).None? ==> err == Some(DecodeFailed) && file == old(file)
    {
      var eventLog := decode(payload);
      if eventLog.None? {
        return Some(DecodeFailed);
      }
      file := file.(azureNsgEventLog := eventLog);
      return None;
    }

    /** LoadBlob: LoadBlobRange over the whole blob. */
    method LoadBlob(readRange: BlobRange -> string, decode: string -> Option<AzureNsgEventLog>) returns (err: Option<Error>)
      modifies this
      ensures var d := DecodeSpliced(readRange(WholeBlob(old(file).blob)), decode);
        && (d.Ok? ==> err.None? && file == old(file).(azureNsgEventLog := Some(d.value)))
        && (d.Err? ==> err == Some(d.error) && file == old(file))
    {
      err := LoadBlobRange(WholeBlob(file.blob), readRange, decode);
    }
  }

  // ------------------------------------------------------------ saved status

  /**
   * ReadProcessStatus: read is the file's content (None when it cannot be
   * read). A file that cannot be read gives an empty status and no error; a
   * file that does not decode gives an error.
   */
  function ReadProcessStatus(read: Option<string>, decode: string -> Option<ProcessStatus>): (r: (ProcessStatus, Option<Error>))
    ensures r.1.Some? <==> read.Some? && decode(read.value).None?
    ensures r.1.Some? ==> r.1 == Some(DecodeFailed)
    ensures read.None? ==> r.0 == map[]
    ensures read.Some? && decode(read.value).Some? ==> r.0 == decode(read.value).value
  {
    match read
    case None => (map[], None)
    case Some(file) =>
      match decode(file)
      case None => (map[], Some(DecodeFailed))
      case Some(processStatus) => (processStatus, None)
  }
}
