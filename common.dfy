/**
 * parser/common.go: the checkpoint kept per log file (LogFileProcessStatus),
 * built from the getters of the AzureLogFile interface, and the name of
 * the logged resource in a blob name.
 */
module Common {
  import opened Base
  import opened Calendar
  import opened Patterns
  import opened Storage
  import opened BlobKeys

  /**
   * What the getters of an AzureLogFile return: GetName, GetEtag,
   * GetLastModified, GetLastProcessed, GetLastProcessedRecord,
   * GetLastProcessedTimeStamp, GetLastRecordCount, GetLastProcessedRange,
   * GetLogTime, GetBlob and GetNsgName.
   */
  datatype LogFileView = LogFileView(
    name: string,
    etag: string,
    lastModified: Instant,
    lastProcessed: Instant,
    lastProcessedRecord: Instant,
    lastProcessedTimeStamp: int,
    lastRecordCount: int,
    lastProcessedRange: BlobRange,
    logTime: Instant,
    blob: Blob,
    nsgName: string)

  /** The zero values of the getters of a zero-valued log file. */
  const EmptyView := LogFileView("", "", ZeroTime, ZeroTime, ZeroTime, 0, 0, NoRange, ZeroTime, NoBlob, "")

  /** LogFileProcessStatus: the ten fields of a log file that are saved between runs. */
  datatype LogFileProcessStatus = LogFileProcessStatus(
    name: string,
    etag: string,
    lastModified: Instant,
    lastProcessed: Instant,
    lastProcessedRecord: Instant,
    lastProcessedTimeStamp: int,
    lastRecordCount: int,
    lastProcessedRange: BlobRange,
    logTime: Instant,
    nsgName: string)

  /** ProcessStatus: the saved status of each log file, under its name. */
  type ProcessStatus = map<string, LogFileProcessStatus>

  /** A log file rebuilt from its saved status and its blob. */
  function Restore(s: LogFileProcessStatus, blob: Blob): LogFileView
  {
    LogFileView(s.name, s.etag, s.lastModified, s.lastProcessed, s.lastProcessedRecord,
      s.lastProcessedTimeStamp, s.lastRecordCount, s.lastProcessedRange, s.logTime, blob, s.nsgName)
  }

  /**
   * createProcessStatusFromLogfile: the status loses only the blob (and the
   * event log, which no getter of the status reads), so rebuilding the log
   * file from the status and the blob gives the getters back.
   */
  function CreateProcessStatusFromLogfile(logfile: LogFileView): (s: LogFileProcessStatus)
    ensures Restore(s, logfile.blob) == logfile
  {
    LogFileProcessStatus(logfile.name, logfile.etag, logfile.lastModified, logfile.lastProcessed,
      logfile.lastProcessedRecord, logfile.lastProcessedTimeStamp, logfile.lastRecordCount,
      logfile.lastProcessedRange, logfile.logTime, logfile.nsgName)
  }

  /** The other direction: a status survives being rebuilt into a log file with any blob. */
  lemma StatusRoundTrip(s: LogFileProcessStatus, blob: Blob)
    ensures CreateProcessStatusFromLogfile(Restore(s, blob)) == s
  {
  }

  /** Two log files with the same status differ at most in their blob. */
  lemma StatusDeterminesAllButBlob(a: LogFileView, b: LogFileView)
    requires CreateProcessStatusFromLogfile(a) == CreateProcessStatusFromLogfile(b)
    ensures a == b.(blob := a.blob)
  {
    assert Restore(CreateProcessStatusFromLogfile(a), a.blob) == a;
    assert Restore(CreateProcessStatusFromLogfile(b), a.blob) == b.(blob := a.blob);
  }

  /**
   * getLoggedResourceName: the segment just before "/y=" of a matching
   * blob name, errResourceIdName otherwise.
   */
  function GetLoggedResourceName(name: string): (r: Result<string>)
    ensures r.Ok? <==> MatchKey(name).Some?
    ensures r.Ok? ==> r.value == MatchKey(name).value.name
    ensures r.Err? ==> r == Err(ResourceIdName)
  {
    LoggedName(name, ResourceIdName)
  }

  /** For the blob of a record's hour, the logged resource is the last segment of the record's resource id. */
  lemma LoggedResourceOfSourceFile(resourceId: string, t: Instant)
    requires '/' in resourceId && 0 <= ToCivil(t).year <= 9999
    ensures GetLoggedResourceName(SourceFileName(resourceId, t)) == Ok(LastSegment(resourceId))
  {
    SourceFileNameRoundTrip(resourceId, t, ResourceIdName);
  }
}
