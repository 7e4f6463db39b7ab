/**
 * parser/client.go: the Azure client's checkpoint planning (which listed
 * blobs to process and which checkpoints to carry forward), the drain of
 * processed files into the new status and its save and reload, the
 * status file, and the two sinks (syslog and file) with the checkpoint
 * each computes.
 */
module Client {
  import opened Base
  import opened Text
  import opened Calendar
  import opened Patterns
  import opened Storage
  import opened BlobKeys
  import opened Timeline
  import opened Payload
  import opened NsgTypes
  import opened StatusMerge

  const DestinationFile: string := "file"
  const DestinationSyslog: string := "syslog"

  /**
   * ProcessStatus: the checkpoint of each log file. The Go map holds
   * *NsgLogFile pointers; nothing writes through them, so values stand in.
   */
  type ProcessStatus = map<string, NsgLogFile>

  // ------------------------------------------------------------ the status file

  /** The status file of a destination type (or, in parser/job.go, of a job name). */
  function StatusFileName(kind: string): string
  {
    "nsg-parser-status-" + kind + ".json"
  }

  /** Different destination types never share a status file. */
  lemma StatusFileNamesDistinct(a: string, b: string)
    requires StatusFileName(a) == StatusFileName(b)
    ensures a == b
  {
    var na, nb := StatusFileName(a), StatusFileName(b);
    assert na[18..|na| - 5] == a;
    assert nb[18..|nb| - 5] == b;
  }

  /**
   * ReadProcessStatus: read is the file's content, None when it cannot be
   * read. A file that cannot be read gives an empty status and no error; a
   * file that does not decode gives an error.
   */
  function ReadProcessStatus(read: Option<string>, decode: string -> Option<ProcessStatus>): (r: (ProcessStatus, Option<Error>))
    ensures r.1.Some? <==> read.Some? && decode(read.value).None?
    ensures r.1.Some? ==> r.1 == Some(DecodeFailed)
    ensures read.None? ==> r.0 == map[]
    ensures read.Some? && decode(read.value).Some? ==> r.0 == decode(read.value).value
  {
    match read
    case None => (map[], None)
    case Some(file) =>
      match decode(file)
      case None => (map[], Some(DecodeFailed))
      case Some(processStatus) => (processStatus, None)
  }

  /**
   * SaveProcessStatus (of the client, and of a job in parser/job.go):
   * marshal is json.Marshal (None when it fails) and writeOk whether the
   * write succeeds. The result is the error and what
   * the status file then holds (None when nothing was written).
   */
  function SaveProcessStatus<S>(status: S, marshal: S -> Option<string>, writeOk: bool): (r: (Option<Error>, Option<string>))
    ensures r.0.None? <==> marshal(status).Some? && writeOk
    ensures r.0.None? ==> r.1 == marshal(status)
    ensures marshal(status).None? ==> r == (Some(MarshalFailed), None)
    ensures marshal(status).Some? && !writeOk ==> r == (Some(WriteFailed), None)
  {
    match marshal(status)
    case None => (Some(MarshalFailed), None)
    case Some(outJson) => if writeOk then (None, Some(outJson)) else (Some(WriteFailed), None)
  }

  // ------------------------------------------------------------ planning

  /** How LoadUnprocessedBlobs treats a listed blob. */
  datatype Disposition = BeforeFloor | NewBlob | ModifiedBlob | UnmodifiedBlob

  /** The log file LoadUnprocessedBlobs makes of a listed blob; the constructor's error is ignored. */
  function Listed(blob: Blob): NsgLogFile
  {
    NewNsgLogFile(blob).0
  }

  /**
   * A log file whose hour is not after the floor is before it; otherwise it
   * is new when no checkpoint is kept under its blob's name, modified when
   * it changed strictly after the checkpoint's LastModified, and unmodified
   * otherwise.
   */
  function Classify(status: ProcessStatus, logFile: NsgLogFile, afterTime: Instant): Disposition
  {
    if !Calendar.After(logFile.logTime, afterTime) then BeforeFloor
    else if logFile.blob.name !in status then NewBlob
    else if Calendar.After(logFile.lastModified, status[logFile.blob.name].lastModified) then ModifiedBlob
    else UnmodifiedBlob
  }

  /** A log file taking up the progress of a checkpoint: its three progress fields copied, nothing else. */
  function Resumed(logFile: NsgLogFile, checkpoint: NsgLogFile): NsgLogFile
  {
    logFile.(lastProcessedTimeStamp := checkpoint.lastProcessedTimeStamp,
             lastProcessedRecord := checkpoint.lastProcessedRecord,
             lastProcessedRange := checkpoint.lastProcessedRange)
  }

  /** What is queued for a blob: a new blob's log file, a modified one's resumed from its checkpoint, or nothing. */
  function Planned(status: ProcessStatus, blob: Blob, afterTime: Instant): Option<NsgLogFile>
  {
    var logFile := Listed(blob);
    match Classify(status, logFile, afterTime)
    case NewBlob => Some(logFile)
    case ModifiedBlob => Some(Resumed(logFile, status[logFile.blob.name]))
    case _ => None
  }

  /** Planned, as the function from a listed blob that Queued applies. */
  function PlanOf(status: ProcessStatus, afterTime: Instant): Blob -> Option<NsgLogFile>
  {
    blob => Planned(status, blob, afterTime)
  }

  /** The checkpoint an unmodified blob carries forward, if it is one. */
  function SkipOf(status: ProcessStatus, afterTime: Instant): Blob -> Option<NsgLogFile>
  {
    blob => var logFile := Listed(blob);
      if Classify(status, logFile, afterTime) == UnmodifiedBlob then Some(status[logFile.blob.name]) else None
  }

  /** The log files to process, in listing order. */
  function Queued(status: ProcessStatus, blobs: seq<Blob>, afterTime: Instant): seq<NsgLogFile>
  {
    Kept(blobs, PlanOf(status, afterTime))
  }

  /** The checkpoints of the unmodified blobs, in listing order. */
  function Skipped(status: ProcessStatus, blobs: seq<Blob>, afterTime: Instant): seq<NsgLogFile>
  {
    Kept(blobs, SkipOf(status, afterTime))
  }

  function CheckpointName(f: NsgLogFile): string { f.name }

  function BlobName(f: NsgLogFile): string { f.blob.name }

  /** The blob names of the log files queued for the sinks. */
  function QueuedNames(status: ProcessStatus, blobs: seq<Blob>, afterTime: Instant): set<string>
  {
    set f | f in Queued(status, blobs, afterTime) :: BlobName(f)
  }

  /** Every file the sinks sent back names a queued blob. */
  predicate SentQueued(status: ProcessStatus, blobs: seq<Blob>, afterTime: Instant, results: seq<NsgLogFile>)
  {
    forall i :: 0 <= i < |results| ==> BlobName(results[i]) in QueuedNames(status, blobs, afterTime)
  }

  /**
   * The status ProcessBlobsAfter saves has no key beyond the carried ones
   * and the queued names, and keeps every carried checkpoint of a blob that
   * was not queued.
   */
  predicate SavedWithin(status: ProcessStatus, blobs: seq<Blob>, afterTime: Instant, results: seq<NsgLogFile>)
  {
    var carried, names := Carried(status, blobs, afterTime), QueuedNames(status, blobs, afterTime);
    var merged := Merged(carried, results, BlobName);
    && merged.Keys <= carried.Keys + names
    && forall k :: k in carried && k !in names ==> k in merged && merged[k] == carried[k]
  }

  /** Sinks that send back queued files keep the saved status within the carried and queued blobs. */
  lemma SentQueuedSavedWithin(status: ProcessStatus, blobs: seq<Blob>, afterTime: Instant, results: seq<NsgLogFile>)
    requires SentQueued(status, blobs, afterTime, results)
    ensures SavedWithin(status, blobs, afterTime, results)
  {
    MergedWithin(Carried(status, blobs, afterTime), results, BlobName, QueuedNames(status, blobs, afterTime));
  }

  /** The status carried forward: each skipped checkpoint under its own Name. */
  function Carried(status: ProcessStatus, blobs: seq<Blob>, afterTime: Instant): ProcessStatus
  {
    Merged(map[], Skipped(status, blobs, afterTime), CheckpointName)
  }

  /** Exactly the new and the modified blobs are queued, each as Planned says. */
  lemma QueuedMembers(status: ProcessStatus, blobs: seq<Blob>, afterTime: Instant, x: NsgLogFile)
    ensures x in Queued(status, blobs, afterTime) <==>
      exists i :: 0 <= i < |blobs| && Planned(status, blobs[i], afterTime) == Some(x)
  {
    KeptMembers(blobs, PlanOf(status, afterTime), x);
  }

  /** The blob is listed, after the floor, checkpointed, and not modified since. */
  predicate Unmodified(status: ProcessStatus, blob: Blob, afterTime: Instant)
  {
    Classify(status, Listed(blob), afterTime) == UnmodifiedBlob
  }

  /** Exactly the checkpoints of the unmodified blobs are skipped, unchanged. */
  lemma SkippedMembers(status: ProcessStatus, blobs: seq<Blob>, afterTime: Instant, x: NsgLogFile)
    ensures x in Skipped(status, blobs, afterTime) <==>
      exists i :: 0 <= i < |blobs| && Unmodified(status, blobs[i], afterTime) && blobs[i].name in status
                  && x == status[blobs[i].name]
  {
    var f := SkipOf(status, afterTime);
    KeptMembers(blobs, f, x);
    if x in Skipped(status, blobs, afterTime) {
      var i :| 0 <= i < |blobs| && f(blobs[i]) == Some(x);
      SkipOfSome(status, afterTime, blobs[i], x);
    }
    if exists i :: 0 <= i < |blobs| && Unmodified(status, blobs[i], afterTime) && blobs[i].name in status
                   && x == status[blobs[i].name] {
      var i :| 0 <= i < |blobs| && Unmodified(status, blobs[i], afterTime) && blobs[i].name in status
               && x == status[blobs[i].name];
      SkipOfSome(status, afterTime, blobs[i], x);
    }
  }

  /** A blob is skipped with checkpoint x exactly when it is unmodified and x is its checkpoint. */
  lemma SkipOfSome(status: ProcessStatus, afterTime: Instant, blob: Blob, x: NsgLogFile)
    ensures SkipOf(status, afterTime)(blob) == Some(x) <==>
      Unmodified(status, blob, afterTime) && blob.name in status && x == status[blob.name]
  {
  }

  /**
   * Every checkpoint carried forward is a kept checkpoint of an unmodified
   * blob, unchanged, under its own Name; and the names carried are exactly
   * those of these checkpoints.
   */
  lemma CarriedCheckpoints(status: ProcessStatus, blobs: seq<Blob>, afterTime: Instant, k: string)
    ensures k in Carried(status, blobs, afterTime) ==>
      exists i :: 0 <= i < |blobs| && Unmodified(status, blobs[i], afterTime) && blobs[i].name in status
                  && Carried(status, blobs, afterTime)[k] == status[blobs[i].name] && status[blobs[i].name].name == k
    ensures (exists i :: 0 <= i < |blobs| && Unmodified(status, blobs[i], afterTime) && blobs[i].name in status
                         && status[blobs[i].name].name == k) ==> k in Carried(status, blobs, afterTime)
  {
    var s := Skipped(status, blobs, afterTime);
    MergedKeys(map[], s, CheckpointName);
    if k in Carried(status, blobs, afterTime) {
      var j :| 0 <= j < |s| && CheckpointName(s[j]) == k;
      var last := LastWithKey(s, k, j);
      MergedLast(map[], s, CheckpointName, last);
      assert s[last] in s;
      SkippedMembers(status, blobs, afterTime, s[last]);
    }
    if exists i :: 0 <= i < |blobs| && Unmodified(status, blobs[i], afterTime) && blobs[i].name in status
                   && status[blobs[i].name].name == k {
      var i :| 0 <= i < |blobs| && Unmodified(status, blobs[i], afterTime) && blobs[i].name in status
               && status[blobs[i].name].name == k;
      var c := status[blobs[i].name];
      SkippedMembers(status, blobs, afterTime, c);
      var j :| 0 <= j < |s| && s[j] == c;
      assert CheckpointName(s[j]) == k;
    }
  }

  /** The last index at or after j whose element has key k. */
  lemma LastWithKey(s: seq<NsgLogFile>, k: string, j: nat) returns (last: nat)
    requires j < |s| && CheckpointName(s[j]) == k
    ensures last < |s| && CheckpointName(s[last]) == k
    ensures forall m :: last < m < |s| ==> CheckpointName(s[m]) != CheckpointName(s[last])
    decreases |s| - j
  {
    if exists m :: j < m < |s| && CheckpointName(s[m]) == k {
      var m :| j < m < |s| && CheckpointName(s[m]) == k;
      last := LastWithKey(s, k, m);
    } else {
      last := j;
    }
  }

  /**
   * A queued new blob starts from nothing: no progress fields, so its first
   * read is the whole blob. A queued modified blob keeps its listing's
   * name, etag and modification time and takes its progress from the
   * checkpoint, so it resumes where the checkpoint's last read ended.
   */
  lemma PlannedProgress(status: ProcessStatus, blob: Blob, afterTime: Instant)
    ensures var f := Listed(blob);
      && (Classify(status, f, afterTime) == NewBlob ==>
            (&& Planned(status, blob, afterTime) == Some(f)
             && f.lastProcessedRange == NoRange && f.lastProcessedRecord == ZeroTime && f.lastProcessedTimeStamp == 0
             && GetUnprocessedBlobRange(f) == WholeBlob(blob)))
      && (Classify(status, f, afterTime) == ModifiedBlob ==>
            (var c := status[blob.name]; var p := Planned(status, blob, afterTime).value;
             && p.name == blob.name && p.etag == blob.etag && p.lastModified == blob.lastModified && p.blob == blob
             && Calendar.After(p.lastModified, c.lastModified)
             && p.lastProcessedRecord == c.lastProcessedRecord && p.lastProcessedTimeStamp == c.lastProcessedTimeStamp
             && GetUnprocessedBlobRange(p) == BlobRange(c.lastProcessedRange.end, blob.contentLength)))
      && (Classify(status, f, afterTime) in {BeforeFloor, UnmodifiedBlob} ==> Planned(status, blob, afterTime).None?)
  {
  }

  // ------------------------------------------------------------ ranges

  /**
   * getUnprocessedBlobRange: up to the blob's content length, from where
   * the previous range ended; both branches of the source resume at that
   * end, since the other branch is taken only when it is 0.
   */
  function GetUnprocessedBlobRange(logFile: NsgLogFile): (r: BlobRange)
    ensures r == BlobRange(logFile.lastProcessedRange.end, logFile.blob.contentLength)
  {
    ResumeRange(logFile.lastProcessedRange, logFile.blob.contentLength)
  }

  // ------------------------------------------------------------ the client

  /** AzureClient, as far as the parser's logic uses it: the blob prefix, the status and the destination. */
  class AzureClient {
    var prefix: string
    var processStatus: ProcessStatus
    var dataPath: string
    var destinationType: string
    var concurrency: int

    /** NewAzureClient once the storage client is made: one worker and no status yet. */
    constructor (dataPath: string)
      ensures this.dataPath == dataPath && concurrency == 1
      ensures prefix == "" && processStatus == map[] && destinationType == ""
    {
      this.dataPath := dataPath;
      concurrency := 1;
      prefix := "";
      processStatus := map[];
      destinationType := "";
    }

    function ProcessStatusFileName(): string
      reads this
    {
      StatusFileName(destinationType)
    }

    /** LoadProcessStatus: read what is in the status file; on an error the status is kept. */
    method LoadProcessStatus(read: Option<string>, decode: string -> Option<ProcessStatus>) returns (err: Option<Error>)
      modifies this
      ensures var r := ReadProcessStatus(read, decode);
        && err == r.1
        && processStatus == (if r.1.None? then r.0 else old(processStatus))
      ensures prefix == old(prefix) && dataPath == old(dataPath) && destinationType == old(destinationType)
      ensures concurrency == old(concurrency)
    {
      var r := ReadProcessStatus(read, decode);
      if r.1.Some? {
        return r.1;
      }
      processStatus := r.0;
      return None;
    }

    /**
     * What FileClient.Initialize and, once its dial succeeds,
     * SyslogClient.Initialize do to the Azure client: set the destination
     * type, which names the status file, and load the status. read is the
     * content of the file ProcessStatusFileName() names once the type is
     * set; LoadProcessStatus's error is returned.
     */
    method SelectDestination(kind: string, read: Option<string>, decode: string -> Option<ProcessStatus>) returns (err: Option<Error>)
      modifies this
      ensures destinationType == kind && ProcessStatusFileName() == StatusFileName(kind)
      ensures var r := ReadProcessStatus(read, decode);
        && err == r.1
        && processStatus == (if r.1.None? then r.0 else old(processStatus))
      ensures prefix == old(prefix) && dataPath == old(dataPath) && concurrency == old(concurrency)
    {
      destinationType := kind;
      err := LoadProcessStatus(read, decode);
    }

    /**
     * LoadUnprocessedBlobs: listing is what GetBlobsByPrefix returns (None
     * when the listing fails). The files to process and the checkpoints
     * carried forward are Queued and Carried.
     */
    method LoadUnprocessedBlobs(listing: Option<seq<Blob>>, afterTime: Instant)
      returns (nsgLogFiles: seq<NsgLogFile>, status: ProcessStatus, err: Option<Error>)
      ensures listing.None? ==> nsgLogFiles == [] && status == map[] && err == Some(ListFailed)
      ensures listing.Some? ==> (&& nsgLogFiles == Queued(processStatus, listing.value, afterTime)
                                 && status == Carried(processStatus, listing.value, afterTime)
                                 && err.None?)
    {
      nsgLogFiles, status := [], map[];
      if listing.None? {
        return nsgLogFiles, status, Some(ListFailed);
      }
      var matchingBlobs := listing.value;
      ghost var skipped: seq<NsgLogFile> := [];
      for i := 0 to |matchingBlobs|
        invariant nsgLogFiles == Queued(processStatus, matchingBlobs[..i], afterTime)
        invariant skipped == Skipped(processStatus, matchingBlobs[..i], afterTime)
        invariant status == Merged(map[], skipped, CheckpointName)
      {
        KeptStep(matchingBlobs, PlanOf(processStatus, afterTime), i);
        KeptStep(matchingBlobs, SkipOf(processStatus, afterTime), i);
        var queued, lastProcessedFile := PlanBlob(processStatus, matchingBlobs[i], afterTime);
        if queued.Some? {
          nsgLogFiles := nsgLogFiles + [queued.value];
        }
        if lastProcessedFile.Some? {
          status := status[lastProcessedFile.value.name := lastProcessedFile.value];
          MergedSnoc(map[], skipped, CheckpointName, lastProcessedFile.value);
          skipped := skipped + [lastProcessedFile.value];
        }
      }
      assert matchingBlobs[..|matchingBlobs|] == matchingBlobs;
      return nsgLogFiles, status, None;
    }

    /**
     * ProcessBlobsAfter, run in sequence: results are the files the sinks
     * sent, in the order received, and taskErrors the tasks' errors. The
     * new status is the carried-forward status with each result stored
     * under its blob's name, saved whatever the tasks' errors; when the
     * save succeeds the status is read back from what was written. A sink
     * sends back the queued file it was handed, so when every result names
     * a queued blob the saved status gains no other key and every carried
     * checkpoint of a blob not queued is kept as it was.
     */
    method ProcessBlobsAfter(afterTime: Instant, listing: Option<seq<Blob>>, results: seq<NsgLogFile>,
                             taskErrors: seq<Option<Error>>, marshal: ProcessStatus -> Option<string>, writeOk: bool,
                             decode: string -> Option<ProcessStatus>)
      returns (err: Option<Error>)
      modifies this
      ensures listing.None? ==> err == Some(ListFailed) && processStatus == old(processStatus)
      ensures listing.Some? ==>
        (var merged := Merged(Carried(old(processStatus), listing.value, afterTime), results, BlobName);
         var saved := SaveProcessStatus(merged, marshal, writeOk);
         && err == saved.0
         && (saved.0.Some? ==> processStatus == merged)
         && (saved.0.None? ==> var reread := ReadProcessStatus(saved.1, decode);
               processStatus == if reread.1.None? then reread.0 else merged))
      ensures listing.Some? && SentQueued(old(processStatus), listing.value, afterTime, results) ==>
        SavedWithin(old(processStatus), listing.value, afterTime, results)
      ensures prefix == old(prefix) && dataPath == old(dataPath) && destinationType == old(destinationType)
      ensures concurrency == old(concurrency)
    {
      if listing.Some? && SentQueued(processStatus, listing.value, afterTime, results) {
        SentQueuedSavedWithin(processStatus, listing.value, afterTime, results);
      }
      var logFiles, processedFiles, e := LoadUnprocessedBlobs(listing, afterTime);
      if e.Some? {
        return e;
      }
      processedFiles := Drain(processedFiles, results);
      var numErrors := CountTaskErrors(taskErrors);
      processStatus := processedFiles;
      var saved := SaveProcessStatus(processStatus, marshal, writeOk);
      if saved.0.Some? {
        return saved.0;
      }
      var _ := LoadProcessStatus(saved.1, decode);
      return None;
    }
  }

  /**
   * The body of LoadUnprocessedBlobs' loop for one blob: the log file to
   * queue, if any, and the checkpoint to carry forward, if any.
   */
  method PlanBlob(processStatus: ProcessStatus, blob: Blob, afterTime: Instant)
    returns (queued: Option<NsgLogFile>, carried: Option<NsgLogFile>)
    ensures queued == PlanOf(processStatus, afterTime)(blob)
    ensures carried == SkipOf(processStatus, afterTime)(blob)
  {
    queued, carried := None, None;
    var logFile := NewNsgLogFile(blob).0;
    if Calendar.After(logFile.logTime, afterTime) {
      if logFile.blob.name in processStatus {
        var lastProcessedFile := processStatus[logFile.blob.name];
        if Calendar.After(logFile.lastModified, lastProcessedFile.lastModified) {
          logFile := logFile.(lastProcessedTimeStamp := lastProcessedFile.lastProcessedTimeStamp);
          logFile := logFile.(lastProcessedRecord := lastProcessedFile.lastProcessedRecord);
          logFile := logFile.(lastProcessedRange := lastProcessedFile.lastProcessedRange);
          queued := Some(logFile);
        } else {
          carried := Some(lastProcessedFile);
        }
      } else {
        queued := Some(logFile);
      }
    }
  }

  /** The goroutine that drains resultsChan: each processed file stored under its blob's name, in order. */
  method Drain(processedFiles: ProcessStatus, results: seq<NsgLogFile>) returns (merged: ProcessStatus)
    ensures merged == Merged(processedFiles, results, BlobName)
  {
    merged := processedFiles;
    for i := 0 to |results|
      invariant merged == Merged(processedFiles, results[..i], BlobName)
    {
      var processedFile := results[i];
      MergedStep(processedFiles, results, BlobName, i);
      merged := merged[processedFile.blob.name := processedFile];
    }
    assert results[..|results|] == results;
  }

  /** The number of tasks that failed. */
  function ErrorCount(taskErrors: seq<Option<Error>>): nat
    decreases |taskErrors|
  {
    if |taskErrors| == 0 then 0
    else ErrorCount(taskErrors[..|taskErrors| - 1]) + (if taskErrors[|taskErrors| - 1].Some? then 1 else 0)
  }

  lemma {:induction false} ErrorCountPrefix(taskErrors: seq<Option<Error>>, i: nat)
    requires i <= |taskErrors|
    ensures ErrorCount(taskErrors[..i]) <= ErrorCount(taskErrors)
    decreases |taskErrors| - i
  {
    if i < |taskErrors| {
      ErrorCountPrefix(taskErrors, i + 1);
      assert taskErrors[..i + 1][..i] == taskErrors[..i];
    } else {
      assert taskErrors[..i] == taskErrors;
    }
  }

  /** The error count of ProcessBlobsAfter: it stops counting at 10. */
  method CountTaskErrors(taskErrors: seq<Option<Error>>) returns (numErrors: nat)
    ensures numErrors == if ErrorCount(taskErrors) < 10 then ErrorCount(taskErrors) else 10
  {
    numErrors := 0;
    var i := 0;
    while i < |taskErrors|
      invariant 0 <= i <= |taskErrors|
      invariant numErrors == ErrorCount(taskErrors[..i]) < 10
    {
      assert taskErrors[..i + 1][..i] == taskErrors[..i];
      if taskErrors[i].Some? {
        numErrors := numErrors + 1;
      }
      i := i + 1;
      if numErrors >= 10 {
        ErrorCountPrefix(taskErrors, i);
        return;
      }
    }
    assert taskErrors[..i] == taskErrors;
  }

  // ------------------------------------------------------------ the sinks

  /** What a sink loads for a log file: the spliced and decoded range still to read. */
  function Loaded(f: NsgLogFile, readRange: BlobRange -> string, decode: string -> Option<NsgLog>): Result<NsgLog>
  {
    DecodeSpliced(readRange(GetUnprocessedBlobRange(f)), decode)
  }

  /**
   * The tuples of the records strictly after the last record processed, as
   * the entries GetFlowLogsAfter returns read them: with the rule and
   * resource id the shared range variables last held.
   */
  function Pending(log: NsgLog, f: NsgLogFile): seq<TupleRef>
  {
    AsWrittenTuples(log.records, f.lastProcessedRecord)
  }

  /** The tuples of the records strictly after the last record processed, each with its own rule and resource id. */
  function PendingCorrected(log: NsgLog, f: NsgLogFile): seq<TupleRef>
  {
    TuplesAfter(log.records, f.lastProcessedRecord)
  }

  /** The flat form of each tuple, in order. */
  function FlowLogsOf(refs: seq<TupleRef>): (logs: seq<NsgFlowLog>)
    ensures |logs| == |refs|
  {
    seq(|refs|, i requires 0 <= i < |refs| => FlowLog(refs[i]))
  }

  lemma ConvertedFlowLogs(logs: seq<NsgFlowLog>, refs: seq<TupleRef>)
    requires Converted(logs, refs, FlowLog)
    ensures logs == FlowLogsOf(refs)
  {
  }

  /**
   * The checkpoint a sink records once the events are out: the time of the
   * run, the number of decoded records, the time of the last of them, the
   * range read and the time stamp of the last event.
   */
  function Checkpoint(f: NsgLogFile, log: NsgLog, blobRange: BlobRange, now: Instant, endTimeStamp: int): NsgLogFile
    requires |log.records| > 0
  {
    f.(nsgLog := Some(log), lastProcessed := now, lastRecordCount := |log.records|,
       lastProcessedRecord := log.records[|log.records| - 1].time, lastProcessedRange := blobRange,
       lastProcessedTimeStamp := endTimeStamp)
  }

  /**
   * After a checkpoint the next run reads on from the end of the range just
   * read, and the blob's identity is kept.
   */
  lemma CheckpointResumes(f: NsgLogFile, log: NsgLog, blobRange: BlobRange, now: Instant, endTimeStamp: int)
    requires |log.records| > 0
    ensures var c := Checkpoint(f, log, blobRange, now, endTimeStamp);
      && GetUnprocessedBlobRange(c) == BlobRange(blobRange.end, f.blob.contentLength)
      && c.name == f.name && c.blob == f.blob && c.etag == f.etag && c.lastModified == f.lastModified
      && c.logTime == f.logTime && c.nsgName == f.nsgName
  {
  }

  /** Nothing is pending when every record is at or before t or has no tuples. */
  lemma {:induction false} NoPendingTuples(records: seq<Record>, t: Instant)
    requires forall i :: 0 <= i < |records| ==> !Calendar.After(records[i].time, t) || RecordTuples(records[i]) == []
    ensures TuplesAfter(records, t) == []
    decreases |records|
  {
    if |records| > 0 {
      var n := |records| - 1;
      forall i | 0 <= i < n
        ensures !Calendar.After(records[..n][i].time, t) || RecordTuples(records[..n][i]) == []
      {
        assert records[..n][i] == records[i];
      }
      NoPendingTuples(records[..n], t);
    }
  }

  /**
   * A checkpoint of records in time order leaves nothing pending: run
   * again on the same records, a sink finds no new tuple.
   */
  lemma NothingPendingAfterCheckpoint(f: NsgLogFile, log: NsgLog, blobRange: BlobRange, now: Instant, endTimeStamp: int)
    requires |log.records| > 0
    requires forall i, j :: 0 <= i <= j < |log.records| ==> log.records[i].time <= log.records[j].time
    ensures Pending(log, Checkpoint(f, log, blobRange, now, endTimeStamp)) == []
    ensures PendingCorrected(log, Checkpoint(f, log, blobRange, now, endTimeStamp)) == []
  {
    var last := |log.records| - 1;
    forall i | 0 <= i < |log.records| ensures !Calendar.After(log.records[i].time, log.records[last].time) {
    }
    NoPendingTuples(log.records, log.records[last].time);
    AsWrittenTuplesShape(log.records, log.records[last].time);
  }

  /**
   * The steps both sinks begin with: the range still to read, its load, and
   * the flow logs of the records after the last one processed.
   */
  method LoadAndFilter(logFile: LogFileRef, readRange: BlobRange -> string, decode: string -> Option<NsgLog>)
    returns (blobRange: BlobRange, filteredLogs: seq<NsgFlowLog>, err: Option<Error>)
    modifies logFile
    ensures blobRange == GetUnprocessedBlobRange(old(logFile.file))
    ensures Loaded(old(logFile.file), readRange, decode).Err? ==>
      err == Some(Loaded(old(logFile.file), readRange, decode).error) && logFile.file == old(logFile.file)
    ensures Loaded(old(logFile.file), readRange, decode).Ok? ==>
      (var log := Loaded(old(logFile.file), readRange, decode).value;
       && logFile.file == old(logFile.file).(nsgLog := Some(log))
       && Outcome(filteredLogs, err, Pending(log, old(logFile.file)), FlowLog))
  {
    blobRange := GetUnprocessedBlobRange(logFile.file);
    filteredLogs := [];
    err := logFile.LoadBlobRange(readRange(blobRange), decode);
    if err.Some? {
      return;
    }
    filteredLogs, err := GetFlowLogsAfter(logFile.file.nsgLog.value, logFile.file.lastProcessedRecord);
  }

  /** LoadAndFilter with each flow log keeping its own rule and resource id. */
  method LoadAndFilterCorrected(logFile: LogFileRef, readRange: BlobRange -> string, decode: string -> Option<NsgLog>)
    returns (blobRange: BlobRange, filteredLogs: seq<NsgFlowLog>, err: Option<Error>)
    modifies logFile
    ensures blobRange == GetUnprocessedBlobRange(old(logFile.file))
    ensures Loaded(old(logFile.file), readRange, decode).Err? ==>
      err == Some(Loaded(old(logFile.file), readRange, decode).error) && logFile.file == old(logFile.file)
    ensures Loaded(old(logFile.file), readRange, decode).Ok? ==>
      (var log := Loaded(old(logFile.file), readRange, decode).value;
       && logFile.file == old(logFile.file).(nsgLog := Some(log))
       && Outcome(filteredLogs, err, PendingCorrected(log, old(logFile.file)), FlowLog))
  {
    blobRange := GetUnprocessedBlobRange(logFile.file);
    filteredLogs := [];
    err := logFile.LoadBlobRange(readRange(blobRange), decode);
    if err.Some? {
      return;
    }
    filteredLogs, err := GetFlowLogsAfterCorrected(logFile.file.nsgLog.value, logFile.file.lastProcessedRecord);
  }

  /**
   * SyslogClient.ProcessNsgLogFile as written: sent are the events written
   * to syslog (their errors are ignored), result what goes on resultsChan.
   * With no error and no tuple pending it indexes filteredLogs[-1] and
   * panics; otherwise the checkpoint is recorded and sent.
   */
  method SyslogProcessNsgLogFile(logFile: LogFileRef, readRange: BlobRange -> string, decode: string -> Option<NsgLog>, now: Instant)
    returns (err: Option<Error>, sent: seq<NsgFlowLog>, result: Option<NsgLogFile>, panics: bool)
    modifies logFile
    ensures var f := old(logFile.file); var d := Loaded(f, readRange, decode);
      && (d.Err? ==> err == Some(d.error) && !panics && sent == [] && result.None? && logFile.file == f)
      && (d.Ok? ==> var pending := Pending(d.value, f);
           && (FirstBad(pending) < |pending| ==>
                 (&& err == Some(TupleTokens(pending[FirstBad(pending)].tuple)) && !panics && sent == []
                  && result.None? && logFile.file == f.(nsgLog := Some(d.value))))
           && (FirstBad(pending) == |pending| && |pending| == 0 ==> panics && sent == [] && result.None?)
           && (FirstBad(pending) == |pending| && |pending| > 0 ==>
                 (&& err.None? && !panics && sent == FlowLogsOf(pending) && |d.value.records| > 0
                  && logFile.file == Checkpoint(f, d.value, GetUnprocessedBlobRange(f), now, FlowLog(pending[|pending| - 1]).timestamp)
                  && result == Some(logFile.file))))
  {
    ghost var f := logFile.file;
    var blobRange, filteredLogs, e := LoadAndFilter(logFile, readRange, decode);
    err, sent, result, panics := e, [], None, false;
    if e.Some? {
      return;
    }
    ghost var log := logFile.file.nsgLog.value;
    assert log == Loaded(f, readRange, decode).value && logFile.file == f.(nsgLog := Some(log));
    ghost var pending := Pending(log, f);
    ConvertedFlowLogs(filteredLogs, pending);
    var logCount := |filteredLogs|;
    if logCount == 0 {
      panics := true;
      return;
    }
    var endTimeStamp := filteredLogs[logCount - 1].timestamp;
    sent := filteredLogs;
    var records := logFile.file.nsgLog.value.records;
    logFile.file := logFile.file.(lastProcessedTimeStamp := endTimeStamp, lastProcessed := now, lastRecordCount := |records|,
                                  lastProcessedRecord := records[|records| - 1].time, lastProcessedRange := blobRange);
    result := Some(logFile.file);
  }

  /** SyslogClient.ProcessNsgLogFile returning nil, with nothing sent, when no tuple is pending. */
  method SyslogProcessNsgLogFileCorrected(logFile: LogFileRef, readRange: BlobRange -> string, decode: string -> Option<NsgLog>, now: Instant)
    returns (err: Option<Error>, sent: seq<NsgFlowLog>, result: Option<NsgLogFile>)
    modifies logFile
    ensures var f := old(logFile.file); var d := Loaded(f, readRange, decode);
      && (d.Err? ==> err == Some(d.error) && sent == [] && result.None? && logFile.file == f)
      && (d.Ok? ==> var pending := PendingCorrected(d.value, f);
           && (FirstBad(pending) < |pending| ==>
                 (&& err == Some(TupleTokens(pending[FirstBad(pending)].tuple)) && sent == []
                  && result.None? && logFile.file == f.(nsgLog := Some(d.value))))
           && (FirstBad(pending) == |pending| && |pending| == 0 ==>
                 err.None? && sent == [] && result.None? && logFile.file == f.(nsgLog := Some(d.value)))
           && (FirstBad(pending) == |pending| && |pending| > 0 ==>
                 (&& err.None? && sent == FlowLogsOf(pending) && |d.value.records| > 0
                  && logFile.file == Checkpoint(f, d.value, GetUnprocessedBlobRange(f), now, FlowLog(pending[|pending| - 1]).timestamp)
                  && result == Some(logFile.file))))
  {
    ghost var f := logFile.file;
    var blobRange, filteredLogs, e := LoadAndFilterCorrected(logFile, readRange, decode);
    err, sent, result := e, [], None;
    if e.Some? {
      return;
    }
    ghost var pending := PendingCorrected(logFile.file.nsgLog.value, f);
    ConvertedFlowLogs(filteredLogs, pending);
    var logCount := |filteredLogs|;
    if logCount == 0 {
      return;
    }
    var endTimeStamp := filteredLogs[logCount - 1].timestamp;
    sent := filteredLogs;
    var records := logFile.file.nsgLog.value.records;
    logFile.file := logFile.file.(lastProcessedTimeStamp := endTimeStamp, lastProcessed := now, lastRecordCount := |records|,
                                  lastProcessedRecord := records[|records| - 1].time, lastProcessedRange := blobRange);
    result := Some(logFile.file);
  }

  /**
   * The output file of the file sink: "nsgLog-", the six submatches of the
   * blob name, and the first and last event time stamps; an error when the
   * name does not match.
   */
  function OutputFileName(blobName: string, startTimeStamp: int, endTimeStamp: int): (r: Result<string>)
    ensures r.Err? <==> MatchKey(blobName).None?
    ensures r.Err? ==> r.error == KeyMismatch(blobName)
  {
    match MatchKey(blobName)
    case None => Err(KeyMismatch(blobName))
    case Some(m) =>
      Ok("nsgLog-" + m.name + "-" + m.year + m.month + m.day + m.hour + m.minute
         + "-" + Itoa(startTimeStamp) + "-" + Itoa(endTimeStamp) + ".json")
  }

  /** For a blob named after a record, the output file shows the resource's last segment, the record's hour and the two time stamps. */
  lemma OutputFileNameOfSourceBlob(resourceId: string, t: Instant, startTimeStamp: int, endTimeStamp: int)
    requires '/' in resourceId && 0 <= ToCivil(t).year <= 9999
    ensures var dt := ToCivil(t);
      OutputFileName(SourceFileName(resourceId, t), startTimeStamp, endTimeStamp)
        == Ok("nsgLog-" + LastSegment(resourceId) + "-" + Year4(dt.year) + Two(dt.month) + Two(dt.day) + Two(dt.hour)
              + "00" + "-" + Itoa(startTimeStamp) + "-" + Itoa(endTimeStamp) + ".json")
  {
    SourceFileNameMatch(resourceId, t);
  }

  /**
   * The part of FileClient.ProcessNsgLogFile after the flow logs are known:
   * the output name, the JSON, the write (its error ignored) and the
   * checkpoint.
   */
  method WriteOutput(logFile: LogFileRef, blobRange: BlobRange, filteredLogs: seq<NsgFlowLog>,
                     marshal: seq<NsgFlowLog> -> Option<string>, now: Instant)
    returns (err: Option<Error>, written: Option<(string, string)>, result: Option<NsgLogFile>)
    requires |filteredLogs| > 0 && logFile.file.nsgLog.Some? && |logFile.file.nsgLog.value.records| > 0
    modifies logFile
    ensures var f := old(logFile.file); var endTimeStamp := filteredLogs[|filteredLogs| - 1].timestamp;
      var name := OutputFileName(f.blob.name, filteredLogs[0].timestamp, endTimeStamp);
      && (name.Err? ==> err == Some(name.error) && written.None? && result.None? && logFile.file == f)
      && (name.Ok? && marshal(filteredLogs).None? ==> err == Some(MarshalFailed) && written.None? && result.None? && logFile.file == f)
      && (name.Ok? && marshal(filteredLogs).Some? ==>
            (&& err.None? && written == Some((name.value, marshal(filteredLogs).value))
             && logFile.file == Checkpoint(f, f.nsgLog.value, blobRange, now, endTimeStamp)
             && result == Some(logFile.file)))
  {
    var startTimeStamp := filteredLogs[0].timestamp;
    var endTimeStamp := filteredLogs[|filteredLogs| - 1].timestamp;
    var fileName := OutputFileName(logFile.file.blob.name, startTimeStamp, endTimeStamp);
    if fileName.Err? {
      return Some(fileName.error), None, None;
    }
    var outJson := marshal(filteredLogs);
    if outJson.None? {
      return Some(MarshalFailed), None, None;
    }
    written := Some((fileName.value, outJson.value));
    var records := logFile.file.nsgLog.value.records;
    logFile.file := logFile.file.(lastProcessed := now, lastRecordCount := |records|, lastProcessedRecord := records[|records| - 1].time,
                                  lastProcessedTimeStamp := endTimeStamp, lastProcessedRange := blobRange);
    err := None;
    result := Some(logFile.file);
  }

  /**
   * FileClient.ProcessNsgLogFile as written: marshal is json.Marshal of the
   * flow logs (None when it fails); written is the file name and content
   * written, whose write error is ignored. It indexes filteredLogs[0] before
   * it looks at the count, so with no error and no tuple pending it panics
   * and its own zero check is never reached.
   */
  method FileProcessNsgLogFile(logFile: LogFileRef, readRange: BlobRange -> string, decode: string -> Option<NsgLog>,
                               marshal: seq<NsgFlowLog> -> Option<string>, now: Instant)
    returns (err: Option<Error>, written: Option<(string, string)>, result: Option<NsgLogFile>, panics: bool)
    modifies logFile
    ensures var f := old(logFile.file); var d := Loaded(f, readRange, decode);
      && (d.Err? ==> err == Some(d.error) && !panics && written.None? && result.None? && logFile.file == f)
      && (d.Ok? ==> var pending := Pending(d.value, f);
           && (FirstBad(pending) < |pending| ==>
                 (&& err == Some(TupleTokens(pending[FirstBad(pending)].tuple)) && !panics && written.None?
                  && result.None? && logFile.file == f.(nsgLog := Some(d.value))))
           && (FirstBad(pending) == |pending| && |pending| == 0 ==> panics && written.None? && result.None?)
           && (FirstBad(pending) == |pending| && |pending| > 0 ==>
                 (var endTimeStamp := FlowLog(pending[|pending| - 1]).timestamp;
                  var name := OutputFileName(f.blob.name, FlowLog(pending[0]).timestamp, endTimeStamp);
                  && !panics
                  && (name.Err? ==> err == Some(name.error) && written.None? && result.None? && logFile.file == f.(nsgLog := Some(d.value)))
                  && (name.Ok? && marshal(FlowLogsOf(pending)).None? ==>
                        err == Some(MarshalFailed) && written.None? && result.None? && logFile.file == f.(nsgLog := Some(d.value)))
                  && (name.Ok? && marshal(FlowLogsOf(pending)).Some? ==>
                        (&& err.None? && written == Some((name.value, marshal(FlowLogsOf(pending)).value)) && |d.value.records| > 0
                         && logFile.file == Checkpoint(f, d.value, GetUnprocessedBlobRange(f), now, endTimeStamp)
                         && result == Some(logFile.file))))))
  {
    ghost var f := logFile.file;
    var blobRange, filteredLogs, e := LoadAndFilter(logFile, readRange, decode);
    err, written, result, panics := e, None, None, false;
    if e.Some? {
      return;
    }
    ghost var pending := Pending(logFile.file.nsgLog.value, f);
    ConvertedFlowLogs(filteredLogs, pending);
    var logCount := |filteredLogs|;
    if logCount == 0 {
      panics := true;
      return;
    }
    err, written, result := WriteOutput(logFile, blobRange, filteredLogs, marshal, now);
  }

  /** FileClient.ProcessNsgLogFile with the zero check ahead of the indexing. */
  method FileProcessNsgLogFileCorrected(logFile: LogFileRef, readRange: BlobRange -> string, decode: string -> Option<NsgLog>,
                                        marshal: seq<NsgFlowLog> -> Option<string>, now: Instant)
    returns (err: Option<Error>, written: Option<(string, string)>, result: Option<NsgLogFile>)
    modifies logFile
    ensures var f := old(logFile.file); var d := Loaded(f, readRange, decode);
      && (d.Err? ==> err == Some(d.error) && written.None? && result.None? && logFile.file == f)
      && (d.Ok? ==> var pending := PendingCorrected(d.value, f);
           && (FirstBad(pending) < |pending| ==>
                 (&& err == Some(TupleTokens(pending[FirstBad(pending)].tuple)) && written.None?
                  && result.None? && logFile.file == f.(nsgLog := Some(d.value))))
           && (FirstBad(pending) == |pending| && |pending| == 0 ==>
                 err.None? && written.None? && result.None? && logFile.file == f.(nsgLog := Some(d.value)))
           && (FirstBad(pending) == |pending| && |pending| > 0 ==>
                 (var endTimeStamp := FlowLog(pending[|pending| - 1]).timestamp;
                  var name := OutputFileName(f.blob.name, FlowLog(pending[0]).timestamp, endTimeStamp);
                  && (name.Err? ==> err == Some(name.error) && written.None? && result.None? && logFile.file == f.(nsgLog := Some(d.value)))
                  && (name.Ok? && marshal(FlowLogsOf(pending)).None? ==>
                        err == Some(MarshalFailed) && written.None? && result.None? && logFile.file == f.(nsgLog := Some(d.value)))
                  && (name.Ok? && marshal(FlowLogsOf(pending)).Some? ==>
                        (&& err.None? && written == Some((name.value, marshal(FlowLogsOf(pending)).value)) && |d.value.records| > 0
                         && logFile.file == Checkpoint(f, d.value, GetUnprocessedBlobRange(f), now, endTimeStamp)
                         && result == Some(logFile.file))))))
  {
    ghost var f := logFile.file;
    var blobRange, filteredLogs, e := LoadAndFilterCorrected(logFile, readRange, decode);
    err, written, result := e, None, None;
    if e.Some? {
      return;
    }
    ghost var pending := PendingCorrected(logFile.file.nsgLog.value, f);
    ConvertedFlowLogs(filteredLogs, pending);
    var logCount := |filteredLogs|;
    if logCount == 0 {
      return;
    }
    err, written, result := WriteOutput(logFile, blobRange, filteredLogs, marshal, now);
  }
}
