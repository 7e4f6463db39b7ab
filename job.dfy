/**
 * parser/job.go: a run of the parser over NSG event log files. A job picks
 * the blobs to process from a listing and its saved status, makes one task
 * per log file, stores each processed file under its name, and at the end
 * saves and reloads its status.
 */
module Job {
  import opened Base
  import opened Calendar
  import opened Storage
  import opened StatusMerge
  import opened EventLogFile
  import Client
  import FileClient

  /** JobOptions. */
  datatype JobOptions = JobOptions(startRecordTime: Instant, endRecordTime: Instant, dataPath: string, concurrency: int)

  /** A pool task: it runs the parser client's ProcessNsgLogFile on its log file. */
  datatype Task = ProcessTask(logFile: AzureNsgLogFile)

  const JobName: string := "nsg-parser"
  const StatusRunning: string := "RUNNING"
  const StatusComplete: string := "COMPLETE"

  // ------------------------------------------------------------ planning

  /** Whether NewAzureNsgLogFile accepts a blob's name. */
  function Parses(): Blob -> bool
  {
    blob => NewAzureNsgLogFile(blob).1.None?
  }

  /** The position of the first blob whose name does not parse, or the listing's length. */
  function FirstFailure(blobs: seq<Blob>): (k: nat)
    ensures k <= |blobs|
    ensures forall i :: 0 <= i < k ==> Parses()(blobs[i])
    ensures k < |blobs| ==> !Parses()(blobs[k])
  {
    FirstFailing(blobs, Parses())
  }

  /**
   * What is queued for a blob: nothing when its hour is not after the
   * start time; its log file when no checkpoint is kept under its name;
   * the log file with the checkpoint's three progress fields when it
   * changed strictly after the checkpoint; nothing otherwise.
   */
  function Planned(status: ProcessStatus, blob: Blob, startTime: Instant): Option<AzureNsgLogFile>
  {
    var logFile := NewAzureNsgLogFile(blob).0;
    if !Calendar.After(logFile.logTime, startTime) then None
    else if logFile.blob.name !in status then Some(logFile)
    else
      var lastProcessedFile := status[logFile.blob.name];
      if Calendar.After(logFile.lastModified, lastProcessedFile.lastModified) then
        Some(logFile.(lastProcessedTimeStamp := lastProcessedFile.lastProcessedTimeStamp,
                      lastProcessedRecord := lastProcessedFile.lastProcessedRecord,
                      lastProcessedRange := lastProcessedFile.lastProcessedRange))
      else None
  }

  /** Planned, as the function from a listed blob that Queued applies. */
  function PlanOf(status: ProcessStatus, startTime: Instant): Blob -> Option<AzureNsgLogFile>
  {
    blob => Planned(status, blob, startTime)
  }

  /** The log files queued from a listing: those planned for the blobs before the first that fails, in order. */
  function Queued(status: ProcessStatus, blobs: seq<Blob>, startTime: Instant): seq<AzureNsgLogFile>
  {
    Kept(blobs[..FirstFailure(blobs)], PlanOf(status, startTime))
  }

  /** A log file is queued exactly when it is planned for a blob listed before the first that fails. */
  lemma QueuedMembers(status: ProcessStatus, blobs: seq<Blob>, startTime: Instant, f: AzureNsgLogFile)
    ensures f in Queued(status, blobs, startTime) <==>
      exists i :: 0 <= i < FirstFailure(blobs) && Planned(status, blobs[i], startTime) == Some(f)
  {
    KeptPrefixMembers(blobs, PlanOf(status, startTime), FirstFailure(blobs), f);
  }

  /** With no failing blob, everything planned is queued; a failing blob stops the queue before it. */
  lemma QueuedStopsAtFailure(status: ProcessStatus, blobs: seq<Blob>, startTime: Instant, i: nat)
    requires i < |blobs| && NewAzureNsgLogFile(blobs[i]).1.Some?
    ensures |Queued(status, blobs, startTime)| <= i
  {
    KeptLength(blobs[..FirstFailure(blobs)], PlanOf(status, startTime));
  }

  /**
   * A queued new blob starts from nothing, so its first read is the whole
   * blob; a queued modified blob keeps its listing's identity and takes its
   * progress from the checkpoint, so it resumes where that read ended; a
   * blob not after the start time, or not changed since its checkpoint, is
   * not queued.
   */
  lemma PlannedProgress(status: ProcessStatus, blob: Blob, startTime: Instant)
    ensures var f := NewAzureNsgLogFile(blob).0;
      && (!Calendar.After(f.logTime, startTime) ==> Planned(status, blob, startTime).None?)
      && (Calendar.After(f.logTime, startTime) && blob.name !in status ==>
            (&& Planned(status, blob, startTime) == Some(f)
             && f.lastProcessedRange == NoRange && f.lastProcessedRecord == ZeroTime && f.lastProcessedTimeStamp == 0
             && FileClient.UnprocessedRange(f) == WholeBlob(blob)))
      && (Calendar.After(f.logTime, startTime) && blob.name in status ==>
            (var c := status[blob.name];
             && (!Calendar.After(blob.lastModified, c.lastModified) ==> Planned(status, blob, startTime).None?)
             && (Calendar.After(blob.lastModified, c.lastModified) ==>
                   (var p := Planned(status, blob, startTime).value;
                    && p.name == blob.name && p.etag == blob.etag && p.lastModified == blob.lastModified && p.blob == blob
                    && p.lastProcessedRecord == c.lastProcessedRecord && p.lastProcessedTimeStamp == c.lastProcessedTimeStamp
                    && FileClient.UnprocessedRange(p) == BlobRange(c.lastProcessedRange.end, blob.contentLength)))))
  {
  }

  // ------------------------------------------------------------ tasks and results

  /** One task per log file, in order. */
  function TasksOf(logFiles: seq<AzureNsgLogFile>): (tasks: seq<Task>)
    ensures |tasks| == |logFiles|
    ensures forall i :: 0 <= i < |logFiles| ==> tasks[i].logFile == logFiles[i]
  {
    seq(|logFiles|, i requires 0 <= i < |logFiles| => ProcessTask(logFiles[i]))
  }

  /** The names of the log files the tasks were handed. */
  function TaskNames(tasks: seq<Task>): set<string>
  {
    set i | 0 <= i < |tasks| :: FileName(tasks[i].logFile)
  }

  /** The key a job stores a processed file under: its own name. */
  function FileName(f: AzureNsgLogFile): string
  {
    f.name
  }

  /**
   * The status after Complete: what LoadProcessStatus finds once
   * SaveProcessStatus has run. stored is what the status file held
   * before; it is what is read back when the save fails. A read that fails
   * gives the empty status, a decode that fails keeps the status.
   */
  function Reloaded(status: ProcessStatus, marshal: ProcessStatus -> Option<string>, writeOk: bool,
                    decode: string -> Option<ProcessStatus>, stored: Option<string>): ProcessStatus
  {
    var saved := Client.SaveProcessStatus(status, marshal, writeOk);
    var read := if saved.0.None? then saved.1 else stored;
    var r := ReadProcessStatus(read, decode);
    if r.1.None? then r.0 else status
  }

  /** A status whose JSON decodes back to itself survives Complete when the write succeeds. */
  lemma ReloadedRoundTrip(status: ProcessStatus, marshal: ProcessStatus -> Option<string>,
                          decode: string -> Option<ProcessStatus>, stored: Option<string>)
    requires marshal(status).Some? && decode(marshal(status).value) == Some(status)
    ensures Reloaded(status, marshal, true, decode, stored) == status
  {
  }

  /**
   * When the save fails the job reloads the old file instead: with no file
   * yet, the status it kept in memory is replaced by the empty one.
   */
  lemma ReloadedAfterFailedSave(status: ProcessStatus, marshal: ProcessStatus -> Option<string>, writeOk: bool,
                                decode: string -> Option<ProcessStatus>, stored: Option<string>)
    requires marshal(status).None? || !writeOk
    ensures stored.None? ==> Reloaded(status, marshal, writeOk, decode, stored) == map[]
    ensures stored.Some? && decode(stored.value).Some? ==> Reloaded(status, marshal, writeOk, decode, stored) == decode(stored.value).value
    ensures stored.Some? && decode(stored.value).None? ==> Reloaded(status, marshal, writeOk, decode, stored) == status
  {
  }

  // ------------------------------------------------------------ the job

  /** Job, without its clients, channels, pool and mutex. */
  class Job {
    var name: string
    var options: JobOptions
    var processStatus: ProcessStatus
    var logFiles: seq<AzureNsgLogFile>
    var tasks: seq<Task>
    var startTime: Instant
    var endTime: Instant
    var status: string

    /** NewJob: the fixed name, the options and status given, nothing loaded; it never fails. */
    constructor (options: JobOptions, processStatus: ProcessStatus)
      ensures name == JobName && this.options == options && this.processStatus == processStatus
      ensures logFiles == [] && tasks == [] && startTime == ZeroTime && endTime == ZeroTime && status == ""
    {
      name := JobName;
      this.options := options;
      this.processStatus := processStatus;
      logFiles := [];
      tasks := [];
      startTime := ZeroTime;
      endTime := ZeroTime;
      status := "";
    }

    /** ProcessStatusFileName: the status file named after the job. */
    function ProcessStatusFileName(): (r: string)
      reads this
      ensures r == Client.StatusFileName(name)
    {
      "nsg-parser-status-" + name + ".json"
    }

    /**
     * LoadUnprocessedLogFiles: listing is what GetBlobsByPrefix returns
     * (None when the listing fails). The files queued before the first blob
     * whose name does not parse are appended, and that blob's error is
     * returned; the status is not touched.
     */
    method LoadUnprocessedLogFiles(listing: Option<seq<Blob>>) returns (err: Option<Error>)
      modifies this
      ensures listing.None? ==> err == Some(ListFailed) && logFiles == old(logFiles)
      ensures listing.Some? ==>
        (var blobs := listing.value; var k := FirstFailure(blobs);
         && logFiles == old(logFiles) + Queued(processStatus, blobs, options.startRecordTime)
         && (k < |blobs| ==> err == NewAzureNsgLogFile(blobs[k]).1)
         && (k == |blobs| ==> err.None?))
      ensures processStatus == old(processStatus) && options == old(options) && name == old(name) && tasks == old(tasks)
      ensures startTime == old(startTime) && endTime == old(endTime) && status == old(status)
    {
      if listing.None? {
        return Some(ListFailed);
      }
      var queued;
      queued, err := PlanListing(processStatus, listing.value, options.startRecordTime);
      logFiles := logFiles + queued;
    }

    /** LoadTasks: one more task for each loaded log file, in order. */
    method LoadTasks()
      modifies this
      ensures tasks == old(tasks) + TasksOf(logFiles)
      ensures processStatus == old(processStatus) && options == old(options) && name == old(name) && logFiles == old(logFiles)
      ensures startTime == old(startTime) && endTime == old(endTime) && status == old(status)
    {
      for i := 0 to |logFiles|
        invariant processStatus == old(processStatus) && options == old(options) && name == old(name) && logFiles == old(logFiles)
        invariant startTime == old(startTime) && endTime == old(endTime) && status == old(status)
        invariant tasks == old(tasks) + TasksOf(logFiles[..i])
      {
        var fileTask := ProcessTask(logFiles[i]);
        tasks := tasks + [fileTask];
      }
      assert logFiles[..|logFiles|] == logFiles;
    }

    /** logFileSink, run in sequence: each processed file stored under its own name, in the order received. */
    method LogFileSink(results: seq<AzureNsgLogFile>)
      modifies this
      ensures processStatus == Merged(old(processStatus), results, FileName)
      ensures options == old(options) && name == old(name) && logFiles == old(logFiles) && tasks == old(tasks)
      ensures startTime == old(startTime) && endTime == old(endTime) && status == old(status)
    {
      for i := 0 to |results|
        invariant processStatus == Merged(old(processStatus), results[..i], FileName)
        invariant options == old(options) && name == old(name) && logFiles == old(logFiles) && tasks == old(tasks)
        invariant startTime == old(startTime) && endTime == old(endTime) && status == old(status)
      {
        var processedFile := results[i];
        MergedStep(old(processStatus), results, FileName, i);
        processStatus := processStatus[processedFile.name := processedFile];
      }
      assert results[..|results|] == results;
    }

    /** LoadProcessStatus: read is the status file's content; on a decode error the status is kept. */
    method LoadProcessStatus(read: Option<string>, decode: string -> Option<ProcessStatus>) returns (err: Option<Error>)
      modifies this
      ensures var r := ReadProcessStatus(read, decode);
        && err == r.1
        && processStatus == (if r.1.None? then r.0 else old(processStatus))
      ensures options == old(options) && name == old(name) && logFiles == old(logFiles) && tasks == old(tasks)
      ensures startTime == old(startTime) && endTime == old(endTime) && status == old(status)
    {
      var r := ReadProcessStatus(read, decode);
      if r.1.Some? {
        return r.1;
      }
      processStatus := r.0;
      return None;
    }

    /** The start of Run: the start time and the RUNNING status. */
    method Start(now: Instant)
      modifies this
      ensures startTime == now && status == StatusRunning
      ensures processStatus == old(processStatus) && options == old(options) && name == old(name)
      ensures logFiles == old(logFiles) && tasks == old(tasks) && endTime == old(endTime)
    {
      startTime := now;
      status := StatusRunning;
    }

    /**
     * Complete: the end time, the status saved and read back (both errors
     * ignored), no log files, and the COMPLETE status.
     */
    method Complete(now: Instant, marshal: ProcessStatus -> Option<string>, writeOk: bool,
                    decode: string -> Option<ProcessStatus>, stored: Option<string>)
      modifies this
      ensures endTime == now && logFiles == [] && status == StatusComplete
      ensures processStatus == Reloaded(old(processStatus), marshal, writeOk, decode, stored)
      ensures options == old(options) && name == old(name) && tasks == old(tasks) && startTime == old(startTime)
    {
      endTime := now;
      var saved := Client.SaveProcessStatus(processStatus, marshal, writeOk);
      var read := if saved.0.None? then saved.1 else stored;
      var _ := LoadProcessStatus(read, decode);
      logFiles := [];
      status := StatusComplete;
    }

    /**
     * Run, in sequence: results are the files the tasks sent, in the order
     * received; whatever the tasks' errors, the job stores them, saves and
     * reloads its status, and completes. A task sends back the file it was
     * handed, so when every result names a task's file the saved status
     * gains no other key and keeps every other entry as it was.
     */
    method Run(now: Instant, results: seq<AzureNsgLogFile>, finish: Instant, marshal: ProcessStatus -> Option<string>,
               writeOk: bool, decode: string -> Option<ProcessStatus>, stored: Option<string>)
      modifies this
      ensures startTime == now && endTime == finish && status == StatusComplete && logFiles == []
      ensures processStatus == Reloaded(Merged(old(processStatus), results, FileName), marshal, writeOk, decode, stored)
      ensures (forall i :: 0 <= i < |results| ==> FileName(results[i]) in TaskNames(old(tasks))) ==>
        (var merged := Merged(old(processStatus), results, FileName);
         && merged.Keys <= old(processStatus).Keys + TaskNames(old(tasks))
         && forall k :: k in old(processStatus) && k !in TaskNames(old(tasks)) ==> k in merged && merged[k] == old(processStatus)[k])
      ensures options == old(options) && name == old(name) && tasks == old(tasks)
    {
      if forall i :: 0 <= i < |results| ==> FileName(results[i]) in TaskNames(tasks) {
        MergedWithin(processStatus, results, FileName, TaskNames(tasks));
      }
      Start(now);
      LogFileSink(results);
      Complete(finish, marshal, writeOk, decode, stored);
    }
  }

  /**
   * The loop of LoadUnprocessedLogFiles: the log files queued, in listing
   * order, until the first blob whose name does not parse, and that blob's
   * error.
   */
  method PlanListing(processStatus: ProcessStatus, matchingBlobs: seq<Blob>, startRecordTime: Instant)
    returns (queued: seq<AzureNsgLogFile>, err: Option<Error>)
    ensures queued == Queued(processStatus, matchingBlobs, startRecordTime)
    ensures FirstFailure(matchingBlobs) < |matchingBlobs| ==> err == NewAzureNsgLogFile(matchingBlobs[FirstFailure(matchingBlobs)]).1
    ensures FirstFailure(matchingBlobs) == |matchingBlobs| ==> err.None?
  {
    queued := [];
    ghost var k := FirstFailure(matchingBlobs);
    assert k == FirstFailing(matchingBlobs, Parses());
    for i := 0 to |matchingBlobs|
      invariant i <= k
      invariant queued == Kept(matchingBlobs[..i], PlanOf(processStatus, startRecordTime))
    {
      var logFile, e := PlanLogFile(processStatus, matchingBlobs[i], startRecordTime);
      FirstFailingStep(matchingBlobs, Parses(), i);
      if e.Some? {
        assert i == k;
        return queued, e;
      }
      KeptStep(matchingBlobs, PlanOf(processStatus, startRecordTime), i);
      if logFile.Some? {
        queued := queued + [logFile.value];
      }
    }
    assert k == |matchingBlobs|;
    assert matchingBlobs[..|matchingBlobs|] == matchingBlobs;
    return queued, None;
  }

  /**
   * The body of LoadUnprocessedLogFiles' loop for one blob: the
   * constructor's error, or the log file to queue, if any.
   */
  method PlanLogFile(processStatus: ProcessStatus, blob: Blob, startRecordTime: Instant)
    returns (queued: Option<AzureNsgLogFile>, err: Option<Error>)
    ensures err == NewAzureNsgLogFile(blob).1
    ensures err.None? <==> Parses()(blob)
    ensures err.None? ==> queued == PlanOf(processStatus, startRecordTime)(blob)
  {
    var logFile, e := NewAzureNsgLogFile(blob).0, NewAzureNsgLogFile(blob).1;
    queued, err := None, e;
    if e.Some? {
      return;
    }
    if Calendar.After(logFile.logTime, startRecordTime) {
      if logFile.blob.name in processStatus {
        var lastProcessedFile := processStatus[logFile.blob.name];
        if Calendar.After(logFile.lastModified, lastProcessedFile.lastModified) {
          logFile := logFile.(lastProcessedTimeStamp := lastProcessedFile.lastProcessedTimeStamp);
          logFile := logFile.(lastProcessedRecord := lastProcessedFile.lastProcessedRecord);
          logFile := logFile.(lastProcessedRange := lastProcessedFile.lastProcessedRange);
          queued := Some(logFile);
        }
      } else {
        queued := Some(logFile);
      }
    }
  }
}
