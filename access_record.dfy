/**
 * parser/appgw_access_record.go: one record of an Application Gateway
 * access log and the single CEF event GetCEFList makes of it.
 */
module AccessRecord {
  import opened Base
  import opened Text
  import opened Calendar
  import opened Patterns
  import opened Timeline
  import opened BlobKeys
  import opened JsonValues
  import opened Cef
  import opened CefConversion

  /** AzureAppGwEventRecord: the decoded fields, the ids InitRecord derives, and the property bag. */
  datatype AzureAppGwEventRecord = AzureAppGwEventRecord(
    resourceId: string,
    operationName: string,
    time: Instant,
    category: string,
    subscriptionId: string,
    resourceGroup: string,
    appGwName: string,
    initialized: bool,
    properties: map<string, Json>)

  function RecordTime(r: AzureAppGwEventRecord): Instant { r.time }

  const AccessOperation: string := "ApplicationGatewayAccess"
  const AccessProduct: string := "Azure Application Gateway"

  /** AppGwRecordRegExp on the resource id: APPLICATIONGATEWAYS is the last marker. */
  function RecordMatch(r: AzureAppGwEventRecord): Option<ResourceMatch>
  {
    MatchResourceId(r.resourceId, "APPLICATIONGATEWAYS")
  }

  /**
   * The record InitRecord leaves: the three submatches on a match, with
   * initialized left as it was; only initialized set on a mismatch.
   */
  function InitializedRecord(r: AzureAppGwEventRecord): (s: AzureAppGwEventRecord)
    ensures s.(subscriptionId := r.subscriptionId, resourceGroup := r.resourceGroup, appGwName := r.appGwName,
               initialized := r.initialized) == r
    ensures RecordMatch(r).None? ==> s == r.(initialized := true)
    ensures RecordMatch(r).Some? ==>
      (&& s.initialized == r.initialized
       && s.subscriptionId == RecordMatch(r).value.subscription
       && s.resourceGroup == RecordMatch(r).value.resourceGroup
       && s.appGwName == RecordMatch(r).value.name)
  {
    match RecordMatch(r)
    case None => r.(initialized := true)
    case Some(m) => r.(subscriptionId := m.subscription, resourceGroup := m.resourceGroup, appGwName := m.name)
  }

  /** A second InitRecord changes nothing. */
  lemma InitRecordIdempotent(r: AzureAppGwEventRecord)
    ensures InitializedRecord(InitializedRecord(r)) == InitializedRecord(r)
  {
    assert RecordMatch(InitializedRecord(r)) == RecordMatch(r);
  }

  /**
   * NewCEFEvent: the Application Gateway header with the gateway as name
   * and the category as event class, and the gateway, subscription and
   * resource group as cs2, cs3 and cs4 with their labels.
   */
  function NewCefEvent(r: AzureAppGwEventRecord): CefEvent
  {
    var event := NewAzureCefEventForProduct(AccessProduct);
    event.(name := r.appGwName, deviceEventClassId := r.category,
      extension := event.extension
        ["cs2" := r.appGwName]["cs2label" := AccessProduct]
        ["cs3" := r.subscriptionId]["cs3label" := "Subscription ID"]
        ["cs4" := r.resourceGroup]["cs4label" := "Resource Group"])
  }

  /** The property bag holds what the conversion asserts: three strings and a number. */
  predicate HasAccessProperties(p: map<string, Json>)
  {
    Member(p, "clientIP").Str? && Member(p, "clientPort").Number?
      && Member(p, "requestUri").Str? && Member(p, "httpMethod").Str?
  }

  /**
   * The event of an access record: the record's time (none for the zero
   * instant), the client as src and spt (the port truncated to an
   * integer), the URI as request, the method as requestMethod and act,
   * and the whole property bag, marshalled, as msg.
   */
  function AccessEvent(r: AzureAppGwEventRecord, marshal: map<string, Json> -> string): CefEvent
    requires HasAccessProperties(r.properties)
  {
    var event := NewCefEvent(r);
    var p := r.properties;
    event.(time := DecodedTime(r.time),
      extension := event.extension
        ["src" := Member(p, "clientIP").s]
        ["spt" := Itoa(Truncate(Member(p, "clientPort").n))]
        ["request" := Member(p, "requestUri").s]
        ["requestMethod" := Member(p, "httpMethod").s]
        ["act" := Member(p, "httpMethod").s]
        ["msg" := marshal(p)])
  }

  /**
   * convertApplicationGatewayEventsToCEF before its recover: nothing for a
   * record not strictly after the start, a panic when a property is
   * missing or of another type, and otherwise the one event.
   */
  function AccessConversion(r: AzureAppGwEventRecord, startTime: Instant, marshal: map<string, Json> -> string): Conversion
  {
    if !Calendar.After(r.time, startTime) then NoEvents
    else if !HasAccessProperties(r.properties) then Panicked
    else Done([AccessEvent(r, marshal)], [])
  }

  /**
   * GetCEFList on an initialized record: the one event exactly when the
   * operation is an access, the record is later than the start time and
   * the properties have their types; never an error.
   */
  function CefList(r: AzureAppGwEventRecord, startTime: Instant, marshal: map<string, Json> -> string)
    : (l: (seq<CefEvent>, seq<Error>))
    ensures l.1 == []
    ensures |l.0| <= 1
    ensures |l.0| == 1 <==>
      r.operationName == AccessOperation && Calendar.After(r.time, startTime) && HasAccessProperties(r.properties)
  {
    if r.operationName == AccessOperation then Recovered(AccessConversion(r, startTime, marshal)) else ([], [])
  }

  /** convertApplicationGatewayEventsToCEF, writing the extension key by key. */
  method ConvertAccessEvents(record: AzureAppGwEventRecord, startTime: Instant, marshal: map<string, Json> -> string)
    returns (events: seq<CefEvent>, errors: seq<Error>)
    ensures (events, errors) == Recovered(AccessConversion(record, startTime, marshal))
  {
    events, errors := [], [];
    if record.time > startTime {
      var event := NewCefEvent(record);
      event := event.(time := DecodedTime(record.time));
      var p := record.properties;
      var clientIp := Member(p, "clientIP");
      if !clientIp.Str? {
        return [], [];
      }
      var extension := event.extension["src" := clientIp.s];
      var clientPort := Member(p, "clientPort");
      if !clientPort.Number? {
        return [], [];
      }
      extension := extension["spt" := Itoa(Truncate(clientPort.n))];
      var requestUri := Member(p, "requestUri");
      if !requestUri.Str? {
        return [], [];
      }
      extension := extension["request" := requestUri.s];
      var httpMethod := Member(p, "httpMethod");
      if !httpMethod.Str? {
        return [], [];
      }
      extension := extension["requestMethod" := httpMethod.s];
      extension := extension["act" := httpMethod.s];
      extension := extension["msg" := marshal(p)];
      event := event.(extension := extension);
      assert event == AccessEvent(record, marshal);
      events := [event];
    }
  }

  /** A *AzureAppGwEventRecord. */
  class AccessRecordRef {
    var record: AzureAppGwEventRecord

    constructor (r: AzureAppGwEventRecord)
      ensures record == r
    {
      record := r;
    }

    /** InitRecord. */
    method InitRecord()
      modifies this
      ensures record == InitializedRecord(old(record))
    {
      var m := RecordMatch(record);
      if m.None? {
        record := record.(initialized := true);
        return;
      }
      record := record.(subscriptionId := m.value.subscription);
      record := record.(resourceGroup := m.value.resourceGroup);
      record := record.(appGwName := m.value.name);
    }

    /** GetCEFList: initialise if need be, then convert an access record and nothing else. */
    method GetCefList(startTime: Instant, marshal: map<string, Json> -> string)
      returns (events: seq<CefEvent>, errors: seq<Error>)
      modifies this
      ensures record == if old(record).initialized then old(record) else InitializedRecord(old(record))
      ensures (events, errors) == CefList(record, startTime, marshal)
    {
      if !record.initialized {
        InitRecord();
      }
      if record.operationName == AccessOperation {
        events, errors := ConvertAccessEvents(record, startTime, marshal);
      } else {
        events, errors := [], [];
      }
    }
  }

  /**
   * The contents of the event: the header names the gateway, its
   * subscription and resource group; the extension holds the client, the
   * request and the marshalled properties.
   */
  lemma AccessEventFields(r: AzureAppGwEventRecord, marshal: map<string, Json> -> string)
    requires HasAccessProperties(r.properties)
    ensures var e := AccessEvent(r, marshal); var ext := e.extension; var p := r.properties;
      && e.deviceProduct == AccessProduct && e.name == r.appGwName && e.deviceEventClassId == r.category
      && (e.time.Some? <==> r.time != ZeroTime) && (e.time.Some? ==> e.time.value == r.time)
      && ext.Keys == {"cs2", "cs2label", "cs3", "cs3label", "cs4", "cs4label",
                      "src", "spt", "request", "requestMethod", "act", "msg"}
      && ext["cs2"] == r.appGwName && ext["cs3"] == r.subscriptionId && ext["cs4"] == r.resourceGroup
      && ext["src"] == Member(p, "clientIP").s
      && ext["request"] == Member(p, "requestUri").s
      && ext["requestMethod"] == ext["act"] == Member(p, "httpMethod").s
      && ext["msg"] == marshal(p)
  {
  }

  /** "spt" reads back as the port with its fraction dropped, for ports that fit in a 64-bit int. */
  lemma AccessPortReadsBack(r: AzureAppGwEventRecord, marshal: map<string, Json> -> string)
    requires HasAccessProperties(r.properties)
    requires var n := Truncate(Member(r.properties, "clientPort").n); MinInt64 <= n <= MaxInt64
    ensures "spt" in AccessEvent(r, marshal).extension
    ensures var n := Member(r.properties, "clientPort").n; var port := ParseInt(AccessEvent(r, marshal).extension["spt"]);
      && port.ok && (n >= 0.0 ==> port.value as real <= n < port.value as real + 1.0)
  {
    ParseIntItoa(Truncate(Member(r.properties, "clientPort").n));
  }

  // ------------------------------------------------------------ filters

  /** AzureAppGwEventRecords.After. */
  method After(slice: seq<AzureAppGwEventRecord>, afterTime: Instant) returns (returnRecords: seq<AzureAppGwEventRecord>)
    ensures returnRecords == KeepAfter(slice, RecordTime, afterTime)
  {
    returnRecords := [];
    for i := 0 to |slice|
      invariant returnRecords == KeepAfter(slice[..i], RecordTime, afterTime)
    {
      assert slice[..i + 1][..i] == slice[..i];
      if slice[i].time > afterTime {
        returnRecords := returnRecords + [slice[i]];
      }
    }
    assert slice[..|slice|] == slice;
  }

  /** AzureAppGwEventRecords.Before as written: the same loop as After. */
  method Before(slice: seq<AzureAppGwEventRecord>, afterTime: Instant) returns (returnRecords: seq<AzureAppGwEventRecord>)
    ensures returnRecords == KeepAfter(slice, RecordTime, afterTime)
  {
    returnRecords := [];
    for i := 0 to |slice|
      invariant returnRecords == KeepAfter(slice[..i], RecordTime, afterTime)
    {
      assert slice[..i + 1][..i] == slice[..i];
      if slice[i].time > afterTime {
        returnRecords := returnRecords + [slice[i]];
      }
    }
    assert slice[..|slice|] == slice;
  }

  /** A record later than the time is what Before keeps, and an earlier one what it drops. */
  lemma BeforeKeepsLaterRecords(r: AzureAppGwEventRecord, t: Instant)
    ensures r.time > t ==> KeepAfter([r], RecordTime, t) == [r]
    ensures r.time < t ==> KeepAfter([r], RecordTime, t) == []
  {
    assert [r][..0] == [];
  }

  /** Before as its name says. */
  method BeforeCorrected(slice: seq<AzureAppGwEventRecord>, beforeTime: Instant) returns (returnRecords: seq<AzureAppGwEventRecord>)
    ensures returnRecords == KeepBefore(slice, RecordTime, beforeTime)
  {
    returnRecords := [];
    for i := 0 to |slice|
      invariant returnRecords == KeepBefore(slice[..i], RecordTime, beforeTime)
    {
      assert slice[..i + 1][..i] == slice[..i];
      if slice[i].time < beforeTime {
        returnRecords := returnRecords + [slice[i]];
      }
    }
    assert slice[..|slice|] == slice;
  }

  /** The corrected filter keeps exactly the earlier records, none of which After keeps. */
  lemma BeforeCorrectedMembers(slice: seq<AzureAppGwEventRecord>, t: Instant, r: AzureAppGwEventRecord)
    ensures r in KeepBefore(slice, RecordTime, t) <==> r in slice && r.time < t
    ensures !(r in KeepBefore(slice, RecordTime, t) && r in KeepAfter(slice, RecordTime, t))
  {
    KeepBeforeMembers(slice, RecordTime, t, r);
    KeepBeforeAfterDisjoint(slice, RecordTime, t, r);
  }

  // ------------------------------------------------------------ blob names

  /** getSourceFileName: the blob of the record's hour. */
  function GetSourceFileName(r: AzureAppGwEventRecord): string
  {
    SourceFileName(r.resourceId, r.time)
  }

  /** getSourceContainerName: the access-log container for an access record, "" otherwise. */
  function GetSourceContainerName(r: AzureAppGwEventRecord): (name: string)
    ensures name != "" <==> r.operationName == AccessOperation
  {
    if r.operationName == AccessOperation then "insights-logs-applicationgatewayaccesslog" else ""
  }

  /** The name of a record's blob reads back as the record's hour and the gateway's name. */
  lemma SourceFileNameReadsBack(r: AzureAppGwEventRecord)
    requires '/' in r.resourceId && 0 <= ToCivil(r.time).year <= 9999
    ensures LogTimeFromName(GetSourceFileName(r), ResourceIdName) == Ok(TruncateHour(r.time))
    ensures LoggedName(GetSourceFileName(r), ResourceIdName) == Ok(LastSegment(r.resourceId))
  {
    SourceFileNameRoundTrip(r.resourceId, r.time, ResourceIdName);
  }
}
