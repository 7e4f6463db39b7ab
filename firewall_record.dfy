/**
 * parser/appgw_firewall_record.go: one record of an Application Gateway
 * firewall log and the single CEF event GetCEFList makes of it.
 */
module FirewallRecord {
  import opened Base
  import opened Text
  import opened Calendar
  import opened Patterns
  import opened Timeline
  import opened BlobKeys
  import opened JsonValues
  import opened Cef
  import opened CefConversion

  /** AzureAppGwFirewallEventRecord: the decoded fields, the ids InitRecord derives, and the property bag. */
  datatype AzureAppGwFirewallEventRecord = AzureAppGwFirewallEventRecord(
    resourceId: string,
    operationName: string,
    time: Instant,
    category: string,
    subscriptionId: string,
    resourceGroup: string,
    appGwName: string,
    initialized: bool,
    properties: map<string, Json>)

  function RecordTime(r: AzureAppGwFirewallEventRecord): Instant { r.time }

  const FirewallOperation: string := "ApplicationGatewayFirewall"
  const FirewallProduct: string := "Azure Application Gateway"

  /** AppGwFirewallRecordRegExp on the resource id: APPLICATIONGATEWAYS is the last marker. */
  function RecordMatch(r: AzureAppGwFirewallEventRecord): Option<ResourceMatch>
  {
    MatchResourceId(r.resourceId, "APPLICATIONGATEWAYS")
  }

  /**
   * The record InitRecord leaves: the three submatches on a match, with
   * initialized left as it was; only initialized set on a mismatch.
   */
  function InitializedRecord(r: AzureAppGwFirewallEventRecord): (s: AzureAppGwFirewallEventRecord)
    ensures s.(subscriptionId := r.subscriptionId, resourceGroup := r.resourceGroup, appGwName := r.appGwName,
               initialized := r.initialized) == r
    ensures RecordMatch(r).None? ==> s == r.(initialized := true)
    ensures RecordMatch(r).Some? ==>
      (&& s.initialized == r.initialized
       && s.subscriptionId == RecordMatch(r).value.subscription
       && s.resourceGroup == RecordMatch(r).value.resourceGroup
       && s.appGwName == RecordMatch(r).value.name)
  {
    match RecordMatch(r)
    case None => r.(initialized := true)
    case Some(m) => r.(subscriptionId := m.subscription, resourceGroup := m.resourceGroup, appGwName := m.name)
  }

  /** A second InitRecord changes nothing. */
  lemma InitRecordIdempotent(r: AzureAppGwFirewallEventRecord)
    ensures InitializedRecord(InitializedRecord(r)) == InitializedRecord(r)
  {
    assert RecordMatch(InitializedRecord(r)) == RecordMatch(r);
  }

  /**
   * NewCEFEvent: the Application Gateway header with the gateway as name
   * and the category as event class, and the gateway, subscription and
   * resource group as cs2, cs3 and cs4 with their labels.
   */
  function NewCefEvent(r: AzureAppGwFirewallEventRecord): CefEvent
  {
    var event := NewAzureCefEventForProduct(FirewallProduct);
    event.(name := r.appGwName, deviceEventClassId := r.category,
      extension := event.extension
        ["cs2" := r.appGwName]["cs2label" := FirewallProduct]
        ["cs3" := r.subscriptionId]["cs3label" := "Subscription ID"]
        ["cs4" := r.resourceGroup]["cs4label" := "Resource Group"])
  }

  /** The property bag holds the five strings the conversion asserts; the client port may be anything. */
  predicate HasFirewallProperties(p: map<string, Json>)
  {
    Member(p, "clientIp").Str? && Member(p, "requestUri").Str? && Member(p, "action").Str?
      && Member(p, "message").Str? && Member(p, "instanceId").Str?
  }

  /**
   * The event of a firewall record: the record's time (none for the zero
   * instant), the client as src and spt (the port printed with %v, which
   * show stands for), the URI as cs1, the action as act, the rule's
   * message as cs5 and the gateway instance as cs6, each custom string
   * with its label, and the property bag, marshalled, as msg.
   */
  function FirewallEvent(r: AzureAppGwFirewallEventRecord, show: Json -> string, marshal: map<string, Json> -> string): CefEvent
    requires HasFirewallProperties(r.properties)
  {
    var event := NewCefEvent(r);
    var p := r.properties;
    event.(time := DecodedTime(r.time),
      extension := event.extension
        ["src" := Member(p, "clientIp").s]
        ["spt" := show(Member(p, "clientPort"))]
        ["cs1" := Member(p, "requestUri").s]["cs1label" := "requestUri"]
        ["act" := Member(p, "action").s]
        ["cs5" := Member(p, "message").s]["cs5label" := "message"]
        ["cs6" := Member(p, "instanceId").s]["cs6label" := "instanceId"]
        ["msg" := marshal(p)])
  }

  /**
   * convertAppGatewayFirewallEventsToCEF before its recover: nothing for a
   * record not strictly after the start, a panic when one of the five
   * strings is missing or of another type, and otherwise the one event.
   */
  function FirewallConversion(r: AzureAppGwFirewallEventRecord, startTime: Instant, show: Json -> string,
                              marshal: map<string, Json> -> string): Conversion
  {
    if !Calendar.After(r.time, startTime) then NoEvents
    else if !HasFirewallProperties(r.properties) then Panicked
    else Done([FirewallEvent(r, show, marshal)], [])
  }

  /**
   * GetCEFList on an initialized record: the one event exactly when the
   * operation is a firewall event, the record is later than the start time
   * and the five properties are strings; never an error.
   */
  function CefList(r: AzureAppGwFirewallEventRecord, startTime: Instant, show: Json -> string,
                   marshal: map<string, Json> -> string): (l: (seq<CefEvent>, seq<Error>))
    ensures l.1 == []
    ensures |l.0| <= 1
    ensures |l.0| == 1 <==>
      r.operationName == FirewallOperation && Calendar.After(r.time, startTime) && HasFirewallProperties(r.properties)
  {
    if r.operationName == FirewallOperation then Recovered(FirewallConversion(r, startTime, show, marshal)) else ([], [])
  }

  /** convertAppGatewayFirewallEventsToCEF, writing the extension key by key. */
  method ConvertFirewallEvents(record: AzureAppGwFirewallEventRecord, startTime: Instant, show: Json -> string,
                               marshal: map<string, Json> -> string)
    returns (events: seq<CefEvent>, errors: seq<Error>)
    ensures (events, errors) == Recovered(FirewallConversion(record, startTime, show, marshal))
  {
    events, errors := [], [];
    if record.time > startTime {
      var event := NewCefEvent(record);
      event := event.(time := DecodedTime(record.time));
      var p := record.properties;
      var clientIp := Member(p, "clientIp");
      if !clientIp.Str? {
        return [], [];
      }
      var extension := event.extension["src" := clientIp.s];
      var cp := Member(p, "clientPort");
      var cpstr := show(cp);
      extension := extension["spt" := cpstr];
      var requestUri := Member(p, "requestUri");
      if !requestUri.Str? {
        return [], [];
      }
      extension := extension["cs1" := requestUri.s];
      extension := extension["cs1label" := "requestUri"];
      var action := Member(p, "action");
      if !action.Str? {
        return [], [];
      }
      extension := extension["act" := action.s];
      var message := Member(p, "message");
      if !message.Str? {
        return [], [];
      }
      extension := extension["cs5" := message.s];
      extension := extension["cs5label" := "message"];
      var instanceId := Member(p, "instanceId");
      if !instanceId.Str? {
        return [], [];
      }
      extension := extension["cs6" := instanceId.s];
      extension := extension["cs6label" := "instanceId"];
      extension := extension["msg" := marshal(p)];
      event := event.(extension := extension);
      assert event == FirewallEvent(record, show, marshal);
      events := [event];
    }
  }

  /** A *AzureAppGwFirewallEventRecord. */
  class FirewallRecordRef {
    var record: AzureAppGwFirewallEventRecord

    constructor (r: AzureAppGwFirewallEventRecord)
      ensures record == r
    {
      record := r;
    }

    /** InitRecord. */
    method InitRecord()
      modifies this
      ensures record == InitializedRecord(old(record))
    {
      var m := RecordMatch(record);
      if m.None? {
        record := record.(initialized := true);
        return;
      }
      record := record.(subscriptionId := m.value.subscription);
      record := record.(resourceGroup := m.value.resourceGroup);
      record := record.(appGwName := m.value.name);
    }

    /** GetCEFList: initialise if need be, then convert a firewall record and nothing else. */
    method GetCefList(startTime: Instant, show: Json -> string, marshal: map<string, Json> -> string)
      returns (events: seq<CefEvent>, errors: seq<Error>)
      modifies this
      ensures record == if old(record).initialized then old(record) else InitializedRecord(old(record))
      ensures (events, errors) == CefList(record, startTime, show, marshal)
    {
      if !record.initialized {
        InitRecord();
      }
      if record.operationName == FirewallOperation {
        events, errors := ConvertFirewallEvents(record, startTime, show, marshal);
      } else {
        events, errors := [], [];
      }
    }
  }

  /** The header of the event names the gateway, its subscription and resource group, and carries the record's time. */
  lemma FirewallEventHeader(r: AzureAppGwFirewallEventRecord, show: Json -> string, marshal: map<string, Json> -> string)
    requires HasFirewallProperties(r.properties)
    ensures var e := FirewallEvent(r, show, marshal); var ext := e.extension;
      && e.deviceProduct == FirewallProduct && e.name == r.appGwName && e.deviceEventClassId == r.category
      && (e.time.Some? <==> r.time != ZeroTime) && (e.time.Some? ==> e.time.value == r.time)
      && "cs2" in ext && ext["cs2"] == r.appGwName
      && "cs3" in ext && ext["cs3"] == r.subscriptionId
      && "cs4" in ext && ext["cs4"] == r.resourceGroup
  {
  }

  /** The keys of the event's extension: the three ids, the nine request fields and their labels. */
  lemma FirewallEventKeys(r: AzureAppGwFirewallEventRecord, show: Json -> string, marshal: map<string, Json> -> string)
    requires HasFirewallProperties(r.properties)
    ensures FirewallEvent(r, show, marshal).extension.Keys
      == {"cs2", "cs2label", "cs3", "cs3label", "cs4", "cs4label", "src", "spt",
          "cs1", "cs1label", "act", "cs5", "cs5label", "cs6", "cs6label", "msg"}
  {
  }

  /** The request fields of the event: the client, the URI, the action, the message, the instance and the whole bag. */
  lemma FirewallEventFields(r: AzureAppGwFirewallEventRecord, show: Json -> string, marshal: map<string, Json> -> string)
    requires HasFirewallProperties(r.properties)
    ensures var ext := FirewallEvent(r, show, marshal).extension; var p := r.properties;
      && "src" in ext && ext["src"] == Member(p, "clientIp").s
      && "spt" in ext && ext["spt"] == show(Member(p, "clientPort"))
      && "cs1" in ext && ext["cs1"] == Member(p, "requestUri").s
      && "act" in ext && ext["act"] == Member(p, "action").s
      && "cs5" in ext && ext["cs5"] == Member(p, "message").s
      && "cs6" in ext && ext["cs6"] == Member(p, "instanceId").s
      && "msg" in ext && ext["msg"] == marshal(p)
  {
  }

  // ------------------------------------------------------------ filters

  /** AzureAppGwFirewallEventRecords.After. */
  method After(slice: seq<AzureAppGwFirewallEventRecord>, afterTime: Instant) returns (returnRecords: seq<AzureAppGwFirewallEventRecord>)
    ensures returnRecords == KeepAfter(slice, RecordTime, afterTime)
  {
    returnRecords := [];
    for i := 0 to |slice|
      invariant returnRecords == KeepAfter(slice[..i], RecordTime, afterTime)
    {
      assert slice[..i + 1][..i] == slice[..i];
      if slice[i].time > afterTime {
        returnRecords := returnRecords + [slice[i]];
      }
    }
    assert slice[..|slice|] == slice;
  }

  /** AzureAppGwFirewallEventRecords.Before as written: the same loop as After. */
  method Before(slice: seq<AzureAppGwFirewallEventRecord>, afterTime: Instant) returns (returnRecords: seq<AzureAppGwFirewallEventRecord>)
    ensures returnRecords == KeepAfter(slice, RecordTime, afterTime)
  {
    returnRecords := [];
    for i := 0 to |slice|
      invariant returnRecords == KeepAfter(slice[..i], RecordTime, afterTime)
    {
      assert slice[..i + 1][..i] == slice[..i];
      if slice[i].time > afterTime {
        returnRecords := returnRecords + [slice[i]];
      }
    }
    assert slice[..|slice|] == slice;
  }

  /** A record later than the time is what Before keeps, and an earlier one what it drops. */
  lemma BeforeKeepsLaterRecords(r: AzureAppGwFirewallEventRecord, t: Instant)
    ensures r.time > t ==> KeepAfter([r], RecordTime, t) == [r]
    ensures r.time < t ==> KeepAfter([r], RecordTime, t) == []
  {
    assert [r][..0] == [];
  }

  /** Before as its name says. */
  method BeforeCorrected(slice: seq<AzureAppGwFirewallEventRecord>, beforeTime: Instant) returns (returnRecords: seq<AzureAppGwFirewallEventRecord>)
    ensures returnRecords == KeepBefore(slice, RecordTime, beforeTime)
  {
    returnRecords := [];
    for i := 0 to |slice|
      invariant returnRecords == KeepBefore(slice[..i], RecordTime, beforeTime)
    {
      assert slice[..i + 1][..i] == slice[..i];
      if slice[i].time < beforeTime {
        returnRecords := returnRecords + [slice[i]];
      }
    }
    assert slice[..|slice|] == slice;
  }

  /** The corrected filter keeps exactly the earlier records, none of which After keeps. */
  lemma BeforeCorrectedMembers(slice: seq<AzureAppGwFirewallEventRecord>, t: Instant, r: AzureAppGwFirewallEventRecord)
    ensures r in KeepBefore(slice, RecordTime, t) <==> r in slice && r.time < t
    ensures !(r in KeepBefore(slice, RecordTime, t) && r in KeepAfter(slice, RecordTime, t))
  {
    KeepBeforeMembers(slice, RecordTime, t, r);
    KeepBeforeAfterDisjoint(slice, RecordTime, t, r);
  }

  // ------------------------------------------------------------ blob names

  /** getSourceFileName: the blob of the record's hour. */
  function GetSourceFileName(r: AzureAppGwFirewallEventRecord): string
  {
    SourceFileName(r.resourceId, r.time)
  }

  /** getSourceContainerName: the firewall-log container for a firewall record, "" otherwise. */
  function GetSourceContainerName(r: AzureAppGwFirewallEventRecord): (name: string)
    ensures name != "" <==> r.operationName == FirewallOperation
  {
    if r.operationName == FirewallOperation then "insights-logs-applicationgatewayfirewalllog" else ""
  }

  /** The name of a record's blob reads back as the record's hour and the gateway's name. */
  lemma SourceFileNameReadsBack(r: AzureAppGwFirewallEventRecord)
    requires '/' in r.resourceId && 0 <= ToCivil(r.time).year <= 9999
    ensures LogTimeFromName(GetSourceFileName(r), ResourceIdName) == Ok(TruncateHour(r.time))
    ensures LoggedName(GetSourceFileName(r), ResourceIdName) == Ok(LastSegment(r.resourceId))
  {
    SourceFileNameRoundTrip(r.resourceId, r.time, ResourceIdName);
  }
}
