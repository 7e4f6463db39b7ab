/**
 * parser/event_record.go: one record of an NSG event log decoded with a
 * free-form property bag, the ids InitRecord derives from its resource id,
 * and its conversion into CEF events, one per flow tuple.
 */
module EventRecord {
  import opened Base
  import opened Text
  import opened Calendar
  import opened Patterns
  import opened Timeline
  import opened MacAddress
  import opened BlobKeys
  import opened JsonValues
  import opened Cef
  import opened CefConversion
  import NsgTypes

  // ------------------------------------------------------------------ data

  /**
   * AzureNsgEventRecord: the decoded fields, the three unexported ids
   * InitRecord fills in, and the properties as decoded into interface{}.
   */
  datatype AzureNsgEventRecord = AzureNsgEventRecord(
    time: Instant,
    systemId: string,
    category: string,
    resourceId: string,
    operationName: string,
    subscriptionId: string,
    resourceGroup: string,
    nsgName: string,
    initialized: bool,
    properties: map<string, Json>)

  function RecordTime(r: AzureNsgEventRecord): Instant { r.time }

  const FlowEventsOperation: string := "NetworkSecurityGroupFlowEvents"
  const GroupEventsOperation: string := "NetworkSecurityGroupEvents"
  const RuleLabel: string := "Rule Name"

  // ------------------------------------------------------------ InitRecord

  /** RecordRegExp on the resource id: NETWORKSECURITYGROUPS is the last marker. */
  function RecordMatch(r: AzureNsgEventRecord): Option<ResourceMatch>
  {
    MatchResourceId(r.resourceId, "NETWORKSECURITYGROUPS")
  }

  /**
   * The record InitRecord leaves: on a match the subscription, resource
   * group and NSG name are the three submatches and initialized is left as
   * it was; on a mismatch only initialized is set. Nothing else changes.
   */
  function InitializedRecord(r: AzureNsgEventRecord): (s: AzureNsgEventRecord)
    ensures s.(subscriptionId := r.subscriptionId, resourceGroup := r.resourceGroup, nsgName := r.nsgName,
               initialized := r.initialized) == r
    ensures RecordMatch(r).None? ==> s == r.(initialized := true)
    ensures RecordMatch(r).Some? ==>
      (&& s.initialized == r.initialized
       && s.subscriptionId == RecordMatch(r).value.subscription
       && s.resourceGroup == RecordMatch(r).value.resourceGroup
       && s.nsgName == RecordMatch(r).value.name)
  {
    match RecordMatch(r)
    case None => r.(initialized := true)
    case Some(m) => r.(subscriptionId := m.subscription, resourceGroup := m.resourceGroup, nsgName := m.name)
  }

  /**
   * InitRecord may run any number of times: a second run changes nothing.
   * A record whose id matches is never marked initialized, so GetCEFList
   * re-runs InitRecord on every call, harmlessly.
   */
  lemma InitRecordIdempotent(r: AzureNsgEventRecord)
    ensures InitializedRecord(InitializedRecord(r)) == InitializedRecord(r)
    ensures RecordMatch(r).Some? && !r.initialized ==> !InitializedRecord(r).initialized
  {
    assert RecordMatch(InitializedRecord(r)) == RecordMatch(r);
  }

  // ------------------------------------------------------------ the CEF skeleton

  /**
   * NewCEFEvent: the NSG header with the category as name and the operation
   * as event class, the system id as deviceExternalId, and the NSG name,
   * subscription and resource group as cs2, cs3 and cs4 with their labels.
   */
  function NewCefEvent(r: AzureNsgEventRecord): CefEvent
  {
    NewNsgCefEvent().(name := r.category, deviceEventClassId := r.operationName,
      extension := map[
        "deviceExternalId" := r.systemId,
        "cs2" := r.nsgName, "cs2label" := "Azure NSG",
        "cs3" := r.subscriptionId, "cs3label" := "Subscription ID",
        "cs4" := r.resourceGroup, "cs4label" := "Resource Group"])
  }

  /** The facts every event of a record carries, whichever tuple it comes from. */
  predicate CarriesRecord(r: AzureNsgEventRecord, e: CefEvent)
  {
    && e.cefVersion == CefVersion && e.deviceVendor == NsgDeviceVendor && e.deviceProduct == NsgDeviceProduct
    && e.name == r.category && e.deviceEventClassId == r.operationName
    && Holds(e, "deviceExternalId", r.systemId)
    && Holds(e, "cs2", r.nsgName) && Holds(e, "cs2label", "Azure NSG")
    && Holds(e, "cs3", r.subscriptionId) && Holds(e, "cs3label", "Subscription ID")
    && Holds(e, "cs4", r.resourceGroup) && Holds(e, "cs4label", "Resource Group")
  }

  /** The event's extension maps k to v. */
  predicate Holds(e: CefEvent, k: string, v: string)
  {
    k in e.extension && e.extension[k] == v
  }

  // ------------------------------------------------------------ one flow tuple

  /**
   * The event of a tuple with eight fields: the skeleton with the rule as
   * cs1, the tuple's time (seconds) as event time and, in milliseconds with
   * int64 wrap-around, as "start"; addresses and ports as they are; the
   * protocol through protocolMap; deviceDirection as the direction code and
   * the MAC address with colons as dmac (code 0) or smac (code 1); the
   * outcome as categoryOutcome with severity 0 for Allow, 6 for Deny and
   * otherwise 4 with categoryOutcome "Unknown".
   */
  function FlowTupleEvent(skeleton: CefEvent, rule: string, mac: string, tuples: seq<string>): CefEvent
    requires |tuples| == 8
  {
    var epochTime := ParseInt(tuples[0]).value;
    var flowDirection := Get(DirectionMap, tuples[6], 0);
    var flowOutcome := Get(OutcomeMap, tuples[7], "");
    var ext := skeleton.extension["cs1" := rule]["cs1label" := RuleLabel]
      ["start" := Itoa(WrapInt64(1000 * epochTime))]
      ["src" := tuples[1]]["dst" := tuples[2]]["spt" := tuples[3]]["dpt" := tuples[4]]
      ["proto" := Get(ProtocolMap, tuples[5], "")]
      ["deviceDirection" := Itoa(flowDirection)];
    var withMac := if flowDirection == 0 then ext["dmac" := Grouped(mac)] else ext["smac" := Grouped(mac)];
    var severity := if flowOutcome == "Allow" then 0 else if flowOutcome == "Deny" then 6 else 4;
    var withOutcome := withMac["categoryOutcome" := flowOutcome];
    skeleton.(time := Some(epochTime), severity := severity,
      extension := if severity == 4 then withOutcome["categoryOutcome" := "Unknown"] else withOutcome)
  }

  /**
   * One iteration of the innermost loop: a tuple that is not a string, or a
   * sub-flow whose "mac" is not a string, panics; a tuple without eight
   * comma-separated fields appends an error and no event; otherwise the
   * event is appended, preceded by an error when the time does not parse.
   */
  function TupleConversion(skeleton: CefEvent, rule: string, mac: Json, flowTuple: Json): Conversion
  {
    if !flowTuple.Str? then Panicked
    else
      var tuples := Split(flowTuple.s, ',');
      if |tuples| != 8 then Done([], [TupleTokens(flowTuple.s)])
      else if !mac.Str? then Panicked
      else
        Done([FlowTupleEvent(skeleton, rule, mac.s, tuples)],
             if ParseInt(tuples[0]).ok then [] else [EpochInvalid(tuples[0])])
  }

  function TupleStep(skeleton: CefEvent, rule: string, mac: Json): Json -> Conversion
  {
    t => TupleConversion(skeleton, rule, mac, t)
  }

  /** One iteration over a sub-flow: it must be an object whose "flowTuples" is an array. */
  function SubFlowConversion(skeleton: CefEvent, rule: string, subFlow: Json): Conversion
  {
    if !subFlow.Object? then Panicked
    else
      var flowTuples := Member(subFlow.fields, "flowTuples");
      if !flowTuples.Array? then Panicked
      else Fold(flowTuples.items, TupleStep(skeleton, rule, Member(subFlow.fields, "mac")))
  }

  function SubFlowStep(skeleton: CefEvent, rule: string): Json -> Conversion
  {
    s => SubFlowConversion(skeleton, rule, s)
  }

  /** One iteration over a flow: it must be an object with a string "rule" and an array "flows". */
  function FlowConversion(skeleton: CefEvent, f: Json): Conversion
  {
    if !f.Object? then Panicked
    else
      var rule := Member(f.fields, "rule");
      if !rule.Str? then Panicked
      else
        var subFlows := Member(f.fields, "flows");
        if !subFlows.Array? then Panicked
        else Fold(subFlows.items, SubFlowStep(skeleton, rule.s))
  }

  function FlowStep(skeleton: CefEvent): Json -> Conversion
  {
    f => FlowConversion(skeleton, f)
  }

  /**
   * convertNetworkSecurityGroupFlowEventsToCEF before its deferred recover:
   * nothing for a record not strictly after the start time, a panic when
   * the "flows" property is not an array, and otherwise the flows in order.
   */
  function FlowEventsConversion(r: AzureNsgEventRecord, startTime: Instant): Conversion
  {
    if !Calendar.After(r.time, startTime) then NoEvents
    else
      var flows := Member(r.properties, "flows");
      if !flows.Array? then Panicked
      else Fold(flows.items, FlowStep(NewCefEvent(r)))
  }

  /**
   * GetCEFList's result for a record already initialized: the flow
   * conversion for flow events, nothing (not even an error) for any other
   * operation, and nothing for a record not strictly after the start time.
   */
  function CefList(r: AzureNsgEventRecord, startTime: Instant): (l: (seq<CefEvent>, seq<Error>))
    ensures r.operationName != FlowEventsOperation ==> l == ([], [])
    ensures !Calendar.After(r.time, startTime) ==> l == ([], [])
  {
    if r.operationName == FlowEventsOperation then Recovered(FlowEventsConversion(r, startTime)) else ([], [])
  }

  // ------------------------------------------------------------ the conversion loops

  /** The body of the innermost loop, writing the extension key by key. */
  method ConvertTuple(skeleton: CefEvent, flowRule: string, thisSubFlow: map<string, Json>, flowTuple: Json)
    returns (c: Conversion)
    ensures c == TupleConversion(skeleton, flowRule, Member(thisSubFlow, "mac"), flowTuple)
  {
    if !flowTuple.Str? {
      return Panicked;
    }
    var tuple := flowTuple.s;
    var event := skeleton;
    var extension := event.extension["cs1" := flowRule];
    extension := extension["cs1label" := RuleLabel];
    var tuples := Split(tuple, ',');
    if |tuples| != 8 {
      return Done([], [TupleTokens(tuple)]);
    }
    var errors: seq<Error> := [];
    var parsed := ParseInt(tuples[0]);
    if !parsed.ok {
      errors := errors + [EpochInvalid(tuples[0])];
    }
    var epochTime := parsed.value;
    event := event.(time := Some(epochTime));
    extension := extension["start" := Itoa(WrapInt64(1000 * epochTime))];
    extension := extension["src" := tuples[1]];
    extension := extension["dst" := tuples[2]];
    extension := extension["spt" := tuples[3]];
    extension := extension["dpt" := tuples[4]];
    extension := extension["proto" := Get(ProtocolMap, tuples[5], "")];
    var flowDirection := Get(DirectionMap, tuples[6], 0);
    extension := extension["deviceDirection" := Itoa(flowDirection)];
    var mac := Member(thisSubFlow, "mac");
    if flowDirection == 0 {
      if !mac.Str? {
        return Panicked;
      }
      var formatted := FormatMac(mac.s);
      extension := extension["dmac" := formatted];
    } else if flowDirection == 1 {
      if !mac.Str? {
        return Panicked;
      }
      var formatted := FormatMac(mac.s);
      extension := extension["smac" := formatted];
    }
    var flowOutcome := Get(OutcomeMap, tuples[7], "");
    extension := extension["categoryOutcome" := flowOutcome];
    if flowOutcome == "Allow" {
      event := event.(severity := 0);
    } else if flowOutcome == "Deny" {
      event := event.(severity := 6);
    } else {
      event := event.(severity := 4);
      extension := extension["categoryOutcome" := "Unknown"];
    }
    event := event.(extension := extension);
    return Done([event], errors);
  }

  /** The innermost loop, over the tuples of one sub-flow. */
  method ConvertTuples(skeleton: CefEvent, flowRule: string, thisSubFlow: map<string, Json>, flowTuples: seq<Json>)
    returns (c: Conversion)
    ensures c == Fold(flowTuples, TupleStep(skeleton, flowRule, Member(thisSubFlow, "mac")))
  {
    ghost var step := TupleStep(skeleton, flowRule, Member(thisSubFlow, "mac"));
    var events: seq<CefEvent> := [];
    var errors: seq<Error> := [];
    for l := 0 to |flowTuples|
      invariant Fold(flowTuples[..l], step) == Done(events, errors)
    {
      assert flowTuples[..l + 1][..l] == flowTuples[..l];
      var one := ConvertTuple(skeleton, flowRule, thisSubFlow, flowTuples[l]);
      if one.Panicked? {
        FoldPanics(flowTuples, l, step);
        return Panicked;
      }
      events := events + one.events;
      errors := errors + one.errors;
    }
    assert flowTuples[..|flowTuples|] == flowTuples;
    return Done(events, errors);
  }

  /** The loop over the sub-flows of one flow. */
  method ConvertSubFlows(skeleton: CefEvent, flowRule: string, subFlows: seq<Json>) returns (c: Conversion)
    ensures c == Fold(subFlows, SubFlowStep(skeleton, flowRule))
  {
    ghost var step := SubFlowStep(skeleton, flowRule);
    var events: seq<CefEvent> := [];
    var errors: seq<Error> := [];
    for k := 0 to |subFlows|
      invariant Fold(subFlows[..k], step) == Done(events, errors)
    {
      assert subFlows[..k + 1][..k] == subFlows[..k];
      var subFlow := subFlows[k];
      if !subFlow.Object? || !Member(subFlow.fields, "flowTuples").Array? {
        FoldPanics(subFlows, k, step);
        return Panicked;
      }
      var thisSubFlow := subFlow.fields;
      var one := ConvertTuples(skeleton, flowRule, thisSubFlow, Member(thisSubFlow, "flowTuples").items);
      if one.Panicked? {
        FoldPanics(subFlows, k, step);
        return Panicked;
      }
      events := events + one.events;
      errors := errors + one.errors;
    }
    assert subFlows[..|subFlows|] == subFlows;
    return Done(events, errors);
  }

  /** The outermost loop, over the flows of the record. */
  method ConvertFlows(skeleton: CefEvent, flows: seq<Json>) returns (c: Conversion)
    ensures c == Fold(flows, FlowStep(skeleton))
  {
    ghost var step := FlowStep(skeleton);
    var events: seq<CefEvent> := [];
    var errors: seq<Error> := [];
    for j := 0 to |flows|
      invariant Fold(flows[..j], step) == Done(events, errors)
    {
      assert flows[..j + 1][..j] == flows[..j];
      var f := flows[j];
      if !f.Object? || !Member(f.fields, "rule").Str? || !Member(f.fields, "flows").Array? {
        FoldPanics(flows, j, step);
        return Panicked;
      }
      var flow := f.fields;
      var flowRule := Member(flow, "rule").s;
      var one := ConvertSubFlows(skeleton, flowRule, Member(flow, "flows").items);
      if one.Panicked? {
        FoldPanics(flows, j, step);
        return Panicked;
      }
      events := events + one.events;
      errors := errors + one.errors;
    }
    assert flows[..|flows|] == flows;
    return Done(events, errors);
  }

  /**
   * convertNetworkSecurityGroupFlowEventsToCEF: the events and errors of
   * the loops, or none at all when any step panicked.
   */
  method ConvertFlowEvents(r: AzureNsgEventRecord, startTime: Instant) returns (events: seq<CefEvent>, errors: seq<Error>)
    ensures (events, errors) == Recovered(FlowEventsConversion(r, startTime))
  {
    if r.time > startTime {
      var flows := Member(r.properties, "flows");
      if !flows.Array? {
        return [], [];
      }
      var c := ConvertFlows(NewCefEvent(r), flows.items);
      if c.Panicked? {
        return [], [];
      }
      return c.events, c.errors;
    }
    return [], [];
  }

  /** A *AzureNsgEventRecord: InitRecord and GetCEFList update the record in place. */
  class EventRecordRef {
    var record: AzureNsgEventRecord

    constructor (r: AzureNsgEventRecord)
      ensures record == r
    {
      record := r;
    }

    /** InitRecord. */
    method InitRecord()
      modifies this
      ensures record == InitializedRecord(old(record))
    {
      var m := RecordMatch(record);
      if m.None? {
        record := record.(initialized := true);
        return;
      }
      record := record.(subscriptionId := m.value.subscription);
      record := record.(resourceGroup := m.value.resourceGroup);
      record := record.(nsgName := m.value.name);
    }

    /** GetCEFList: initialise the record if it is not yet, then convert by operation name. */
    method GetCefList(startTime: Instant) returns (events: seq<CefEvent>, errors: seq<Error>)
      modifies this
      ensures record == if old(record).initialized then old(record) else InitializedRecord(old(record))
      ensures (events, errors) == CefList(record, startTime)
    {
      if !record.initialized {
        InitRecord();
      }
      if record.operationName == FlowEventsOperation {
        events, errors := ConvertFlowEvents(record, startTime);
      } else if record.operationName == GroupEventsOperation {
        events, errors := ConvertGroupEvents(record, startTime);
      } else {
        events, errors := [], [];
      }
    }
  }

  /** convertNetworkSecurityGroupEventsToCEF: not yet mapped, so no events and no errors. */
  method ConvertGroupEvents(r: AzureNsgEventRecord, startTime: Instant) returns (events: seq<CefEvent>, errors: seq<Error>)
    ensures events == [] && errors == []
  {
    events, errors := [], [];
  }

  // ------------------------------------------------------------ what the conversion yields

  /** A malformed tuple adds one error and no event, and its neighbours are converted as if it were not there. */
  lemma MalformedTupleSkipped(skeleton: CefEvent, rule: string, mac: Json, before: seq<Json>, tuple: string, after: seq<Json>)
    requires |Split(tuple, ',')| != 8
    ensures var step := TupleStep(skeleton, rule, mac);
      Fold(before + [Str(tuple)] + after, step)
        == Then(Then(Fold(before, step), Done([], [TupleTokens(tuple)])), Fold(after, step))
  {
    var step := TupleStep(skeleton, rule, mac);
    var xs := before + [Str(tuple)] + after;
    FoldSplit(xs, |before|, step);
    assert xs[..|before|] == before && xs[|before| + 1..] == after;
  }

  /**
   * A tuple whose time field does not even begin like a number still gives
   * its event, with time 0 and "start" "0", after an error for the field.
   */
  lemma UnparsableEpochStillEmits(skeleton: CefEvent, rule: string, mac: string, tuple: string)
    requires var f := Split(tuple, ',');
      |f| == 8 && (|f[0]| == 0 || !(IsDigit(f[0][0]) || f[0][0] == '+' || f[0][0] == '-'))
    ensures var f := Split(tuple, ',');
      var c := TupleConversion(skeleton, rule, Str(mac), Str(tuple));
      && c.Done? && |c.events| == 1 && c.errors == [EpochInvalid(f[0])]
      && c.events[0].time == Some(0)
      && "start" in c.events[0].extension && c.events[0].extension["start"] == "0"
  {
    var f := Split(tuple, ',');
    assert ParseInt(f[0]) == IntParse(0, false);
  }

  /** Severity and categoryOutcome follow the outcome letter: A gives 0 and Allow, D 6 and Deny, anything else 4 and Unknown. */
  lemma SeverityFollowsOutcome(skeleton: CefEvent, rule: string, mac: string, tuples: seq<string>)
    requires |tuples| == 8
    ensures var e := FlowTupleEvent(skeleton, rule, mac, tuples);
      && "categoryOutcome" in e.extension
      && (tuples[7] == "A" ==> e.severity == 0 && e.extension["categoryOutcome"] == "Allow")
      && (tuples[7] == "D" ==> e.severity == 6 && e.extension["categoryOutcome"] == "Deny")
      && (tuples[7] != "A" && tuples[7] != "D" ==> e.severity == 4 && e.extension["categoryOutcome"] == "Unknown")
  {
  }

  /** The MAC address goes to smac exactly for an outbound ("O") flow and to dmac otherwise. */
  lemma MacFollowsDirection(r: AzureNsgEventRecord, rule: string, mac: string, tuples: seq<string>)
    requires |tuples| == 8
    ensures var e := FlowTupleEvent(NewCefEvent(r), rule, mac, tuples);
      && ("smac" in e.extension <==> tuples[6] == "O")
      && ("dmac" in e.extension <==> tuples[6] != "O")
      && e.extension["deviceDirection"] == (if tuples[6] == "O" then "1" else "0")
  {
  }

  /**
   * The contents of a tuple's event: every value its extension holds for
   * the tuple, in terms of the eight fields, and the record keys of the
   * skeleton left as they were.
   */
  lemma FlowTupleEventFields(skeleton: CefEvent, rule: string, mac: string, tuples: seq<string>)
    requires |tuples| == 8
    ensures var ext := FlowTupleEvent(skeleton, rule, mac, tuples).extension;
      && FlowTupleEvent(skeleton, rule, mac, tuples).time == Some(ParseInt(tuples[0]).value)
      && "cs1" in ext && ext["cs1"] == rule && "cs1label" in ext && ext["cs1label"] == RuleLabel
      && "start" in ext && ext["start"] == Itoa(WrapInt64(1000 * ParseInt(tuples[0]).value))
      && "src" in ext && ext["src"] == tuples[1]
      && "dst" in ext && ext["dst"] == tuples[2]
      && "spt" in ext && ext["spt"] == tuples[3]
      && "dpt" in ext && ext["dpt"] == tuples[4]
      && "proto" in ext && ext["proto"] == Get(ProtocolMap, tuples[5], "")
      && "deviceDirection" in ext && ext["deviceDirection"] == (if tuples[6] == "O" then "1" else "0")
      && (tuples[6] == "O" ==> "smac" in ext && ext["smac"] == Grouped(mac) && SameKey(ext, skeleton.extension, "dmac"))
      && (tuples[6] != "O" ==> "dmac" in ext && ext["dmac"] == Grouped(mac) && SameKey(ext, skeleton.extension, "smac"))
      && "categoryOutcome" in ext
      && ext["categoryOutcome"] == (if tuples[7] == "A" then "Allow" else if tuples[7] == "D" then "Deny" else "Unknown")
  {
    FlowTupleEventRule(skeleton, rule, mac, tuples);
    FlowTupleEventEndpoints(skeleton, rule, mac, tuples);
    FlowTupleEventMac(skeleton, rule, mac, tuples);
    SeverityFollowsOutcome(skeleton, rule, mac, tuples);
  }

  /** Both maps hold key k or neither does, and with the same value. */
  predicate SameKey(a: map<string, string>, b: map<string, string>, k: string)
  {
    (k in a <==> k in b) && (k in a ==> a[k] == b[k])
  }

  /** The direction and the MAC address of a tuple's event, over any skeleton. */
  lemma FlowTupleEventMac(skeleton: CefEvent, rule: string, mac: string, tuples: seq<string>)
    requires |tuples| == 8
    ensures var ext := FlowTupleEvent(skeleton, rule, mac, tuples).extension;
      && "deviceDirection" in ext && ext["deviceDirection"] == (if tuples[6] == "O" then "1" else "0")
      && (tuples[6] == "O" ==> "smac" in ext && ext["smac"] == Grouped(mac) && SameKey(ext, skeleton.extension, "dmac"))
      && (tuples[6] != "O" ==> "dmac" in ext && ext["dmac"] == Grouped(mac) && SameKey(ext, skeleton.extension, "smac"))
  {
    FlowTupleEventDeviceDirection(skeleton, rule, mac, tuples);
    if tuples[6] == "O" {
      FlowTupleEventOutbound(skeleton, rule, mac, tuples);
    } else {
      FlowTupleEventInbound(skeleton, rule, mac, tuples);
    }
  }

  lemma FlowTupleEventDeviceDirection(skeleton: CefEvent, rule: string, mac: string, tuples: seq<string>)
    requires |tuples| == 8
    ensures var ext := FlowTupleEvent(skeleton, rule, mac, tuples).extension;
      "deviceDirection" in ext && ext["deviceDirection"] == (if tuples[6] == "O" then "1" else "0")
  {
  }

  lemma FlowTupleEventOutbound(skeleton: CefEvent, rule: string, mac: string, tuples: seq<string>)
    requires |tuples| == 8 && tuples[6] == "O"
    ensures var ext := FlowTupleEvent(skeleton, rule, mac, tuples).extension;
      "smac" in ext && ext["smac"] == Grouped(mac) && SameKey(ext, skeleton.extension, "dmac")
  {
  }

  lemma FlowTupleEventInbound(skeleton: CefEvent, rule: string, mac: string, tuples: seq<string>)
    requires |tuples| == 8 && tuples[6] != "O"
    ensures var ext := FlowTupleEvent(skeleton, rule, mac, tuples).extension;
      "dmac" in ext && ext["dmac"] == Grouped(mac) && SameKey(ext, skeleton.extension, "smac")
  {
  }

  lemma FlowTupleEventRule(skeleton: CefEvent, rule: string, mac: string, tuples: seq<string>)
    requires |tuples| == 8
    ensures var ext := FlowTupleEvent(skeleton, rule, mac, tuples).extension;
      && FlowTupleEvent(skeleton, rule, mac, tuples).time == Some(ParseInt(tuples[0]).value)
      && "cs1" in ext && ext["cs1"] == rule && "cs1label" in ext && ext["cs1label"] == RuleLabel
      && "start" in ext && ext["start"] == Itoa(WrapInt64(1000 * ParseInt(tuples[0]).value))
  {
  }

  lemma FlowTupleEventEndpoints(skeleton: CefEvent, rule: string, mac: string, tuples: seq<string>)
    requires |tuples| == 8
    ensures var ext := FlowTupleEvent(skeleton, rule, mac, tuples).extension;
      && "src" in ext && ext["src"] == tuples[1]
      && "dst" in ext && ext["dst"] == tuples[2]
      && "spt" in ext && ext["spt"] == tuples[3]
      && "dpt" in ext && ext["dpt"] == tuples[4]
      && "proto" in ext && ext["proto"] == Get(ProtocolMap, tuples[5], "")
  {
  }

  /** Each key a tuple does not write keeps the skeleton's value. */
  lemma FlowTupleEventKeeps(skeleton: CefEvent, rule: string, mac: string, tuples: seq<string>, k: string)
    requires |tuples| == 8 && k !in TupleKeys
    ensures var ext := FlowTupleEvent(skeleton, rule, mac, tuples).extension;
      (k in ext <==> k in skeleton.extension) && (k in ext ==> ext[k] == skeleton.extension[k])
  {
  }

  /** The keys a tuple writes into the skeleton's extension. */
  const TupleKeys: set<string> := {"cs1", "cs1label", "start", "src", "dst", "spt", "dpt", "proto",
    "deviceDirection", "dmac", "smac", "categoryOutcome"}

  /**
   * Against the other revision of the mapping (GetCefEventListFromNsg in
   * parser/cef.go): for the same tuple both give the same time, rule,
   * addresses, ports and protocol.
   */
  lemma AgreesWithListRevision(r: AzureNsgEventRecord, ref: NsgTypes.TupleRef)
    requires NsgTypes.WellFormed(ref)
    ensures var e, other := FlowTupleEvent(NewCefEvent(r), ref.rule, ref.mac, Split(ref.tuple, ',')), TupleEvent(ref);
      && e.time == other.time
      && SameAt(e, other, "cs1") && SameAt(e, other, "start")
      && SameAt(e, other, "src") && SameAt(e, other, "dst")
      && SameAt(e, other, "spt") && SameAt(e, other, "dpt")
      && SameAt(e, other, "proto")
  {
    var fields := Split(ref.tuple, ',');
    FlowTupleEventFields(NewCefEvent(r), ref.rule, ref.mac, fields);
    TupleEventOfFlowLog(ref);
    TupleEventStartValue(ref);
  }

  lemma TupleEventStartValue(ref: NsgTypes.TupleRef)
    ensures "start" in TupleEvent(ref).extension
    ensures TupleEvent(ref).extension["start"] == Itoa(WrapInt64(1000 * ParseInt(Split(ref.tuple, ',')[0]).value))
  {
  }

  /** Both events hold key k or neither does, and with the same value. */
  predicate SameAt(a: CefEvent, b: CefEvent, k: string)
  {
    SameKey(a.extension, b.extension, k)
  }

  /** A record whose "flows" property is missing or not an array gives no events and no errors, whatever else it holds. */
  lemma MissingFlowsGivesNothing(r: AzureNsgEventRecord, startTime: Instant)
    requires !Member(r.properties, "flows").Array?
    ensures CefList(r, startTime) == ([], [])
  {
  }

  // ------------------------------------------------------------ every event carries its record

  /** Every event of c satisfies p (nothing to check when c panicked). */
  ghost predicate AllEvents(c: Conversion, p: CefEvent -> bool)
  {
    c.Done? ==> forall i :: 0 <= i < |c.events| ==> p(c.events[i])
  }

  lemma {:induction false} FoldAllEvents<T>(xs: seq<T>, step: T -> Conversion, p: CefEvent -> bool)
    requires forall i :: 0 <= i < |xs| ==> AllEvents(step(xs[i]), p)
    ensures AllEvents(Fold(xs, step), p)
    decreases |xs|
  {
    if |xs| > 0 {
      var pre := xs[..|xs| - 1];
      assert forall i :: 0 <= i < |pre| ==> pre[i] == xs[i];
      FoldAllEvents(pre, step, p);
      var a, b := Fold(pre, step), step(xs[|xs| - 1]);
      if a.Done? && b.Done? {
        forall i | 0 <= i < |a.events| + |b.events|
          ensures p((a.events + b.events)[i])
        {
          if i >= |a.events| {
            assert (a.events + b.events)[i] == b.events[i - |a.events|];
          }
        }
      }
    }
  }

  function RecordFacts(r: AzureNsgEventRecord): CefEvent -> bool
  {
    e => CarriesRecord(r, e)
  }

  lemma TupleCarries(r: AzureNsgEventRecord, rule: string, mac: Json, flowTuple: Json)
    ensures AllEvents(TupleConversion(NewCefEvent(r), rule, mac, flowTuple), RecordFacts(r))
  {
    var c := TupleConversion(NewCefEvent(r), rule, mac, flowTuple);
    if c.Done? && |c.events| == 1 {
      var skeleton, tuples := NewCefEvent(r), Split(flowTuple.s, ',');
      assert c.events[0] == FlowTupleEvent(skeleton, rule, mac.s, tuples);
      SkeletonCarries(r);
      CarriesThroughTuple(r, skeleton, rule, mac.s, tuples);
    }
  }

  lemma SkeletonCarries(r: AzureNsgEventRecord)
    ensures CarriesRecord(r, NewCefEvent(r))
  {
  }

  lemma CarriesThroughTuple(r: AzureNsgEventRecord, skeleton: CefEvent, rule: string, mac: string, tuples: seq<string>)
    requires |tuples| == 8 && CarriesRecord(r, skeleton)
    ensures CarriesRecord(r, FlowTupleEvent(skeleton, rule, mac, tuples))
  {
    RecordKeysUntouched();
    var e := FlowTupleEvent(skeleton, rule, mac, tuples);
    assert e.cefVersion == skeleton.cefVersion && e.deviceVendor == skeleton.deviceVendor
      && e.deviceProduct == skeleton.deviceProduct && e.name == skeleton.name
      && e.deviceEventClassId == skeleton.deviceEventClassId;
    HoldsThroughTuple(skeleton, rule, mac, tuples, "deviceExternalId", r.systemId);
    HoldsThroughTuple(skeleton, rule, mac, tuples, "cs2", r.nsgName);
    HoldsThroughTuple(skeleton, rule, mac, tuples, "cs2label", "Azure NSG");
    HoldsThroughTuple(skeleton, rule, mac, tuples, "cs3", r.subscriptionId);
    HoldsThroughTuple(skeleton, rule, mac, tuples, "cs3label", "Subscription ID");
    HoldsThroughTuple(skeleton, rule, mac, tuples, "cs4", r.resourceGroup);
    HoldsThroughTuple(skeleton, rule, mac, tuples, "cs4label", "Resource Group");
  }

  lemma RecordKeysUntouched()
    ensures "deviceExternalId" !in TupleKeys
    ensures "cs2" !in TupleKeys && "cs2label" !in TupleKeys
    ensures "cs3" !in TupleKeys && "cs3label" !in TupleKeys
    ensures "cs4" !in TupleKeys && "cs4label" !in TupleKeys
  {
  }

  lemma HoldsThroughTuple(skeleton: CefEvent, rule: string, mac: string, tuples: seq<string>, k: string, v: string)
    requires |tuples| == 8 && Holds(skeleton, k, v) && k !in TupleKeys
    ensures Holds(FlowTupleEvent(skeleton, rule, mac, tuples), k, v)
  {
    FlowTupleEventKeeps(skeleton, rule, mac, tuples, k);
  }

  lemma SubFlowCarries(r: AzureNsgEventRecord, rule: string, subFlow: Json)
    ensures AllEvents(SubFlowConversion(NewCefEvent(r), rule, subFlow), RecordFacts(r))
  {
    if subFlow.Object? && Member(subFlow.fields, "flowTuples").Array? {
      var step := TupleStep(NewCefEvent(r), rule, Member(subFlow.fields, "mac"));
      var items := Member(subFlow.fields, "flowTuples").items;
      forall i | 0 <= i < |items|
        ensures AllEvents(step(items[i]), RecordFacts(r))
      {
        TupleCarries(r, rule, Member(subFlow.fields, "mac"), items[i]);
      }
      FoldAllEvents(items, step, RecordFacts(r));
    }
  }

  lemma FlowCarries(r: AzureNsgEventRecord, f: Json)
    ensures AllEvents(FlowConversion(NewCefEvent(r), f), RecordFacts(r))
  {
    if f.Object? && Member(f.fields, "rule").Str? && Member(f.fields, "flows").Array? {
      var step := SubFlowStep(NewCefEvent(r), Member(f.fields, "rule").s);
      var subFlows := Member(f.fields, "flows").items;
      forall i | 0 <= i < |subFlows|
        ensures AllEvents(step(subFlows[i]), RecordFacts(r))
      {
        SubFlowCarries(r, Member(f.fields, "rule").s, subFlows[i]);
      }
      FoldAllEvents(subFlows, step, RecordFacts(r));
    }
  }

  /**
   * Every event GetCEFList returns names the record: its category, its
   * operation, its system id, and the NSG, subscription and resource group
   * InitRecord derived, each under its fixed label.
   */
  lemma EventsCarryRecord(r: AzureNsgEventRecord, startTime: Instant)
    ensures forall i :: 0 <= i < |CefList(r, startTime).0| ==> CarriesRecord(r, CefList(r, startTime).0[i])
  {
    var c := FlowEventsConversion(r, startTime);
    var flows := Member(r.properties, "flows");
    if Calendar.After(r.time, startTime) && flows.Array? {
      var step := FlowStep(NewCefEvent(r));
      forall i | 0 <= i < |flows.items|
        ensures AllEvents(step(flows.items[i]), RecordFacts(r))
      {
        FlowCarries(r, flows.items[i]);
      }
      FoldAllEvents(flows.items, step, RecordFacts(r));
    }
    assert AllEvents(c, RecordFacts(r));
  }

  // ------------------------------------------------------------ filters

  /** AzureNsgEventRecords.After: the records strictly after afterTime, in order. */
  method After(slice: seq<AzureNsgEventRecord>, afterTime: Instant) returns (returnRecords: seq<AzureNsgEventRecord>)
    ensures returnRecords == KeepAfter(slice, RecordTime, afterTime)
  {
    returnRecords := [];
    for i := 0 to |slice|
      invariant returnRecords == KeepAfter(slice[..i], RecordTime, afterTime)
    {
      assert slice[..i + 1][..i] == slice[..i];
      if slice[i].time > afterTime {
        returnRecords := returnRecords + [slice[i]];
      }
    }
    assert slice[..|slice|] == slice;
  }

  /** AzureNsgEventRecords.Before as written: its loop is After's, so it keeps the records strictly after the time. */
  method Before(slice: seq<AzureNsgEventRecord>, afterTime: Instant) returns (returnRecords: seq<AzureNsgEventRecord>)
    ensures returnRecords == KeepAfter(slice, RecordTime, afterTime)
  {
    returnRecords := [];
    for i := 0 to |slice|
      invariant returnRecords == KeepAfter(slice[..i], RecordTime, afterTime)
    {
      assert slice[..i + 1][..i] == slice[..i];
      if slice[i].time > afterTime {
        returnRecords := returnRecords + [slice[i]];
      }
    }
    assert slice[..|slice|] == slice;
  }

  /** A record later than the time is what Before keeps, and an earlier one what it drops. */
  lemma BeforeKeepsLaterRecords(r: AzureNsgEventRecord, t: Instant)
    ensures r.time > t ==> KeepAfter([r], RecordTime, t) == [r]
    ensures r.time < t ==> KeepAfter([r], RecordTime, t) == []
  {
    assert [r][..0] == [];
  }

  /** Before as its name says: the records strictly before the time, in order. */
  method BeforeCorrected(slice: seq<AzureNsgEventRecord>, beforeTime: Instant) returns (returnRecords: seq<AzureNsgEventRecord>)
    ensures returnRecords == KeepBefore(slice, RecordTime, beforeTime)
  {
    returnRecords := [];
    for i := 0 to |slice|
      invariant returnRecords == KeepBefore(slice[..i], RecordTime, beforeTime)
    {
      assert slice[..i + 1][..i] == slice[..i];
      if slice[i].time < beforeTime {
        returnRecords := returnRecords + [slice[i]];
      }
    }
    assert slice[..|slice|] == slice;
  }

  /** The corrected filter keeps a record exactly when it is earlier than the time, so it never shares one with After. */
  lemma BeforeCorrectedMembers(slice: seq<AzureNsgEventRecord>, t: Instant, r: AzureNsgEventRecord)
    ensures r in KeepBefore(slice, RecordTime, t) <==> r in slice && r.time < t
    ensures !(r in KeepBefore(slice, RecordTime, t) && r in KeepAfter(slice, RecordTime, t))
  {
    KeepBeforeMembers(slice, RecordTime, t, r);
    KeepBeforeAfterDisjoint(slice, RecordTime, t, r);
  }

  // ------------------------------------------------------------ blob names

  /** getSourceFileName: the blob of the record's hour, "resourceId=<id>/y=YYYY/m=MM/d=DD/h=HH/m=00/PT1H.json". */
  function GetSourceFileName(r: AzureNsgEventRecord): string
  {
    SourceFileName(r.resourceId, r.time)
  }

  /** getSourceContainerName: a container for each of the two NSG operations, "" for any other. */
  function GetSourceContainerName(r: AzureNsgEventRecord): (name: string)
    ensures name != "" <==> r.operationName == FlowEventsOperation || r.operationName == GroupEventsOperation
    ensures name != "" ==> StartsWith(name, "insights-logs-networksecuritygroup")
  {
    if r.operationName == FlowEventsOperation then "insights-logs-networksecuritygroupflowevent"
    else if r.operationName == GroupEventsOperation then "insights-logs-networksecuritygroupevent"
    else ""
  }

  /** The name of a record's blob reads back as the record's hour and the resource's last path segment. */
  lemma SourceFileNameReadsBack(r: AzureNsgEventRecord)
    requires '/' in r.resourceId && 0 <= ToCivil(r.time).year <= 9999
    ensures LogTimeFromName(GetSourceFileName(r), ResourceIdName) == Ok(TruncateHour(r.time))
    ensures LoggedName(GetSourceFileName(r), ResourceIdName) == Ok(LastSegment(r.resourceId))
  {
    SourceFileNameRoundTrip(r.resourceId, r.time, ResourceIdName);
  }
}
