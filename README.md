# nsg-parser, modelled in Dafny

nsg-parser reads Azure logs from blob storage and forwards them. It reads
Network Security Group (NSG) flow logs and Application Gateway access and
firewall logs, one JSON blob per resource and hour. It turns NSG flow
tuples into ArcSight Common Event Format (CEF) events, or into flat flow
log entries. The events go to a syslog server or to JSON files. A process
status file keeps, per blob, a checkpoint: how far the blob was read, the
last record time handled and the last event time stamp. The next run
resumes from there and reads only what was appended.

This project models the parser's core in Dafny and proves properties of it:
- the blob-name and resource-id parsers;
- the strictly-after record filters;
- the partial-range reload of a blob, with the splice that makes a read
  from the middle of a records array decode again;
- the conversions to CEF and to flat flow logs, and the CEF syslog format;
- the checkpoint each sink computes;
- the planning of which listed blobs to process;
- the drain of processed files into the status, and the status file's save
  and reload.

Each core Go file is one module:

| module | file | form |
|---|---|---|
| NsgTypes | parser/types.go | datatypes and functions; the range load is a method |
| ModelTypes | model/types.go | datatypes and functions; SaveToPath and ConvertToNsgFlowLog are methods |
| Cef | parser/cef.go | datatypes and functions; GetCefEventListFromNsg is a method with a loop |
| EventRecord, AccessRecord, FirewallRecord | parser/event_record.go, parser/appgw_access_record.go, parser/appgw_firewall_record.go | datatypes and functions; the CEF conversions are methods with loops |
| EventLogFile, AccessLogFile, FirewallLogFile | parser/event_log_file.go, parser/appgw_access_log_file.go, parser/appgw_firewall_log_file.go | classes for the log files and event logs that pointer receivers update; the getters are a view function |
| Common | parser/common.go | functions for the checkpoint record and the resource name |
| Client | parser/client.go | classes for the Azure client and the sinks; the planning, drain and sinks are methods |
| Job | parser/job.go | a class for the job; its loading, run and completion are methods |
| FileClient | parser/file_client.go | a method over the NSG event log file |

Shared modules hold what several files use:
- Base: Option, Result and the error values.
- Text: Go's strings, bytes and strconv on strings of characters, where one character stands for one byte.
- Calendar: Unix-second instants, the Gregorian calendar in UTC, and the layouts the parser formats and parses.
- Patterns: the blob-name and resource-id regular expressions, written as explicit searches.
- Storage: a blob's listing entry and a byte range.
- Payload: the splice of a partial read.
- MacAddress: the three identical copies of formatMac.
- JsonValues: the values encoding/json decodes into interface{}.
- Timeline: the strictly-after filter.
- Sorting: Go's string order and sort.Strings.
- BlobKeys: the hour bucket and name a blob name encodes.
- CefConversion: what the three per-record CEF conversions share.
- StatusMerge: the selection and drain folds that client.go and job.go both perform.

Behaviour of the code worth noting:
- In parser/cef.go (lines 172-174) and parser/types.go (lines 244-247), a
  flow tuple without exactly eight fields aborts the whole conversion with
  an error. It is not skipped. parser/event_record.go (lines 102-106)
  collects the error and goes on.
- The file sink in parser/client.go (lines 304-352) indexes the first and
  last pending tuple before it checks for zero. With nothing pending it
  panics; it never reaches line 329, where it would return nil without a
  checkpoint.
- parser/client.go (lines 156-191) carries the old checkpoint forward only
  for a listed blob that has not been modified since; other old entries are
  dropped. parser/job.go (lines 53-83) keeps every old entry.
- A status file that does not decode gives an error, and the status held
  by the caller is kept unchanged.

Assumptions about code not among the sources:
- cefDirectionMap and cefOutcomeMap, which parser/event_record.go uses at
  lines 124 and 133, are the tables directionMap and outcomeMap at
  parser/cef.go:67-75.
- LoggedResourceFileRegExp, which parser/common.go uses at line 87, is the
  same pattern as NsgFileRegExp (parser/event_log_file.go:16).
- NewNsgCEFEvent and the type CEFEvent, which parser/event_record.go uses at
  line 51, are NewNsgCefEvent and CefEvent of parser/cef.go (lines 86 and
  31).
- NewAzureCEFEventForProduct is NewNsgCEFEvent with the product replaced.

## Model

| member | source | states |
|---|---|---|
| Text.Split | parser/types.go:244 | strings.Split on ',': at least one piece, and no piece holds the separator |
| Text.IndexOf | parser/types.go:170 | bytes.Index: the first index at which the pattern occurs, or -1 when it occurs nowhere |
| Text.TrimSpace | parser/cef.go:132 | strings.TrimSpace: a slice of the input with only white space cut at each end, and neither end white space |
| Text.ParseInt | parser/types.go:248 | strconv.ParseInt(s, 10, 64): the value, clamped on overflow and 0 on a syntax error, always lies in the int64 range |
| Text.ParseIntItoa | parser/event_record.go:108 | ParseInt reads back every int64 that %d prints |
| Text.WrapInt64 | parser/event_record.go:112 | the two's-complement int64 result of a product: in range, and equal to the product when it fits |
| Text.JoinSplit | parser/types.go:244 | joining the pieces of a split back with the separator gives the string that was split |
| Text.SplitJoin | parser/cef.go:171 | splitting joined pieces that hold no separator recovers them |
| Text.SplitCount | parser/event_record.go:102-103 | a split has one piece more than there are separators, so eight fields means exactly seven commas |
| Text.Padded | parser/event_record.go:191 | a zero-padded decimal field of a time layout reads back as its number, at least as wide as the layout's width |
| Storage.ResumeRange | parser/appgw_access_log_file.go:226-234 | getUnprocessedBlobRange: start at the previous range's end (0 when that is 0), end at the blob's content length |
| Storage.ResumeFresh | parser/appgw_firewall_log_file.go:226-234 | a never-read file resumes at 0, which is LoadBlob's whole-blob range |
| Storage.ResumeChain | parser/client.go:354-362 | after a range ending at n != 0 is recorded, the next range starts at n |
| Payload.Splice | parser/types.go:170-175 | None exactly when no `"time"` occurs; otherwise the opening followed by the bytes from the first `"time"` |
| Payload.OpeningHasNoRecordStart | parser/types.go:174 | the opening put in front holds no `"time"` of its own |
| Payload.SpliceIdempotent | parser/event_log_file.go:103-108 | splicing an already spliced payload changes nothing |
| Payload.SpliceDropsLeadIn | parser/appgw_access_log_file.go:180-185 | whatever bytes of a cut record precede the first `"time"` are dropped |
| Payload.DecodeSpliced | parser/types.go:170-182 | NoRecordStart without a `"time"`, DecodeFailed when the decoder refuses, and otherwise the decoded document |
| JsonValues.Truncate | parser/appgw_access_record.go:96 | int(x) of a float64 truncates toward zero, on both signs |
| MacAddress.FormatMac | parser/types.go:297-308 | the loop's output is Grouped(s): the characters in order, pairs joined by ':' |
| MacAddress.GroupedSnoc | parser/common.go:96-107 | one more character adds the colon its index calls for, then the character |
| MacAddress.GroupedLength | parser/common.go:96-107 | n characters come out as n + (n - 1) / 2 characters |
| MacAddress.GroupedAt | model/types.go:208-219 | character j lands at index j + j / 2, and ':' follows every odd j but the last |
| MacAddress.UngroupGrouped | model/types.go:208-219 | dropping every third character restores the input (formatMac loses nothing) |
| MacAddress.GroupedPair | parser/types.go:303 | a leading pair is followed by ':' whenever more characters follow |
| MacAddress.SampleMac | parser/cef_test.go:20 | the sample address 000D3AF33854 formats as 00:0D:3A:F3:38:54 |
| Timeline.KeepAfter | parser/types.go:226-234 | Records.After: no longer than the input, and every kept element strictly after the time |
| Timeline.KeepAfterOrder | parser/event_record.go:165-173 | the kept elements are a subsequence of the input, in its order |
| Timeline.KeepAfterMembers | model/types.go:135-143 | an element is kept exactly when it occurs and its time is strictly after the cut-off |
| Timeline.KeepAfterAppend | parser/appgw_access_record.go:124-132 | filtering a concatenation filters each part |
| Timeline.KeepAfterAll | parser/appgw_firewall_record.go:132-140 | nothing is dropped when every element is after the cut-off |
| Timeline.KeepAfterNone | parser/types.go:228-232 | nothing is kept when no element is after the cut-off |
| Timeline.KeepBefore | parser/event_record.go:175-184 | the intended Before: every kept element strictly before the time |
| Timeline.KeepBeforeMembers | parser/event_record.go:175-184 | the intended Before keeps exactly the elements strictly before the time |
| Timeline.KeepBeforeAfterDisjoint | parser/appgw_access_record.go:134-142 | the intended Before and After never keep the same element |
| Calendar.ToCivil | parser/event_record.go:191 | the UTC fields of an instant are a valid date and time, and convert back to the instant |
| Calendar.CivilInjective | parser/types.go:199-201 | two valid dates and times at the same instant are equal |
| Calendar.CivilRoundTrip | parser/types.go:199-201 | converting valid fields to an instant and back gives the same fields |
| Calendar.TruncateHourFields | parser/event_record.go:191 | truncating to the hour zeroes minute and second and keeps the other fields |
| Calendar.ParseHourFields | parser/types.go:192-201 | time.Parse of the name's digit groups: Ok exactly when month, day, hour and minute are in range (day against the month's length), and then the instant of those fields; the day is checked after the hour and minute |
| Calendar.DayCheckedLast | parser/types.go:192-201 | with a valid month, an hour or a minute out of range is reported as such whatever the day, since time.Parse checks the day against its month last |
| Calendar.ParseHourPath | parser/event_record.go:190-193 | parsing the hour fields the path prints gives the instant truncated to its hour |
| Calendar.ParsePrintedHour | parser/event_log_file.go:145-162 | parsing the printed date and hour of a valid date gives the start of that hour |
| Calendar.StampsOfTruncatedHour | parser/types.go:118-121 | an instant and the start of its hour print the same hour stamp and hour path |
| Calendar.NextYear | parser/types.go:199-201 | the days before year y + 1 are those before y plus the length of y (leap years by the Gregorian rule) |
| Calendar.FindYear | parser/event_record.go:191 | the year whose days contain a day number |
| Calendar.FindMonth | parser/event_record.go:191 | the month of a year that contains a day of that year |
| Calendar.FourDigitYear | parser/event_record.go:191 | a year from 0 to 9999 prints as four digits that read back as the year |
| Calendar.TwoDigits | parser/event_record.go:191 | a number below 100 prints as two digits that read back as the number |
| Calendar.YearUnique | parser/types.go:199-201 | a day number falls within one year only |
| Calendar.MonthUnique | parser/types.go:199-201 | a day of a year falls within one month only |
| Patterns.MatchKey | parser/types.go:23 | NsgFileRegExp: a match exactly when some '/' segment window has the y=, m=, d=, h=, m= groups; the last such window is taken (greedy `.*`), and its digit groups have the widths the pattern demands |
| Patterns.LastWindow | parser/types.go:23 | the greatest index at which the date group fits, or None when it fits nowhere |
| Patterns.MatchHourKey | parser/event_record.go:190-193 | a name built from a prefix with a '/', an hour's date group and "/m=00/PT1H.json" matches, with the prefix's last segment and those digits |
| Patterns.HourKeySegments | parser/event_record.go:192 | the '/' segments of such a name are the prefix's followed by the six tags |
| Patterns.HourKeyWindow | parser/types.go:23 | in those segments the date group fits right after the prefix and nowhere later |
| Patterns.MatchResourceId | parser/types.go:24 | RecordRegExp: a match yields the submatches between SUBSCRIPTIONS/, /RESOURCEGROUPS/, /PROVIDERS/ and the last marker, read from a chain of markers occurring in order that lies, marker by marker, at or after every other such chain (the greedy groups); no match when no such chain exists |
| Patterns.GreatestChain | parser/types.go:24 | the greedy backward search finds a chain of the four markers exactly when one exists, and the one it finds dominates every other chain |
| Patterns.MatchResourceIdComplete | parser/types.go:24 | any resource id whose markers occur in that order does match |
| Patterns.MatchResourceIdGreatest | parser/types.go:24 | when a chain dominates every other chain, the submatches are exactly the text between its markers and after its last one |
| BlobKeys.LogTimeFromName | parser/types.go:185-201 | getLogTimeFromName: the mismatch error when the pattern fails, else the parse of the matched groups |
| BlobKeys.LoggedName | parser/types.go:204-212 | getNsgName / getLoggedResourceName: Ok exactly on a match, with the segment before the date group |
| BlobKeys.SourceFileNameMatch | parser/event_record.go:190-193 | the name getSourceFileName builds matches, with the resource's last segment and the hour's digits and minute "00" |
| BlobKeys.SourceFileNameRoundTrip | parser/event_record.go:190-193 | that name parses back to the record's time truncated to the hour and to the resource's last segment |
| BlobKeys.FebruaryThirtiethKey | parser/types.go:185-201 | a name of the right shape dated the 30th of February matches the pattern but its time fails with a day-out-of-range error |
| BlobKeys.FebruaryThirtieth | parser/types.go:199-201 | time.Parse refuses the 30th of February of every year |
| NsgTypes.GetLogTimeFromName | parser/types.go:185-201 | the KeyMismatch error when the name does not match, else the hour the name denotes |
| NsgTypes.GetNsgName | parser/types.go:204-212 | Ok exactly when the name matches, with submatch 1 |
| NsgTypes.NewNsgLogFile | parser/types.go:102-116 | the file's fields copied from the blob and its name; the error returned is getNsgName's alone, since the second `:=` overwrites the first |
| NsgTypes.NewNsgLogFileCorrected | parser/types.go:109-115 | the same file, with an error exactly when the time does not parse |
| NsgTypes.NewNsgLogFileLosesDateError | parser/types.go:109-115 | for a 30th-of-February name the as-written constructor reports nothing and keeps the zero time; the corrected one reports the day |
| NsgTypes.ShortNameOfSourceBlob | parser/types.go:118-121 | for the blob named after a record, the short name is the resource's last segment, '-', and the record's hour stamp |
| NsgTypes.SaveFileName | parser/types.go:123-131 | SaveToPath's file name: Ok exactly when the blob name matches, else the mismatch error |
| NsgTypes.SaveFileNameOfSourceBlob | parser/types.go:123-129 | for a blob named after a record, the file name holds the resource's last segment, the hour's digits with minute "00" and the modification time |
| NsgTypes.SaveToPath | parser/types.go:122-146 | nil exactly when the name matches, the log marshals and the write succeeds; each failure returns its own error in that order |
| NsgTypes.GetNsg | parser/types.go:270-277 | Ok exactly when RecordRegExp matches the resource id, with submatch 3 |
| NsgTypes.GetSubscription | parser/types.go:279-286 | Ok exactly when it matches, with submatch 1 |
| NsgTypes.GetResourceGroup | parser/types.go:288-295 | Ok exactly when it matches, with submatch 2 |
| NsgTypes.After | parser/types.go:226-234 | the loop returns KeepAfter of the records |
| NsgTypes.TuplesAfterFiltered | parser/types.go:238-239 | the tuples the loops visit are those of the records Records.After keeps |
| NsgTypes.AllTuplesAppend | parser/types.go:238-262 | the tuples of a concatenation of records are those of each part |
| NsgTypes.GatheredAppend | parser/types.go:238-262 | the tuples visited in a concatenation of records are those of each part, both as intended and as the entries read them as written |
| NsgTypes.FirstBad | parser/types.go:245-247 | the index of the first tuple without eight fields: every tuple before it is well formed |
| NsgTypes.FirstBadUnique | parser/types.go:245-247 | only one index has those two properties |
| NsgTypes.OutcomeAppend | parser/types.go:238-262 | converting a without error and then b is converting a + b |
| NsgTypes.OutcomeStop | parser/types.go:246 | a stop inside a is the stop of a + b |
| NsgTypes.SubFlowLogs | parser/types.go:243-260 | the innermost loop converts the sub-flow's tuples up to the first malformed one, returning its error; each entry holds the rule and resource id the range variables hold while it runs |
| NsgTypes.FlowLogs | parser/types.go:242-261 | the sub-flow loop converts the flow's tuples in order, stopping at the first malformed one, with the rule and resource id the range variables hold while it runs |
| NsgTypes.RecordLogs | parser/types.go:241-262 | as written: the flow loop converts the record's tuples in order, stopping at the first malformed one, and every entry's rule is the one the shared `flow` variable holds when the loop ends |
| NsgTypes.RecordLogsCorrected | parser/types.go:241-262 | the flow loop with each entry keeping its own flow's rule |
| NsgTypes.GetFlowLogsAfter | parser/types.go:236-268 | as written: one flat entry per tuple of the records strictly after the time, in order, up to the first tuple without eight fields, whose error is returned; nil when there is none; every entry's rule is what its record's `flow` variable last held (line 258) and every resource id what the shared `record` variable last held (line 249) |
| NsgTypes.GetFlowLogsAfterCorrected | parser/types.go:236-268 | the same entries, each with its own flow's rule and its own record's resource id |
| NsgTypes.FlowLogRetargeted | parser/types.go:249-258 | re-pointing an entry's rule and resource id changes those two fields and no other |
| NsgTypes.FirstBadWithRule | parser/types.go:245-247 | re-pointing the rules keeps every tuple's fields, so the loop stops at the same tuple |
| NsgTypes.OutcomeWithRule | parser/types.go:258 | pointing every entry's rule at one flow changes neither where the conversion stops nor its error |
| NsgTypes.OutcomeWithResourceId | parser/types.go:249 | pointing every entry's resource id at one record changes neither where the conversion stops nor its error |
| NsgTypes.AsWrittenTuplesShape | parser/types.go:238-262 | the as-written entries are the intended ones, as many, stopping at the same tuple, differing at most in the rule and in a resource id common to all |
| NsgTypes.SharedResourceIdHarmless | parser/types.go:249 | when every record has the same resource id, every as-written entry has its own record's resource id |
| NsgTypes.RuleReadFromLastFlow | parser/types.go:258 | a record with two flows under different rules: the first tuple's entry reads the second flow's rule |
| NsgTypes.ResourceIdReadFromLastRecord | parser/types.go:249 | a record after the time followed by one at or before it with another resource id: the entry reads the second record's resource id |
| NsgTypes.LogFileRef.LoadBlobRange | parser/types.go:155-183 | the log is replaced by the decoded document on success; on a missing `"time"` or a decode failure the error is returned and the file unchanged |
| Sorting.SortStrings | parser/cef.go:121 | sort.Strings: the result is ascending and a permutation of the input |
| Sorting.SortedUnique | parser/cef.go:121 | two ascending listings of the same strings are one and the same sequence |
| Sorting.LeastExists | parser/cef.go:121 | every non-empty set of keys has a least key |
| Sorting.SortedKeys | parser/cef.go:115-121 | the keys of a map in ascending order, each once |
| Sorting.SortedKeysMembers | parser/cef.go:115-121 | a string is in the listing exactly when it is a key |
| Sorting.SortListing | parser/cef.go:116-121 | sorting any listing of the keys, each once, gives the same sequence, whatever order the map gave them in |
| Sorting.InsertSorted | parser/cef.go:121 | inserting into an ascending sequence keeps it ascending |
| Sorting.Insert | parser/cef.go:121 | insertion adds exactly the new element to the multiset |
| Cef.FormatValue | parser/cef.go:138-141 | formatValue: the escaped text never starts with a bare '=' |
| Cef.UnescapeFormatValue | parser/cef.go:138-141 | reading `\=` back as '=' restores the value: the escape loses nothing |
| Cef.FormatValuePlain | parser/cef.go:138-141 | a value without '=' comes out unchanged, backslashes and line breaks included |
| Cef.FormatValueLength | parser/cef.go:139 | the escaped value is one character longer per '=' |
| Cef.ListKeys | parser/cef.go:115-120 | the first loop gathers every key of the map exactly once |
| Cef.AppendPairs | parser/cef.go:123-129 | the second loop appends "key=value " for each key in order whose value is not empty |
| Cef.ExtensionText | parser/cef.go:112-136 | the method's text is RenderExtension of the map: it depends on the map alone, not on the order its keys came in |
| Cef.PairsTextEmpty | parser/cef.go:125 | the appended text is empty exactly when every value is empty |
| Cef.ExtensionEmpty | parser/cef.go:131-135 | the text is "" exactly when every value is empty, and otherwise begins with '\|' |
| Cef.ExtensionJoined | parser/cef.go:126-132 | with keys and values that do not start or end with white space, the text is '\|' and the pairs joined by single spaces in ascending key order, line breaks inside values kept |
| Cef.SyslogText | parser/cef.go:96-110 | the line is the seven-field header and the extension text, preceded by the formatted time and '\|' exactly when the event has a time |
| Cef.HeaderJoined | parser/cef.go:58 | the template writes version, vendor, product, device version, class id, name and severity joined by '\|' |
| Cef.HeaderFields | parser/cef.go:58 | splitting the header at '\|' gives back the seven fields when none of them holds a '\|' |
| Cef.FormatterSplitsPrefix | parser/cef.go:147-160 | the intended formatter: the text before the first '\|' becomes the timestamp and the rest is kept whole |
| Cef.FormatterWithoutStamp | parser/cef.go:150-158 | with no '\|' both formatters use the current time and keep the content whole |
| Cef.FormatterReadsSyslogLine | parser/cef.go:96-110 | the intended formatter recovers the time SyslogText put in front of every line |
| Cef.FormattersAgree | parser/cef.go:59 | on a line with one '\|' and no line break, the greedy pattern and the intended split agree |
| Cef.FormatterAsWrittenMisplits | parser/cef.go:59 | as written, a time prefix followed by text holding another '\|' is not recovered: the greedy group runs to the last '\|' |
| Cef.FormatterAsWrittenMisreads | parser/cef.go:147-160 | as written, the formatter never puts the time SyslogText wrote into the syslog header |
| Cef.SubFlowEvents | parser/cef.go:169-201 | the innermost loop converts the sub-flow's tuples in order up to the first one without eight fields, whose error it returns |
| Cef.TupleEventOf | parser/cef.go:170-200 | the body of the innermost loop builds the tuple's event key by key |
| Cef.FlowEvents | parser/cef.go:168-202 | the sub-flow loop converts the flow's tuples in order, stopping at the first malformed one |
| Cef.RecordEvents | parser/cef.go:167-203 | the flow loop converts the record's tuples in order, stopping at the first malformed one |
| Cef.GetCefEventListFromNsg | parser/cef.go:162-209 | one event per tuple of the records strictly after the start time, in nesting order; at the first tuple without eight fields an empty list and an error naming it |
| Cef.TupleEventOfFlowLog | parser/cef.go:175-199 | a tuple's event and its flat flow log carry the same time, rule, addresses, ports, protocol, direction and outcome |
| Cef.TupleEventOfAsWrittenFlowLog | parser/cef.go:175-199 | against the entries GetFlowLogsAfter returns as written, the event and the entry agree on time, addresses, ports, protocol and outcome; the event's rule is the tuple's own, the entry's what the shared flow variable last held |
| Cef.TupleEventDirection | parser/cef.go:191-198 | the MAC address goes to smac exactly for an outbound flow and to dmac otherwise, and deviceDirection says which |
| Cef.TupleEventKeys | parser/cef.go:181-199 | the extension has the nine fixed keys and one MAC key, and no others |
| Cef.TupleEventStart | parser/cef.go:181 | "start" reads back as the tuple time in milliseconds |
| CefConversion.Recovered | parser/event_record.go:79-85 | after the deferred recover a panic returns no events and no errors; a finished run returns what it appended |
| CefConversion.FoldAppend | parser/event_record.go:88-147 | the loop over a + b is the loop over a followed by the loop over b |
| CefConversion.FoldDone | parser/event_record.go:88-147 | a loop finishes exactly when none of its iterations panics |
| CefConversion.FoldPanics | parser/event_record.go:87-95 | one failed type assertion panics the whole conversion, whatever comes before or after it |
| CefConversion.FoldSplit | parser/event_record.go:94-146 | each element contributes its own outcome between those of its neighbours |
| CefConversion.DecodedTime | parser/appgw_access_record.go:93 | the event has a time exactly when the record's time is not the zero instant, and then that time |
| EventRecord.InitializedRecord | parser/event_record.go:37-47 | on a match the three submatches are stored and initialized stays as it was; on a mismatch only initialized is set; nothing else changes |
| EventRecord.InitRecordIdempotent | parser/event_record.go:37-47 | a second InitRecord changes nothing, and a matching record is never marked initialized |
| EventRecord.SkeletonCarries | parser/event_record.go:50-62 | the skeleton holds the category as name, the operation as class id, the system id and the NSG, subscription and resource group with their labels |
| EventRecord.CefList | parser/event_record.go:64-76 | only flow events are converted; any other operation, and a record not strictly after the start time, gives no events and no errors |
| EventRecord.ConvertTuple | parser/event_record.go:95-145 | the innermost loop's body is TupleConversion of the tuple |
| EventRecord.ConvertTuples | parser/event_record.go:94-146 | the innermost loop folds the conversion over the sub-flow's tuples |
| EventRecord.ConvertSubFlows | parser/event_record.go:91-147 | the sub-flow loop folds over the flow's sub-flows |
| EventRecord.ConvertFlows | parser/event_record.go:88-148 | the flow loop folds over the record's flows |
| EventRecord.ConvertFlowEvents | parser/event_record.go:78-151 | the events and errors of the loops, or none at all after a panic |
| EventRecord.EventRecordRef.InitRecord | parser/event_record.go:37-47 | the record becomes InitializedRecord of what it was |
| EventRecord.EventRecordRef.GetCefList | parser/event_record.go:64-76 | the record is initialised only when it was not yet, and the result is CefList of it |
| EventRecord.ConvertGroupEvents | parser/event_record.go:186-188 | NSG group events give no events and no errors |
| EventRecord.MalformedTupleSkipped | parser/event_record.go:102-106 | a tuple without eight fields adds one error and no event, and its neighbours are converted as if it were absent |
| EventRecord.UnparsableEpochStillEmits | parser/event_record.go:108-114 | an unparsable time adds an error, and the event is still emitted with time 0 and start "0" |
| EventRecord.SeverityFollowsOutcome | parser/event_record.go:133-143 | A gives severity 0 and Allow, D 6 and Deny, anything else 4 and Unknown |
| EventRecord.MacFollowsDirection | parser/event_record.go:124-131 | the MAC address goes to smac exactly for an outbound flow and to dmac otherwise |
| EventRecord.FlowTupleEventFields | parser/event_record.go:98-142 | every value the extension holds for the tuple, in terms of its eight fields, over any skeleton: the rule, start, addresses, ports and protocol, deviceDirection "1" for an outbound flow and "0" otherwise, the grouped MAC address under smac or dmac by direction with the other key as the skeleton had it, and categoryOutcome Allow, Deny or Unknown |
| EventRecord.FlowTupleEventMac | parser/event_record.go:123-131 | over any skeleton: deviceDirection by direction, the grouped MAC address under smac for an outbound flow and dmac otherwise, and the other key as the skeleton had it |
| EventRecord.FlowTupleEventKeeps | parser/event_record.go:96 | each key the tuple does not write keeps the skeleton's value |
| EventRecord.AgreesWithListRevision | parser/event_record.go:112-120 | for one tuple this revision and GetCefEventListFromNsg give the same time, rule, addresses, ports and protocol |
| EventRecord.MissingFlowsGivesNothing | parser/event_record.go:87 | a record whose flows property is missing or not an array gives no events and no errors |
| EventRecord.EventsCarryRecord | parser/event_record.go:50-62 | every event GetCEFList returns names the record's category, operation, system id, NSG, subscription and resource group |
| EventRecord.After | parser/event_record.go:165-173 | the loop returns the records strictly after the time, in order |
| EventRecord.Before | parser/event_record.go:175-184 | as written, Before's loop is After's: it returns the records strictly after the time |
| EventRecord.BeforeKeepsLaterRecords | parser/event_record.go:178 | a record later than the time is kept and an earlier one dropped |
| EventRecord.BeforeCorrected | parser/event_record.go:175-184 | the intended Before: the records strictly before the time, in order |
| EventRecord.BeforeCorrectedMembers | parser/event_record.go:175-184 | the corrected Before keeps exactly the earlier records and never one that After keeps |
| EventRecord.GetSourceContainerName | parser/event_record.go:195-204 | a container exactly for the two NSG operations, "" for any other |
| EventRecord.SourceFileNameReadsBack | parser/event_record.go:190-193 | the blob name of a record reads back as its hour and the resource's last path segment |
| AccessRecord.InitializedRecord | parser/appgw_access_record.go:44-54 | on a match the three submatches are stored; on a mismatch only initialized is set; nothing else changes |
| AccessRecord.InitRecordIdempotent | parser/appgw_access_record.go:44-54 | a second InitRecord changes nothing |
| AccessRecord.CefList | parser/appgw_access_record.go:70-80 | never an error, at most one event, and one exactly for an access record strictly after the start time whose properties have their types |
| AccessRecord.ConvertAccessEvents | parser/appgw_access_record.go:82-110 | the method's events and errors are those of AccessConversion after the recover |
| AccessRecord.AccessRecordRef.InitRecord | parser/appgw_access_record.go:44-54 | the record becomes InitializedRecord of what it was |
| AccessRecord.AccessRecordRef.GetCefList | parser/appgw_access_record.go:70-80 | the record is initialised only when it was not yet, and the result is CefList of it |
| AccessRecord.AccessEventFields | parser/appgw_access_record.go:57-105 | the header names the gateway and the category; the extension holds the client, the request, the method twice, the ids and the marshalled properties |
| AccessRecord.AccessPortReadsBack | parser/appgw_access_record.go:96 | "spt" reads back as the port with its fraction dropped |
| AccessRecord.After | parser/appgw_access_record.go:124-132 | the records strictly after the time, in order |
| AccessRecord.Before | parser/appgw_access_record.go:134-142 | as written, the records strictly after the time, like After |
| AccessRecord.BeforeKeepsLaterRecords | parser/appgw_access_record.go:137 | a record later than the time is kept and an earlier one dropped |
| AccessRecord.BeforeCorrected | parser/appgw_access_record.go:134-142 | the intended Before: the records strictly before the time, in order |
| AccessRecord.BeforeCorrectedMembers | parser/appgw_access_record.go:134-142 | the corrected Before keeps exactly the earlier records and none of After's |
| AccessRecord.GetSourceContainerName | parser/appgw_access_record.go:149-156 | a container exactly for access records |
| AccessRecord.SourceFileNameReadsBack | parser/appgw_access_record.go:144-147 | the blob name of a record reads back as its hour and the gateway's name |
| FirewallRecord.InitializedRecord | parser/appgw_firewall_record.go:43-53 | on a match the three submatches are stored; on a mismatch only initialized is set; nothing else changes |
| FirewallRecord.InitRecordIdempotent | parser/appgw_firewall_record.go:43-53 | a second InitRecord changes nothing |
| FirewallRecord.CefList | parser/appgw_firewall_record.go:69-79 | never an error, at most one event, and one exactly for a firewall record strictly after the start time whose five properties are strings |
| FirewallRecord.ConvertFirewallEvents | parser/appgw_firewall_record.go:81-118 | the method's events and errors are those of FirewallConversion after the recover |
| FirewallRecord.FirewallRecordRef.InitRecord | parser/appgw_firewall_record.go:43-53 | the record becomes InitializedRecord of what it was |
| FirewallRecord.FirewallRecordRef.GetCefList | parser/appgw_firewall_record.go:69-79 | the record is initialised only when it was not yet, and the result is CefList of it |
| FirewallRecord.FirewallEventHeader | parser/appgw_firewall_record.go:56-67 | the header names the gateway and the category and carries the record's time |
| FirewallRecord.FirewallEventKeys | parser/appgw_firewall_record.go:60-113 | the extension's keys are the three ids, the request fields and their labels, and no others |
| FirewallRecord.FirewallEventFields | parser/appgw_firewall_record.go:94-113 | the client, the port as printed, the URI, the action, the message, the instance and the whole bag |
| FirewallRecord.After | parser/appgw_firewall_record.go:132-140 | the records strictly after the time, in order |
| FirewallRecord.Before | parser/appgw_firewall_record.go:142-150 | as written, the records strictly after the time, like After |
| FirewallRecord.BeforeKeepsLaterRecords | parser/appgw_firewall_record.go:145 | a record later than the time is kept and an earlier one dropped |
| FirewallRecord.BeforeCorrected | parser/appgw_firewall_record.go:142-150 | the intended Before: the records strictly before the time, in order |
| FirewallRecord.BeforeCorrectedMembers | parser/appgw_firewall_record.go:142-150 | the corrected Before keeps exactly the earlier records and none of After's |
| FirewallRecord.GetSourceContainerName | parser/appgw_firewall_record.go:157-164 | a container exactly for firewall records |
| FirewallRecord.SourceFileNameReadsBack | parser/appgw_firewall_record.go:152-155 | the blob name of a record reads back as its hour and the gateway's name |
| ModelTypes.GetLogTimeFromName | model/types.go:89-106 | the mismatch error when the name does not match, else the hour the name denotes |
| ModelTypes.GetNsgName | model/types.go:108-116 | Ok exactly when the name matches, with the segment before the date group |
| ModelTypes.NewNsgLogFile | model/types.go:36-50 | the fields copied from the blob and its name; the error returned is getNsgName's alone, since the second `:=` overwrites the first |
| ModelTypes.NewNsgLogFileCorrected | model/types.go:43-49 | the same file, with an error exactly when the time does not parse |
| ModelTypes.NewNsgLogFileLosesDateError | model/types.go:43-49 | for a 30th-of-February name the as-written constructor reports nothing and keeps the zero time; the corrected one reports the day |
| ModelTypes.SaveFileName | model/types.go:53-60 | the file name: Ok exactly when the blob name matches, else the mismatch error |
| ModelTypes.SaveFileNameOfSourceBlob | model/types.go:55-57 | for a blob named after a record, the name holds the resource's last segment, the hour's digits with minute "00" and the modification time |
| ModelTypes.SaveToPath | model/types.go:52-70 | as written: nil exactly when the name matches and the log marshals, whatever the write does |
| ModelTypes.SaveToPathCorrected | model/types.go:68-69 | the intended SaveToPath: nil exactly when the name matches, the log marshals and the write succeeds |
| ModelTypes.SaveToPathDropsWriteError | model/types.go:68-69 | a failed write goes unreported as written and is reported by the corrected version |
| ModelTypes.LogFileRef.LoadBlob | model/types.go:72-87 | a read failure or a decode failure returns its error and leaves the file as it was; otherwise NsgLog is the decoded content |
| ModelTypes.After | model/types.go:135-143 | the records strictly after the time, in order |
| ModelTypes.FlatLogsAppend | model/types.go:180-206 | converting a concatenation of tuples converts each part |
| ModelTypes.FlatLogsAt | model/types.go:185-200 | entry i of the conversion is the flat form of tuple i |
| ModelTypes.SubFlowFlatLogs | model/types.go:184-202 | the innermost loop converts each tuple of the sub-flow, in order |
| ModelTypes.FlowFlatLogs | model/types.go:183-203 | the sub-flow loop converts each tuple of the flow, in order |
| ModelTypes.RecordFlatLogs | model/types.go:182-204 | the flow loop converts each tuple of the record, in order |
| ModelTypes.ConvertToNsgFlowLog | model/types.go:180-206 | one flat entry per tuple of every record, with no time filter, in nesting order, and never an error; each tuple needs eight fields |
| ModelTypes.FlatLogFields | model/types.go:187-199 | each entry holds fields 1 to 7 in order, the rule, the resource id and the grouped MAC address; extra fields are ignored |
| ModelTypes.UnparsableEpochIsZero | model/types.go:188 | a time field that is not a number gives timestamp 0, and the entry is still made |
| ModelTypes.AgreesWithParserRevision | model/types.go:186-199 | on a tuple with eight fields this package's entry and the parser package's agree field for field |
| ModelTypes.AgreesWithParserAsWritten | model/types.go:186-199 | against the parser package's entries as GetFlowLogsAfter returns them, this package's entry agrees on every field but the two pointers; it keeps the tuple's own rule and resource id, the parser's reads the shared variables |
| Common.CreateProcessStatusFromLogfile | parser/common.go:49-62 | the status keeps the ten getter values: rebuilding the log file from it and the blob gives the file back |
| Common.StatusRoundTrip | parser/common.go:49-62 | a status survives being rebuilt into a log file with any blob |
| Common.StatusDeterminesAllButBlob | parser/common.go:49-62 | two log files with the same status differ at most in their blob |
| Common.GetLoggedResourceName | parser/common.go:86-94 | token 1 when the name matches, errResourceIdName otherwise |
| Common.LoggedResourceOfSourceFile | parser/common.go:86-94 | for the blob of a record's hour, the logged resource is the last segment of the resource id |
| EventLogFile.GetLogTimeFromName | parser/event_log_file.go:145-162 | errResourceIdName when the name does not match, else the hour the name denotes |
| EventLogFile.NewAzureNsgLogFile | parser/event_log_file.go:42-56 | the fields copied from the blob and its name; the error returned is getNsgName's alone, since the second `:=` overwrites the first |
| EventLogFile.NewAzureNsgLogFileCorrected | parser/event_log_file.go:49-55 | the same file, with an error exactly when the time does not parse |
| EventLogFile.NewAzureNsgLogFileLosesDateError | parser/event_log_file.go:49-55 | for a 30th-of-February name the as-written constructor reports nothing and keeps the zero time; the corrected one reports the day |
| EventLogFile.NewAzureNsgLogFileFromEventLog | parser/event_log_file.go:58-78 | no records: the zero log file and no error; otherwise the name, time, log time and NSG name from an initialised copy of record 0, the event log left as it was |
| EventLogFile.FromEventLogReadsBack | parser/event_log_file.go:69-82 | the name built from record 0 parses back without error to the record's hour, and the short name shows that hour |
| EventLogFile.AzureNsgLogFileRef.LoadBlobRange | parser/event_log_file.go:92-111 | the event log is replaced by the decoded one only when the splice and the decoding succeed; nothing else changes |
| EventLogFile.AzureNsgLogFileRef.LoadAzureNsgEventRecords | parser/event_log_file.go:114-117 | a payload that decodes replaces the event log; one that does not returns the error and changes nothing |
| EventLogFile.AzureNsgLogFileRef.LoadBlob | parser/event_log_file.go:85-88 | LoadBlobRange over the range from 0 to the content length |
| EventLogFile.ReadProcessStatus | parser/event_log_file.go:129-143 | an unreadable file gives an empty status and no error; an undecodable one gives an error; otherwise the decoded status |
| AccessLogFile.AzureAppGwAccessLog.GetRecords | parser/appgw_access_log_file.go:63-71 | the first call fills the cache with one entry per record, every entry the address of one loop variable that holds the last record; later calls return the cache unchanged; the records never change |
| AccessLogFile.AzureAppGwAccessLog.GetRecordsCorrected | parser/appgw_access_log_file.go:63-71 | with a variable per entry, the first call fills the cache with distinct entries holding the records in order; later calls return the cache unchanged |
| AccessLogFile.GetAppGwLogTimeFromName | parser/appgw_access_log_file.go:206-223 | errResourceIdName when the name does not match, else the hour the name denotes |
| AccessLogFile.NewLogFileView | parser/appgw_access_log_file.go:73-87 | the getters from the blob and its name; the error is getLoggedResourceName's, which overwrites the time parser's |
| AccessLogFile.NewLogFileViewCorrected | parser/appgw_access_log_file.go:80-86 | the same getters, with an error exactly when the time does not parse |
| AccessLogFile.NewLogFileLosesDateError | parser/appgw_access_log_file.go:80-86 | for a 30th-of-February name no error as written, and the day reported when corrected |
| AccessLogFile.FromRecordView | parser/appgw_access_log_file.go:95-110 | only the name, the modification time, the log time and the resource name are set, all from the first record |
| AccessLogFile.FromRecordReadsBack | parser/appgw_access_log_file.go:100-106 | the name built from the first record parses back to its hour, with no error |
| AccessLogFile.AzureAppGwLogFile.SetLastProcessed | parser/appgw_access_log_file.go:38-40 | only LastProcessed changes |
| AccessLogFile.AzureAppGwLogFile.SetLastRecordCount | parser/appgw_access_log_file.go:42-44 | only LastRecordCount changes |
| AccessLogFile.AzureAppGwLogFile.SetLastProcessedRecord | parser/appgw_access_log_file.go:46-48 | only LastProcessedRecord changes |
| AccessLogFile.AzureAppGwLogFile.SetLastProcessedRange | parser/appgw_access_log_file.go:50-52 | only LastProcessedRange changes |
| AccessLogFile.AzureAppGwLogFile.SetLastProcessedTimeStamp | parser/appgw_access_log_file.go:54-56 | only LastProcessedTimeStamp changes |
| AccessLogFile.AzureAppGwLogFile.GetUnprocessedBlobRange | parser/appgw_access_log_file.go:226-234 | from the end of the last range read to the content length |
| AccessLogFile.AzureAppGwLogFile.LoadBlobRange | parser/appgw_access_log_file.go:169-188 | on success the decoded records go into a new event log, or replace the records of the existing one; on failure nothing changes; the getters never change |
| AccessLogFile.AzureAppGwLogFile.LoadAzureNsgEventRecords | parser/appgw_access_log_file.go:191-194 | the payload is decoded into the event log the pointer refers to, a new one when it is nil |
| AccessLogFile.AzureAppGwLogFile.LoadBlob | parser/appgw_access_log_file.go:162-165 | LoadBlobRange over the whole blob |
| AccessLogFile.NewAzureAppGwLogFile | parser/appgw_access_log_file.go:73-87 | a fresh log file with no event log whose getters and error are NewLogFileView's |
| AccessLogFile.InitFirstEntry | parser/appgw_access_log_file.go:95-98 | the record a cache entry points to is initialised when it is not yet, and left as it is otherwise |
| AccessLogFile.FromFirstEntry | parser/appgw_access_log_file.go:95-110 | the record the first entry points to is initialised, and the new log file, referring to the event log, takes its getters from it |
| AccessLogFile.NewAzureAppGwLogFileFromEventLog | parser/appgw_access_log_file.go:89-111 | no records: the zero log file and no error; otherwise the getters come from the record the first cache entry points to, which is the last record whenever this call fills the cache; the records are left as they were |
| AccessLogFile.NewAzureAppGwLogFileFromEventLogCorrected | parser/appgw_access_log_file.go:89-111 | over a cache of copies, a call that fills the cache gives the getters FromRecordView describes for the first record |
| AccessLogFile.FromEventLogTakesLastRecord | parser/appgw_access_log_file.go:66-68 | when the first and last records differ in time, the file made from an aliased cache has the last record's modification time, not the first's |
| FirewallLogFile.AzureAppGwFirewallAccessLog.GetRecords | parser/appgw_firewall_log_file.go:63-71 | the first call fills the cache with one entry per record, every entry the address of one loop variable that holds the last record; later calls return the cache unchanged; the records never change |
| FirewallLogFile.AzureAppGwFirewallAccessLog.GetRecordsCorrected | parser/appgw_firewall_log_file.go:63-71 | with a variable per entry, the first call fills the cache with distinct entries holding the records in order; later calls return the cache unchanged |
| FirewallLogFile.GetAppGwFirewallLogTimeFromName | parser/appgw_firewall_log_file.go:206-223 | errResourceIdName when the name does not match, else the hour the name denotes |
| FirewallLogFile.NewLogFileView | parser/appgw_firewall_log_file.go:73-87 | the getters from the blob and its name; the error is getLoggedResourceName's, which overwrites the time parser's |
| FirewallLogFile.NewLogFileViewCorrected | parser/appgw_firewall_log_file.go:80-86 | the same getters, with an error exactly when the time does not parse |
| FirewallLogFile.NewLogFileLosesDateError | parser/appgw_firewall_log_file.go:80-86 | for a 30th-of-February name no error as written, and the day reported when corrected |
| FirewallLogFile.FromRecordView | parser/appgw_firewall_log_file.go:95-110 | only the name, the modification time, the log time and the resource name are set, all from the first record |
| FirewallLogFile.FromRecordReadsBack | parser/appgw_firewall_log_file.go:100-106 | the name built from the first record parses back to its hour, with no error |
| FirewallLogFile.AzureAppGwFirewallLogFile.SetLastProcessed | parser/appgw_firewall_log_file.go:38-40 | only LastProcessed changes |
| FirewallLogFile.AzureAppGwFirewallLogFile.SetLastRecordCount | parser/appgw_firewall_log_file.go:42-44 | only LastRecordCount changes |
| FirewallLogFile.AzureAppGwFirewallLogFile.SetLastProcessedRecord | parser/appgw_firewall_log_file.go:46-48 | only LastProcessedRecord changes |
| FirewallLogFile.AzureAppGwFirewallLogFile.SetLastProcessedRange | parser/appgw_firewall_log_file.go:50-52 | only LastProcessedRange changes |
| FirewallLogFile.AzureAppGwFirewallLogFile.SetLastProcessedTimeStamp | parser/appgw_firewall_log_file.go:54-56 | only LastProcessedTimeStamp changes |
| FirewallLogFile.AzureAppGwFirewallLogFile.GetUnprocessedBlobRange | parser/appgw_firewall_log_file.go:226-234 | from the end of the last range read to the content length |
| FirewallLogFile.AzureAppGwFirewallLogFile.LoadBlobRange | parser/appgw_firewall_log_file.go:169-188 | on success the decoded records go into a new event log, or replace the records of the existing one; on failure nothing changes; the getters never change |
| FirewallLogFile.AzureAppGwFirewallLogFile.LoadAzureNsgEventRecords | parser/appgw_firewall_log_file.go:191-194 | the payload is decoded into the event log the pointer refers to, a new one when it is nil |
| FirewallLogFile.AzureAppGwFirewallLogFile.LoadBlob | parser/appgw_firewall_log_file.go:162-165 | LoadBlobRange over the whole blob |
| FirewallLogFile.NewAzureAppGwFirewallLogFile | parser/appgw_firewall_log_file.go:73-87 | a fresh log file with no event log whose getters and error are NewLogFileView's |
| FirewallLogFile.InitFirstEntry | parser/appgw_firewall_log_file.go:95-98 | the record a cache entry points to is initialised when it is not yet, and left as it is otherwise |
| FirewallLogFile.FromFirstEntry | parser/appgw_firewall_log_file.go:95-110 | the record the first entry points to is initialised, and the new log file, referring to the event log, takes its getters from it |
| FirewallLogFile.NewAzureAppGwFirewallLogFileFromEventLog | parser/appgw_firewall_log_file.go:89-111 | no records: the zero log file and no error; otherwise the getters come from the record the first cache entry points to, which is the last record whenever this call fills the cache; the records are left as they were |
| FirewallLogFile.NewAzureAppGwFirewallLogFileFromEventLogCorrected | parser/appgw_firewall_log_file.go:89-111 | over a cache of copies, a call that fills the cache gives the getters FromRecordView describes for the first record |
| FirewallLogFile.FromEventLogTakesLastRecord | parser/appgw_firewall_log_file.go:66-68 | when the first and last records differ in time, the file made from an aliased cache has the last record's modification time, not the first's |
| Client.StatusFileNamesDistinct | parser/client.go:259-261 | two destination types never share a status file name |
| Client.ReadProcessStatus | parser/client.go:140-154 | an unreadable file gives an empty status and no error; an undecodable one gives an error; otherwise the decoded status |
| Client.SaveProcessStatus | parser/client.go:263-271 | nil exactly when the status marshals and the write succeeds, and then the file holds the JSON; a marshal error or a write error otherwise, nothing written |
| Client.QueuedMembers | parser/client.go:166-188 | a log file is queued exactly when it is planned for a listed blob after the floor that is new or modified since its checkpoint |
| Client.SkippedMembers | parser/client.go:177-181 | exactly the checkpoints of unmodified blobs after the floor are skipped, unchanged |
| Client.CarriedCheckpoints | parser/client.go:159-190 | every checkpoint carried forward is an unmodified blob's checkpoint, unchanged, under its own Name, and every such checkpoint's name is carried |
| Client.PlannedProgress | parser/client.go:167-185 | a new blob is queued with no progress, so its first read is the whole blob; a modified one keeps its listing's identity and takes the three progress fields from the checkpoint |
| Client.GetUnprocessedBlobRange | parser/client.go:354-362 | from where the previous range ended to the content length; both branches agree, since the other one is taken only at end 0 |
| Client.AzureClient.constructor | parser/client.go:54-70 | the data path given, one worker, no prefix, no status |
| Client.AzureClient.LoadProcessStatus | parser/client.go:131-138 | the status becomes what ReadProcessStatus returns, except on its error, which is returned with the status kept |
| Client.AzureClient.SelectDestination | parser/client.go:72-81 | the destination type is the given kind, so the status file is StatusFileName(kind); then the status becomes what ReadProcessStatus returns, except on its error, which is returned with the status kept; prefix, data path and concurrency unchanged |
| Client.AzureClient.LoadUnprocessedBlobs | parser/client.go:156-191 | a failed listing gives an error and nothing; otherwise the queued files are Queued and the status returned is Carried |
| Client.AzureClient.ProcessBlobsAfter | parser/client.go:194-257 | the carried status with each sent file stored under its blob's name, later ones winning, saved whatever the tasks' errors and read back when the save succeeds; when every sent file names a queued blob, the saved status has no key beyond the carried ones and the queued names, and every carried checkpoint of a blob not queued is kept |
| Client.SentQueuedSavedWithin | parser/client.go:219-232 | when the sinks send back queued files, the saved status has no key beyond the carried ones and the queued names, and keeps every carried checkpoint of a blob not queued |
| Client.PlanBlob | parser/client.go:167-188 | the loop body for one blob: the log file it queues and the checkpoint it carries, as Queued and Carried take them |
| Client.Drain | parser/client.go:219-232 | the drain stores each processed file under its blob's name, in the order received |
| Client.CountTaskErrors | parser/client.go:237-246 | the error count stops at 10 |
| Client.ErrorCountPrefix | parser/client.go:237-246 | the errors of the first tasks are never more than those of all |
| Client.ConvertedFlowLogs | parser/client.go:281 | the flow logs the sinks get are the flat forms of the pending tuples, in order, each with the rule and resource id its pointers read |
| Client.CheckpointResumes | parser/client.go:293-296 | after a checkpoint the next range starts where this one ended, and the blob's identity is kept |
| Client.NoPendingTuples | parser/client.go:281 | nothing is pending when every record is at or before the checkpoint or has no tuples |
| Client.NothingPendingAfterCheckpoint | parser/client.go:294-295 | for records in time order, a run after a checkpoint finds no pending tuple, as written and as intended |
| Client.LoadAndFilter | parser/client.go:274-284 | the range still to read, its load (an error leaves the file as it was) and the flow logs after the last record processed, as GetFlowLogsAfter returns them as written |
| Client.LoadAndFilterCorrected | parser/client.go:274-284 | the same, with each flow log keeping its own rule and resource id |
| Client.SyslogProcessNsgLogFile | parser/client.go:273-302 | as written: a load or tuple error is returned with nothing sent; with no tuple pending it panics at `filteredLogs[logCount-1]`; otherwise every flow log is sent, with the rule and resource id its pointers read, and the checkpoint recorded and sent once |
| Client.SyslogProcessNsgLogFileCorrected | parser/client.go:286-287 | the intended syslog sink: nil and nothing sent when no tuple is pending; each flow log keeps its own rule and resource id; the other cases as written |
| Client.OutputFileName | parser/client.go:322-334 | an error exactly when the blob name does not match; otherwise "nsgLog-", the six submatches and the two time stamps |
| Client.OutputFileNameOfSourceBlob | parser/client.go:322-334 | for a blob named after a record, the output name shows the resource's last segment, the record's hour and the two time stamps |
| Client.WriteOutput | parser/client.go:319-350 | a name error or a marshal error is returned with nothing written; otherwise the output is written and the checkpoint recorded and sent |
| Client.FileProcessNsgLogFile | parser/client.go:304-352 | as written: with no tuple pending it panics at `filteredLogs[0]` and its own zero check is never reached; otherwise as WriteOutput, over the flow logs with the rule and resource id their pointers read |
| Client.FileProcessNsgLogFileCorrected | parser/client.go:318-332 | the intended file sink: the zero check ahead of the indexing, so no pending tuple returns nil with nothing written; each flow log keeps its own rule and resource id |
| Job.FirstFailure | parser/job.go:58-62 | the first blob whose name does not parse: every blob before it parses |
| Job.QueuedMembers | parser/job.go:58-81 | a log file is queued exactly when it is planned for a blob listed before the first that fails |
| Job.QueuedStopsAtFailure | parser/job.go:59-62 | a failing blob stops the queue before it |
| Job.PlannedProgress | parser/job.go:63-79 | a new blob is queued with no progress; a modified one takes the three progress fields from its checkpoint; a blob not after the start time or unmodified is not queued |
| Job.TasksOf | parser/job.go:85-94 | one task per log file, in order |
| Job.ReloadedRoundTrip | parser/job.go:128-129 | a status whose JSON decodes back to itself survives Complete when the write succeeds |
| Job.ReloadedAfterFailedSave | parser/job.go:128-129 | after a failed save the old file is reloaded instead, and with no file the status becomes empty |
| Job.Job.constructor | parser/job.go:39-51 | the name "nsg-parser", the options and status given, nothing loaded |
| Job.Job.ProcessStatusFileName | parser/job.go:153-155 | "nsg-parser-status-" + the job's name + ".json" |
| Job.Job.LoadUnprocessedLogFiles | parser/job.go:53-83 | a failed listing returns its error; otherwise the queued files up to the first failing blob are appended and its error returned; the status is not touched |
| Job.Job.LoadTasks | parser/job.go:85-94 | one more task per loaded log file, in order, and nothing else changes |
| Job.Job.LogFileSink | parser/job.go:157-168 | each received file stored under its own name, in order, and nothing else changes |
| Job.Job.LoadProcessStatus | parser/job.go:134-141 | the status becomes what ReadProcessStatus returns, except on its error |
| Job.Job.Start | parser/job.go:97-99 | the start time and the RUNNING status, and nothing else changes |
| Job.Job.Complete | parser/job.go:125-132 | the end time, the status saved and read back with both errors ignored, no log files, and the COMPLETE status |
| Job.Job.Run | parser/job.go:96-116 | the tasks' files merged into the status, which is then saved and reloaded, and the job completes whatever the tasks' errors; when every sent file names a task's file, the saved status has no key beyond the old ones and the tasks' names, and every other entry is kept |
| Job.PlanListing | parser/job.go:58-82 | the loop: the files queued in listing order up to the first blob that does not parse, and that blob's error |
| Job.PlanLogFile | parser/job.go:59-79 | the loop body: the constructor's error, or the file to queue, if any |
| FileClient.UnprocessedRange | parser/file_client.go:18 | from where the previous range ended to the content length |
| FileClient.Prepared | parser/file_client.go:27 | the record GetCEFList converts keeps its time and operation |
| FileClient.EventUnix | parser/file_client.go:36-37 | an event's time in Unix seconds, the zero time for one without |
| FileClient.EventsOnlyAfter | parser/file_client.go:25-29 | records none of which is after the checkpoint give no events |
| FileClient.EventsOnlyFromFlows | parser/file_client.go:25-29 | records none of which holds flow events give no events |
| FileClient.EventsFromRecords | parser/file_client.go:25-29 | every event comes from a record strictly after the checkpoint and names that record |
| FileClient.NothingNewAfterCheckpoint | parser/file_client.go:53-54 | for records in time order, a run after a checkpoint finds no event |
| FileClient.CheckpointResumes | parser/file_client.go:55 | after a checkpoint the next run reads on from the end of the range just read |
| FileClient.CollectEvents | parser/file_client.go:25-29 | the loop appends each record's events in record order and drops its errors |
| FileClient.WriteEvents | parser/file_client.go:36-58 | a name error or a marshal error is returned with nothing written and the checkpoint unchanged; otherwise the output is written and the checkpoint recorded and sent once |
| FileClient.ConvertAndWrite | parser/file_client.go:25-58 | zero events: nil, nothing sent; otherwise as WriteEvents |
| FileClient.ProcessNsgLogFile | parser/file_client.go:16-60 | a load error is returned with nothing sent and the file unchanged; otherwise the file holds the decoded log and the rest is ConvertAndWrite |
| StatusMerge.KeptMembers | parser/client.go:166-188 | what a listing yields for each blob that qualifies is kept, and nothing else |
| StatusMerge.KeptLength | parser/job.go:58-81 | no more files are queued than blobs listed |
| StatusMerge.MergedKeys | parser/client.go:223 | after the drain the keys are the old ones and those of the results, and no others |
| StatusMerge.MergedLast | parser/job.go:162 | the last result with a key is what the drain leaves under that key |
| StatusMerge.MergedUntouched | parser/job.go:157-168 | a key no result has keeps its old entry, or stays absent |
| StatusMerge.MergedWithin | parser/client.go:219-232 | when every result's key is among the names handed out, the drain adds no other key and keeps every other entry |
| StatusMerge.FlattenedFrom | parser/file_client.go:26-29 | every element of the concatenation comes from some record's events |
| StatusMerge.FlattenedEmpty | parser/file_client.go:26-29 | records that each give no events give none together |

## Left out

- Blob storage, files and the network are not called. What a blob read, a file read or a listing returns is a parameter; what a write writes is an out-parameter. The Fatalf on a failed GetRange and the errors of ReadAll are not modelled.
- Syslog is not modelled: the dial and the template parse in SyslogClient.Initialize (parser/client.go:83-100), the transport, SendEvent's write (parser/client.go:109-120) and text/template rendering. The CEF line is rendered by explicit concatenation in the template's field order.
- FileClient.Initialize (parser/client.go:72-81) and the end of SyslogClient.Initialize (parser/client.go:102-106) are modelled by Client.AzureClient.SelectDestination, which sets the destination type and loads the status. The FileClient's own DataPath, which Initialize also sets, is not modelled, since paths are not.
- Concurrency is not modelled: the worker pool, goroutines, channels and the mutex. Processed files are drained in sequence, in the order received. Options.Concurrency and the client's concurrency field are kept but have no effect.
- encoding/json decoding and marshalling, and %v printing, are function parameters. The model keeps the decoded values they produce, as the JsonValues datatype.
- Time: instants are whole Unix seconds in UTC, and sub-second precision is dropped. Local-time rendering (CefTimeFormat, time.Now) is a string parameter.
- Floating point: a JSON number is held as an exact real (JsonValues.Number), and only JsonValues.Truncate turns one into an integer, toward zero. The rounding of the decimal text to a float64 is not modelled, nor is Go's int() of a NaN, an infinity or a float64 outside the int range.
- Metrics, logging and log levels are not modelled.
- File paths are not modelled: a file read or written is identified by its file name alone. The joins with the directory or data path (filepath.Join at parser/client.go:142, 268 and 339, parser/event_log_file.go:131, parser/types.go:138, parser/job.go:148 and parser/file_client.go:49) are left out, and AzureClient's dataPath and the job's options.dataPath are kept but never read.
- MacAddress.FormatMac: modelled on single-byte (ASCII) text, which hex MAC addresses are. Go's `for i, rune := range s` (parser/common.go:100, parser/types.go:301, model/types.go:212) compares the byte offset i with len(s)-1 in bytes, while the model counts characters; the two differ on multi-byte characters.
- AzureNsgLogFile's getUnprocessedBlobRange is called by parser/file_client.go but is not part of this model's sources. It is modelled by FileClient.UnprocessedRange with the same rule as the other log files: resume at the end of the last range read.
- Three files declare a ProcessStatus map: parser/client.go:52 (of NsgLogFile), parser/event_log_file.go:36 (of AzureNsgLogFile) and parser/common.go:79 (of LogFileProcessStatus). The first two also declare a ReadProcessStatus. The model keeps all three: Client uses its own, Job uses EventLogFile's as parser/job.go does, and Common.ProcessStatus is the map of saved checkpoints.
- Job.SaveProcessStatus (parser/job.go:143-151) is marshal-and-write, the same as the client's, and is modelled by the generic Client.SaveProcessStatus.
- Job.Job.Run: the tasks' errors are only logged by the source (parser/job.go:109-113), so Run takes none and the status does not depend on them.
- Job.Job.Run: results is a parameter, since the tasks are not run. That each result is a file a task was handed is a hypothesis of the ensures that bounds the saved keys, not a precondition.
- Client.AzureClient.ProcessBlobsAfter: results is a parameter, since the sinks are not run. That each result is a queued file is a hypothesis of the ensures that bounds the saved keys, not a precondition.
- The Rule and ResourceID pointers of NsgFlowLog (parser/types.go:249 and 258) are modelled by value. An entry reads the value its range variable holds when the loop that owns the variable ends, which is when the variable stops changing. GetFlowLogsAfterCorrected models the entries each pointing to a copy of their own values.
- ModelTypes.ConvertToNsgFlowLog: requires every tuple to have at least eight fields. The source indexes the eighth field unchecked and panics on a shorter tuple; that panic is not modelled.
- Job.Job.constructor: NewJob with a nil status map would make the first store in the drain panic (a write to a nil map). The model's status is always a map, so that panic is not modelled.
- The status value "RUNNING" is observable only through Job.Job.Start; the model keeps no other record of a running job.
- The regular expressions are modelled for the names and resource ids the parser is given. A blob name is searched for one date group. Backtracking behaviour on pathological inputs is not modelled.
- The command-line interface, the cmd package, parser/serve.go and main.go are not part of this model.

## Findings

| source | as written | input that shows it | evidently intended | confidence | as-written member | corrected member |
|---|---|---|---|---|---|---|
| parser/cef.go:147-160 | the pattern `^(.*)\|(.*)$` is greedy, so the time prefix is split off at the last '\|' of the line | a CEF line "Sep 19 08:26:10\|CEF:0\|...", whose CEF text holds further '\|' | the prefix before the first '\|' is the time stamp and the rest is the CEF text | not executed | Cef.FormatterAsWrittenMisreads | Cef.FormatterReadsSyslogLine |
| parser/event_record.go:175-184 | Before keeps the records strictly after the time, exactly as After does | records at times 1 and 3, time 2: Before keeps the record at 3 | Before keeps the records strictly before the time | not executed | EventRecord.BeforeKeepsLaterRecords | EventRecord.BeforeCorrectedMembers |
| parser/appgw_access_record.go:134-142 | Before keeps the records strictly after the time | records at times 1 and 3, time 2: Before keeps the record at 3 | Before keeps the records strictly before the time | not executed | AccessRecord.BeforeKeepsLaterRecords | AccessRecord.BeforeCorrectedMembers |
| parser/appgw_firewall_record.go:142-150 | Before keeps the records strictly after the time | records at times 1 and 3, time 2: Before keeps the record at 3 | Before keeps the records strictly before the time | not executed | FirewallRecord.BeforeKeepsLaterRecords | FirewallRecord.BeforeCorrectedMembers |
| parser/types.go:109-115 | the second `err` of NewNsgLogFile (getNsgName's) overwrites the time parser's | a well-formed blob name dated the 30th of February | the time parser's error is reported | not executed | NsgTypes.NewNsgLogFileLosesDateError | NsgTypes.NewNsgLogFileCorrected |
| model/types.go:43-49 | the second `err` of NewNsgLogFile overwrites the time parser's | a well-formed blob name dated the 30th of February | the time parser's error is reported | not executed | ModelTypes.NewNsgLogFileLosesDateError | ModelTypes.NewNsgLogFileCorrected |
| parser/event_log_file.go:49-55 | the second `err` of NewAzureNsgLogFile overwrites the time parser's | a well-formed blob name dated the 30th of February | the time parser's error is reported | not executed | EventLogFile.NewAzureNsgLogFileLosesDateError | EventLogFile.NewAzureNsgLogFileCorrected |
| parser/appgw_access_log_file.go:80-86 | the second `err` of NewAzureAppGwLogFile overwrites the time parser's | a well-formed blob name dated the 30th of February | the time parser's error is reported | not executed | AccessLogFile.NewLogFileLosesDateError | AccessLogFile.NewLogFileViewCorrected |
| parser/appgw_firewall_log_file.go:80-86 | the second `err` of NewAzureAppGwFirewallLogFile overwrites the time parser's | a well-formed blob name dated the 30th of February | the time parser's error is reported | not executed | FirewallLogFile.NewLogFileLosesDateError | FirewallLogFile.NewLogFileViewCorrected |
| parser/appgw_access_log_file.go:63-71 | every cache entry holds `&v`, the address of the one range variable (Go before version 1.22), so entry 0 points to the last record | an access log with two records of different times: the log file takes the second record's time | entry i points to a copy of record i, and the log file is made from the first record | not executed | AccessLogFile.FromEventLogTakesLastRecord | AccessLogFile.NewAzureAppGwLogFileFromEventLogCorrected |
| parser/appgw_firewall_log_file.go:63-71 | every cache entry holds `&v`, the address of the one range variable, so entry 0 points to the last record | a firewall log with two records of different times: the log file takes the second record's time | entry i points to a copy of record i, and the log file is made from the first record | not executed | FirewallLogFile.FromEventLogTakesLastRecord | FirewallLogFile.NewAzureAppGwFirewallLogFileFromEventLogCorrected |
| model/types.go:68-69 | SaveToPath drops the error of ioutil.WriteFile and returns nil | a write that fails | the write error is returned | not executed | ModelTypes.SaveToPathDropsWriteError | ModelTypes.SaveToPathCorrected |
| parser/types.go:258 | every entry's Rule points to the Rule of the one range variable `flow` of its record's loop (Go before version 1.22), so it reads the rule of the last flow visited | a record with two flows of one tuple each, under rules "a" and "b": both entries read "b" | each entry points to a copy of its own flow's rule | not executed | NsgTypes.RuleReadFromLastFlow | NsgTypes.GetFlowLogsAfterCorrected |
| parser/types.go:249 | every entry's ResourceID points to the ResourceID of the one range variable `record`, so it reads the resource id of the last record visited, after the time or not | a record after the time with one tuple, followed by a record at or before it with another resource id: the entry reads the second id | each entry points to a copy of its own record's resource id | not executed | NsgTypes.ResourceIdReadFromLastRecord | NsgTypes.GetFlowLogsAfterCorrected |
| parser/client.go:285-287 | the syslog sink indexes filteredLogs[logCount-1] with nothing pending | a blob whose records are all at or before the checkpoint: index -1, a panic | return nil with nothing sent | not executed | Client.SyslogProcessNsgLogFile | Client.SyslogProcessNsgLogFileCorrected |
| parser/client.go:318-329 | the file sink indexes filteredLogs[0] before its zero check, so the check is never reached | a blob whose records are all at or before the checkpoint: index 0 of an empty slice, a panic | return nil with nothing written | not executed | Client.FileProcessNsgLogFile | Client.FileProcessNsgLogFileCorrected |
