/**
 * The splice LoadBlobRange performs on the bytes of a partial blob read:
 * everything before the first `"time"` is dropped and the opening of a
 * records array is put in its place, so that a read starting in the middle
 * of the array decodes as a document again.
 */
module Payload {
  import opened Base
  import opened Text

  /** The bytes `"time"` that open a record. */
  const RecordStart: string := "\"time\""

  /** The bytes `{"records": [{ ` put in front of the first record. */
  const RecordsOpening: string := "{\"records\": [{ "

  /**
   * The payload handed to the JSON decoder, or None ("failed to find "time"
   * in JSON payload") when the bytes hold no `"time"`.
   */
  function Splice(content: string): (r: Option<string>)
    ensures r.None? <==> forall i :: 0 <= i <= |content| ==> !OccursAt(content, RecordStart, i)
    ensures r.Some? ==> exists k :: (OccursAt(content, RecordStart, k)
      && (forall i :: 0 <= i < k ==> !OccursAt(content, RecordStart, i))
      && r.value == RecordsOpening + content[k..])
  {
    var k := IndexOf(content, RecordStart);
    if k == -1 then None else Some(RecordsOpening + content[k..])
  }

  /** The opening itself holds no `"time"`, not even one that runs on into the bytes after it. */
  lemma OpeningHasNoRecordStart(rest: string, i: nat)
    requires |rest| > 0 && rest[0] == '"'
    requires i < |RecordsOpening|
    ensures !OccursAt(RecordsOpening + rest, RecordStart, i)
  {
    var s := RecordsOpening + rest;
    assert s[i] == RecordsOpening[i];
    assert i + 1 < |RecordsOpening| ==> s[i + 1] == RecordsOpening[i + 1];
    assert i + 1 == |RecordsOpening| ==> s[i + 1] == rest[0];
  }

  /** Splicing a spliced payload changes nothing: the first record now starts right after the opening. */
  lemma SpliceIdempotent(content: string)
    requires Splice(content).Some?
    ensures Splice(Splice(content).value) == Splice(content)
  {
    var k := IndexOf(content, RecordStart);
    var rest := content[k..];
    var s := RecordsOpening + rest;
    assert rest[..6] == RecordStart;
    assert s[|RecordsOpening|..|RecordsOpening| + 6] == rest[..6];
    forall i | 0 <= i < |RecordsOpening|
      ensures !OccursAt(s, RecordStart, i)
    {
      OpeningHasNoRecordStart(rest, i);
    }
    assert OccursAt(s, RecordStart, |RecordsOpening|);
    assert IndexOf(s, RecordStart) == |RecordsOpening|;
    assert s[|RecordsOpening|..] == rest;
  }

  /** Bytes in front of the first record, however they were cut, are dropped. */
  lemma SpliceDropsLeadIn(lead: string, records: string)
    requires StartsWith(records, RecordStart)
    requires forall i :: 0 <= i < |lead| ==> !OccursAt(lead + records, RecordStart, i)
    ensures Splice(lead + records) == Some(RecordsOpening + records)
  {
    var s := lead + records;
    assert s[|lead|..|lead| + 6] == records[..6];
    assert OccursAt(s, RecordStart, |lead|);
    assert IndexOf(s, RecordStart) == |lead|;
    assert s[|lead|..] == records;
  }
  /**
   * What LoadBlobRange hands on: the document decoded from the spliced
   * payload, or why there is none (no `"time"`, or the decoder refused the
   * payload).
   */
  function DecodeSpliced<T>(content: string, decode: string -> Option<T>): (r: Result<T>)
    ensures Splice(content).None? ==> r == Err(NoRecordStart)
    ensures r.Ok? <==> Splice(content).Some? && decode(Splice(content).value).Some?
    ensures r.Ok? ==> r.value == decode(Splice(content).value).value
    ensures r.Err? ==> r.error == NoRecordStart || r.error == DecodeFailed
  {
    match Splice(content)
    case None => Err(NoRecordStart)
    case Some(payload) =>
      match decode(payload)
      case None => Err(DecodeFailed)
      case Some(doc) => Ok(doc)
  }
}
