/**
 * Option, Result and the error values the parser package returns.
 */
module Base {

  datatype Option<T> = None | Some(value: T)

  /** Go's m[k]: the value stored under k, or the value type's zero value when k is absent. */
  function Get<K, V>(m: map<K, V>, k: K, zero: V): V
  {
    if k in m then m[k] else zero
  }

  /** A Go `(value, error)` pair where a non-nil error makes the value meaningless. */
  datatype Result<T> = Ok(value: T) | Err(error: Error)

  /**
   * The errors the core reports. Go builds them with fmt.Errorf; the model
   * keeps one value per kind of message instead of its text, and for some
   * kinds a datum that tells two errors of that kind apart. KeyMismatch
   * always carries the blob name, though only the messages of SaveToPath
   * and the sinks print it; those of getLogTimeFromName and getNsgName are
   * fixed text.
   */
  datatype Error =
    | KeyMismatch(key: string)            // a blob name the file-name pattern does not match
    | ResourceIdName                      // errResourceIdName
    | ResourceIdMismatch(id: string)      // a resourceId the record pattern does not match
    | TimeOutOfRange(field: string)       // time.Parse: "month", "day", "hour" or "minute" out of range
    | NoRecordStart                       // failed to find "time" in JSON payload
    | DecodeFailed                        // json.Unmarshal failed
    | MarshalFailed                       // json.Marshal failed
    | TupleTokens(tuple: string)          // unexpected # tokens in tuple, expected 8
    | EpochInvalid(field: string)         // strconv.ParseInt failed on this text (syntax or range)
    | ListFailed                          // listing the blob container failed
    | ReadFailed                          // reading a file failed
    | WriteFailed                         // writing a file failed

  /** Concatenation regroups freely. */
  lemma AppendAssoc<T>(x: seq<T>, y: seq<T>, z: seq<T>)
    ensures (x + y) + z == x + (y + z)
  {
  }
}
