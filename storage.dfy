/**
 * The two values of the Azure storage SDK the parser reads: a blob's listing
 * entry and a byte range of a blob.
 */
module Storage {
  import opened Calendar

  /** storage.BlobRange: the byte offsets Start and End (uint64). */
  datatype BlobRange = BlobRange(start: nat, end: nat)

  /** The zero BlobRange{}. */
  const NoRange := BlobRange(0, 0)

  /** storage.Blob as far as the parser reads it: Name and the Etag, LastModified and ContentLength properties. */
  datatype Blob = Blob(name: string, etag: string, lastModified: Instant, contentLength: nat)

  /** The zero storage.Blob{}. */
  const NoBlob := Blob("", "", ZeroTime, 0)

  /**
   * getUnprocessedBlobRange: resume where the previous range ended, or at 0
   * when it ended at 0, and read up to the blob's content length.
   */
  function ResumeRange(previous: BlobRange, contentLength: nat): (r: BlobRange)
    ensures r.end == contentLength
    ensures previous.end != 0 ==> r.start == previous.end
    ensures previous.end == 0 ==> r.start == 0
  {
    if previous.end != 0 then BlobRange(previous.end, contentLength) else BlobRange(0, contentLength)
  }

  /** LoadBlob's range: the whole blob. */
  function WholeBlob(blob: Blob): BlobRange
  {
    BlobRange(0, blob.contentLength)
  }

  /** A first read resumes at 0: getUnprocessedBlobRange of a fresh checkpoint is LoadBlob's range. */
  lemma ResumeFresh(blob: Blob)
    ensures ResumeRange(NoRange, blob.contentLength) == WholeBlob(blob)
  {
  }

  /** Resuming is stable: after reading the range it gives, the next resumption starts at its end. */
  lemma ResumeChain(previous: BlobRange, n: nat, m: nat)
    requires n != 0
    ensures ResumeRange(ResumeRange(previous, n), m) == BlobRange(n, m)
  {
  }
}
