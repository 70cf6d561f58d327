/** Values shared by every part of the repository model: optional values,
    results and errors, the HTTP status codes the store answers with, and the
    document shapes the repository reads and writes. */
module Base {

  datatype Option<+T> = None | Some(value: T) {
    /** `x ?? fallback` */
    function GetOr(fallback: T): T {
      if Some? then value else fallback
    }
  }

  /** The exceptions the repository lets escape to its caller. */
  datatype Error =
    | ValidationError          // a document without its key fields was handed to an add
    | StoreError(status: int)  // the store answered with a status the caller does not accept
    | Canceled                 // the cancellation token was found set at a loop head
    | ArgumentOutOfRange       // a List was asked for a negative capacity

  datatype Result<+T> = Success(value: T) | Failure(error: Error)

  const OK: int := 200
  const Created: int := 201
  const NoContent: int := 204
  const NotFound: int := 404
  const Conflict: int := 409
  const ServiceUnavailable: int := 503

  /** What EnsureSuccessStatusCode accepts. */
  predicate IsSuccessStatus(code: int) {
    200 <= code <= 299
  }

  /** The ASCII white-space characters of char.IsWhiteSpace. */
  predicate IsWhiteSpace(c: char) {
    c == ' ' || c == '\t' || c == '\n' || c == '\U{000B}' || c == '\U{000C}' || c == '\r'
  }

  /** string.IsNullOrWhiteSpace; a null string is modelled by the empty one. */
  predicate IsNullOrWhiteSpace(s: string) {
    forall i :: 0 <= i < |s| ==> IsWhiteSpace(s[i])
  }

  /** A stored document: its composite Id, its two key halves and the rest of
      its content, which the repository never looks into. */
  datatype Doc = Doc(id: string, partitionKey: string, documentId: string, body: string)

  /** The light (id, partitionKey) projection used for bulk deletes and reads. */
  datatype IdPartitionPair = IdPartitionPair(id: string, partitionKey: string)

  /** An (id, name) pair whose id serves as both halves of the key. */
  datatype IdNamePair = IdNamePair(id: string, name: string)

  /** How a cancellation token behaves over one loop: the checks at the loop
      heads are numbered from 0, and a token requested before check k is seen
      set by check k and every later one. */
  datatype Cancellation = NotRequested | RequestedBefore(check: nat)

  predicate CanceledAt(c: Cancellation, k: nat) {
    c.RequestedBefore? && c.check <= k
  }
}
