/** The values the log, the gateway and the client exchange (pkg/synclog/types.go). */
module Types {

  datatype Option<+T> = None | Some(value: T)

  // Payloads are opaque to the log, to the gateway and to the client runtime.
  type Bytes = seq<bv8>

  const DEFAULT_LIMIT := 100
  const MAX_LIMIT := 1000

  // A sequence number is a natural number; 0 means "before the first event".
  datatype Event = Event(
    streamId: string,
    seqNo: nat,
    payload: Bytes,
    payloadType: string,
    payloadVersion: nat,
    idempotencyKey: string,
    createdAtMs: int)

  datatype Batch = Batch(events: seq<Event>, seqStart: nat, seqEnd: nat, final: bool)

  // ttlDays = 0 keeps events forever, maxEvents = 0 keeps any number of them.
  datatype Retention = Retention(ttlDays: int, maxEvents: int)

  datatype AppendRequest = AppendRequest(
    streamId: string,
    payload: Bytes,
    payloadType: string,
    payloadVersion: nat,
    idempotencyKey: string,
    createdAtMs: int)

  datatype Snapshot = Snapshot(
    seqNo: nat,
    payloadType: string,
    payloadVersion: nat,
    checksum: string,
    payload: Bytes)

  function Max(a: nat, b: nat): nat { if a < b then b else a }

  function Min(a: nat, b: nat): nat { if a < b then a else b }

  /** A page size of zero or less means the default, and no page exceeds the maximum. */
  function NormalizeLimit(limit: int): (n: nat)
    ensures 1 <= n <= MAX_LIMIT
  {
    if limit <= 0 then DEFAULT_LIMIT else if limit > MAX_LIMIT then MAX_LIMIT else limit
  }

  /** Which page size a caller gets. */
  lemma PageSizes(limit: int)
    ensures limit <= 0 ==> NormalizeLimit(limit) == 100
    ensures 1 <= limit <= 1000 ==> NormalizeLimit(limit) == limit
    ensures limit > 1000 ==> NormalizeLimit(limit) == 1000
  {
  }
}
