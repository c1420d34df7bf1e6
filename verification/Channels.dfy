/** One direction of an encrypted connection: a reliable first-in first-out byte stream that
    delivers in pieces of any size until the connection is cut. */
module Channels {
  import opened Bytes

  /** `written[..read]` was consumed, `written[read..delivered]` waits at the reader, the rest is
      in flight. Once `live` is false nothing more arrives; `closed` means the writer hung up. */
  datatype Channel = Channel(written: Text, delivered: nat, read: nat, live: bool, closed: bool) {

    predicate Valid() { read <= delivered <= |written| }

    function Write(bytes: Text): Channel { this.(written := written + bytes) }

    predicate CanDeliver(k: nat) { live && 0 < k && delivered + k <= |written| }

    function Deliver(k: nat): Channel { this.(delivered := delivered + k) }

    predicate CanRead(n: nat) { read + n <= delivered }

    function Front(n: nat): Text
      requires Valid() && CanRead(n)
    {
      written[read..read + n]
    }

    function Take(n: nat): Channel { this.(read := read + n) }

    /** A pending read fails when its bytes can no longer come. */
    predicate ReadFails(n: nat) {
      !CanRead(n) && (!live || (closed && delivered == |written|))
    }

    function Cut(): Channel { this.(live := false) }

    function Close(): Channel { this.(closed := true) }
  }

  const FRESH := Channel([], 0, 0, true, false)
}
