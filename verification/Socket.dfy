/** The connection, as the client sees it: bytes the server is going to send, arriving in
    pieces of any size, and what the client has tried to send. */
module Network {
  import opened Bytes

  /** One call of send. */
  datatype Attempt = Attempt(bytes: seq<byte>, ok: bool)

  /** All bytes handed to send, one call behind the other. */
  function Offered(sends: seq<Attempt>): seq<byte> {
    if sends == [] then [] else Offered(sends[..|sends| - 1]) + sends[|sends| - 1].bytes
  }

  predicate AllSent(sends: seq<Attempt>) {
    forall a :: a in sends ==> a.ok
  }

  lemma OneMoreSend(sends: seq<Attempt>, a: Attempt)
    ensures Offered(sends + [a]) == Offered(sends) + a.bytes
    ensures AllSent(sends + [a]) <==> AllSent(sends) && a.ok
  {
    assert (sends + [a])[..|sends|] == sends;
  }

  class Socket {
    var incoming: seq<byte>
    ghost var sends: seq<Attempt>
    /** What the receives have delivered, one after the other. */
    ghost var arrivals: seq<seq<byte>>
    /** A receive for at least one byte has failed or has found the end of the stream. */
    ghost var ended: bool

    constructor (stream: seq<byte>)
      ensures incoming == stream && sends == [] && arrivals == [] && !ended
    {
      incoming, sends, arrivals, ended := stream, [], [], false;
    }

    /** recv: some bytes, at most `room` of them, or an error or end of stream. */
    method Receive(buf: array<byte>, at: nat, room: nat) returns (ret: int)
      requires at + room <= buf.Length
      modifies this`incoming, this`arrivals, this`ended, buf
      ensures ret <= room && ret <= |old(incoming)|
      ensures ret > 0 ==> incoming == old(incoming)[ret..] && arrivals == old(arrivals) + [old(incoming)[..ret]] &&
                          buf[..] == Splice(old(buf[..]), at, old(incoming)[..ret])
      ensures ret <= 0 ==> incoming == old(incoming) && arrivals == old(arrivals) && buf[..] == old(buf[..])
      ensures ended == (old(ended) || (ret <= 0 && room > 0))
    {
      var most := if room <= |incoming| then room else |incoming|;
      var n: nat :| n <= most;
      var failed: bool := *;
      ended := ended || ((failed || n == 0) && room > 0);
      if failed {
        return -1;
      }
      if n > 0 {
        Store(buf, at, incoming[..n]);
        arrivals := arrivals + [incoming[..n]];
        incoming := incoming[n..];
      }
      return n;
    }

    /** send: all of the bytes, or an error. */
    method Send(bytes: seq<byte>) returns (ret: int)
      modifies this`sends
      ensures sends == old(sends) + [Attempt(bytes, ret >= 0)]
    {
      var failed: bool := *;
      sends := sends + [Attempt(bytes, !failed)];
      return if failed then -1 else |bytes|;
    }
  }
}
