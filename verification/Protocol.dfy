/** The values that pass between the chunk parser and the message handlers. */
module Protocol {
  import opened Bytes

  const MAX_BUF_LEN := 65536
  const MAX_CHUNK_ID := 64
  const HANDSHAKE := 3073

  /** The states of a session, in the order of the enumeration. */
  datatype Status =
    | Init | Error | SendC0C1 | WaitS0S1 | SendC2 | WaitS2 | WaitChunk
    | WaitConnect | WaitCreateStream | WaitPlay | WaitData

  function Rank(s: Status): nat {
    match s
    case Init => 0
    case Error => 1
    case SendC0C1 => 2
    case WaitS0S1 => 3
    case SendC2 => 4
    case WaitS2 => 5
    case WaitChunk => 6
    case WaitConnect => 7
    case WaitCreateStream => 8
    case WaitPlay => 9
    case WaitData => 10
  }

  /** How a parse step or a handler ends.  `More` and `Failed` are the positive and
      negative return values, `Done` is zero.  `Overread` marks the point where the
      code reads bytes that lie behind the message it was given: what happens from
      there on is not determined by the message. */
  datatype Code = More | Done | Failed | Overread

  /** A reassembled message.  `absolute` says that its opening chunk was of format 0,
      `noted` is the header copy kept with the chunk stream (rtmp_fmt0_buf). */
  datatype Message = Message(csid: nat, mtype: byte, streamId: u32, timeStamp: u32, absolute: bool,
                             noted: seq<byte>, payload: seq<byte>)

  datatype Kind = Unset | Aac | H264

  /** What is handed to the transport-stream writer. */
  datatype Packet = Packet(kind: Kind, pictureMs: u32, decodeMs: u32, head: seq<byte>, data: seq<byte>, key: bool)

  /** What the client sends: the handshake, and the three bundles of commands. */
  datatype Bundle = C0C1 | C2 | Connect | CreateStream | Play

  /** What a handler does to the outside world. */
  datatype Output =
    | ToTs(packet: Packet)
    | ToFile(bytes: seq<byte>)
    | ToServer(bundle: Bundle, bytes: seq<byte>)

  /** The bytes for the server among the effects, one behind the other. */
  function ServerBytes(outs: seq<Output>): seq<byte> {
    if outs == [] then []
    else
      var last := outs[|outs| - 1];
      ServerBytes(outs[..|outs| - 1]) + if last.ToServer? then last.bytes else []
  }

  lemma OneMoreOutput(outs: seq<Output>, o: Output)
    ensures ServerBytes(outs + [o]) == ServerBytes(outs) + if o.ToServer? then o.bytes else []
  {
    assert (outs + [o])[..|outs|] == outs;
  }

  /** Effects elsewhere send nothing. */
  lemma {:induction false} NothingForServer(outs: seq<Output>, more: seq<Output>)
    requires forall o :: o in more ==> !o.ToServer?
    ensures ServerBytes(outs + more) == ServerBytes(outs)
    decreases |more|
  {
    if more == [] {
      assert outs + more == outs;
    } else {
      var front, last := more[..|more| - 1], more[|more| - 1];
      NothingForServer(outs, front);
      OneMoreOutput(outs + front, last);
      assert outs + more == outs + front + [last];
    }
  }
}
