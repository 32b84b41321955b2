/** The client: the receive buffer, the table of chunk streams and the session. */
module Client {
  import opened Bytes
  import opened Protocol
  import opened Amf0
  import opened Audio
  import opened Video
  import opened MetaData
  import opened Commands
  import opened Handlers
  import opened Chunks
  import opened Network
  import opened Fragmentation
  import opened Session
  import Flv
  import FlvWriter
  import Splitter
  import Writers

  /** One entry of the table.  The buffer holds the message in flight; when that is complete
      it stays until the next message of several chunks replaces it. */
  datatype ChunkRecord = ChunkRecord(
    messageSize: nat, lastMessageSize: nat, messageStreamId: u32, messageType: byte, timeStamp: u32,
    messageBuf: array?<byte>, messageBufPos: nat, rtmpFmt0Buf: seq<byte>)

  /** The size of the buffer for a message: the next multiple of 64K above it. */
  function BufLen(size: nat): (n: nat)
    ensures n % 65536 == 0 && size < n <= size + 65536
  {
    (size + 65536) / 65536 * 65536
  }

  /** How far a receive loop has come: the handshake is not over; connect could not be
      sent; or the stream behind the handshake has been fed to the parser in pieces. */
  datatype Stage = Handshaking | Refused | Connected(pieces: seq<seq<byte>>)

  /** What the receives have delivered, with the 3073 bytes of the handshake cut off: each
      receive behind them is one piece, and the one that completes them begins the first. */
  function PiecesOf(arrivals: seq<seq<byte>>): seq<seq<byte>> {
    if arrivals == [] then []
    else
      var front, last := arrivals[..|arrivals| - 1], arrivals[|arrivals| - 1];
      var n := |Flatten(front)|;
      if n + |last| < HANDSHAKE then []
      else if n < HANDSHAKE then [last[HANDSHAKE - n..]]
      else PiecesOf(front) + [last]
  }

  /** The bytes rcvd came in these receives, and so did the pieces fed to the parser. */
  ghost predicate Came(arrivals: seq<seq<byte>>, rcvd: seq<byte>, stage: Stage) {
    rcvd == Flatten(arrivals) && (stage.Connected? ==> stage.pieces == PiecesOf(arrivals))
  }

  /** One more receive, or none, is one more piece, or none. */
  ghost predicate NextStage(rcvd: seq<byte>, got: seq<byte>, stage: Stage, now: Stage) {
    if stage.Connected? then now == Connected(if got == [] then stage.pieces else stage.pieces + [got])
    else now.Connected? ==> |rcvd| < HANDSHAKE <= |rcvd + got| && now.pieces == [(rcvd + got)[HANDSHAKE..]]
  }

  ghost function With(arrivals: seq<seq<byte>>, got: seq<byte>): seq<seq<byte>> {
    if got == [] then arrivals else arrivals + [got]
  }

  lemma CameOn(arrivals: seq<seq<byte>>, rcvd: seq<byte>, got: seq<byte>, stage: Stage, now: Stage)
    requires Came(arrivals, rcvd, stage) && NextStage(rcvd, got, stage, now)
    requires stage.Connected? ==> |rcvd| >= HANDSHAKE
    requires !stage.Connected? && now.Connected? ==> got != []
    ensures Came(With(arrivals, got), rcvd + got, now)
  {
    if got != [] {
      var all := arrivals + [got];
      assert all[..|all| - 1] == arrivals;
      FlattenOne(arrivals, got);
      if !stage.Connected? && now.Connected? {
        assert (rcvd + got)[HANDSHAKE..] == got[HANDSHAKE - |rcvd|..];
      }
    } else {
      assert rcvd + got == rcvd;
    }
  }

  const NO_HEADER: seq<byte> := [0, 0, 0, 0, 0, 0, 0, 0, 0, 0, 0, 0]

  /** A chunk stream on which nothing has been received. */
  function NoStream(): Stream {
    Stream(0, 0, 0, 0, 0, false, NO_HEADER, [])
  }

  /** Table entry and abstract chunk stream agree: for a message in flight, position and
      remaining size add up to the size, the buffer is the next multiple of 64K above it,
      and its prefix is what has been received. */
  ghost predicate Rep(rec: ChunkRecord, st: Stream)
    reads if rec.messageBuf == null then {} else {rec.messageBuf}
  {
    && rec.messageSize == st.size && rec.lastMessageSize == st.left
    && rec.messageStreamId == st.streamId && rec.messageType == st.mtype && rec.timeStamp == st.timeStamp
    && rec.rtmpFmt0Buf == st.noted
    && (st.left > 0 ==>
          && rec.messageBuf != null && rec.messageBuf.Length == BufLen(st.size)
          && rec.messageBufPos == |st.got|
          && rec.messageBuf[..][..rec.messageBufPos] == st.got)
  }

  /** The state behind the handshake. */
  ghost function Started(s: State, status: Status): (r: State)
    requires Chunks.Valid(s)
    ensures Chunks.Valid(r) && r.streams == s.streams
  {
    s.(ctl := s.ctl.(status := status))
  }

  /** C0 and C1: version 3, four zeros, a clock reading, zeros. */
  function HelloBytes(): (r: seq<byte>)
    ensures |r| == 1537 && r[0] == 3
  {
    [3] + seq(1536, _ => 0)
  }

  /** C2: four zeros, a clock reading, zeros. */
  function EchoBytes(): (r: seq<byte>)
    ensures |r| == 1536
  {
    seq(1536, _ => 0)
  }

  const HELLO: Output := ToServer(C0C1, HelloBytes())
  const ECHO: Output := ToServer(C2, EchoBytes())

  class RtmpClient {
    // configuration
    const saveFlv: bool
    const fileOpens: bool
    const rtmpApp: appname
    const rtmpUrl: urltext
    const rtmpStream: streamname
    const rtmpSocket: Socket

    // buffers
    const buffer: array<byte>
    const rtmpChunk: array<ChunkRecord>
    const videoHeadData: array<byte>
    const audioHeadData: array<byte>

    // session
    var rtmpStatus: Status
    var rtmpLastVideoTimestamp: u32
    var rtmpLastAudioTimestamp: u32
    var rtmpLastMessageType: byte
    var rtmpNowStreamId: seq<byte>
    var rtmpChunkMaxSize: u32
    var acknowledgementSize: u32
    var bandwidth: u32
    var parsePos: nat
    var flvOpen: bool
    var videoHeadDataLen: nat
    var audioHeadDataLen: nat

    // what had been sent when the client was made
    ghost const before: seq<byte>

    // the abstract chunk streams, the buffers of the table, delivered messages, effects
    ghost var streams: seq<Stream>
    ghost var bufs: set<array<byte>>
    ghost var log: seq<Message>
    ghost var outs: seq<Output>

    ghost predicate Shape()
      reads this`streams, this`bufs, this`videoHeadDataLen, this`audioHeadDataLen, this`rtmpNowStreamId
    {
      && buffer.Length == MAX_BUF_LEN && rtmpChunk.Length == MAX_CHUNK_ID == |streams|
      && videoHeadData.Length == 1024 && audioHeadData.Length == 1024
      && videoHeadDataLen <= 1024 && (audioHeadDataLen == 0 || audioHeadDataLen == 7)
      && |rtmpNowStreamId| == 8
      && buffer != videoHeadData && buffer != audioHeadData && videoHeadData != audioHeadData
      && buffer !in bufs && videoHeadData !in bufs && audioHeadData !in bufs
    }

    /** Exactly the bytes recorded among the effects have been handed to the connection,
        in that order. */
    ghost predicate Linked()
      reads this`outs, rtmpSocket`sends
    {
      Offered(rtmpSocket.sends) == before + ServerBytes(outs)
    }

    ghost predicate Valid()
      reads this`streams, this`bufs, this`videoHeadDataLen, this`audioHeadDataLen, this`rtmpNowStreamId, this`outs,
            rtmpChunk, bufs, rtmpSocket`sends
      ensures Valid() ==> Shape() && Linked()
    {
      && Shape() && Linked()
      && (forall i :: 0 <= i < MAX_CHUNK_ID && rtmpChunk[i].messageBuf != null ==> rtmpChunk[i].messageBuf in bufs)
      && (forall i, j :: 0 <= i < j < MAX_CHUNK_ID && rtmpChunk[i].messageBuf != null ==>
            rtmpChunk[i].messageBuf != rtmpChunk[j].messageBuf)
      && (forall i :: 0 <= i < MAX_CHUNK_ID ==> Rep(rtmpChunk[i], streams[i]))
    }

    ghost function Ctl(): Control
      reads this`streams, this`bufs, this`videoHeadDataLen, this`audioHeadDataLen, this`rtmpNowStreamId,
            this`rtmpStatus, this`rtmpChunkMaxSize, this`acknowledgementSize, this`bandwidth, this`flvOpen,
            videoHeadData, audioHeadData
      requires Shape()
    {
      Control(saveFlv, fileOpens, rtmpStream, rtmpStatus, rtmpChunkMaxSize, acknowledgementSize, bandwidth,
              rtmpNowStreamId, videoHeadData[..videoHeadDataLen],
              AudioState(audioHeadData[..7], audioHeadDataLen == 7), flvOpen)
    }

    ghost function View(): (s: State)
      reads this`streams, this`bufs, this`videoHeadDataLen, this`audioHeadDataLen, this`rtmpNowStreamId,
            this`rtmpStatus, this`rtmpChunkMaxSize, this`acknowledgementSize, this`bandwidth, this`flvOpen,
            videoHeadData, audioHeadData, this`rtmpLastAudioTimestamp, this`rtmpLastVideoTimestamp,
            this`rtmpLastMessageType
      requires Shape()
      ensures Chunks.Valid(s)
    {
      State(streams, rtmpLastAudioTimestamp, rtmpLastVideoTimestamp, rtmpLastMessageType, Ctl())
    }

    /** A new client: everything is zero. */
    constructor (saveFlv: bool, fileOpens: bool, app: appname, url: urltext, stream: streamname, socket: Socket)
      ensures Valid() && fresh(buffer) && fresh(rtmpChunk) && fresh(videoHeadData) && fresh(audioHeadData)
      ensures bufs == {} && log == [] && outs == [] && rtmpSocket == socket && rtmpStatus == Init
      ensures this.saveFlv == saveFlv && this.fileOpens == fileOpens
      ensures rtmpApp == app && rtmpUrl == url && rtmpStream == stream
      ensures forall i :: 0 <= i < MAX_CHUNK_ID ==> streams[i] == NoStream()
      ensures before == Offered(socket.sends) && parsePos == 0
      ensures rtmpLastAudioTimestamp == 0 && rtmpLastVideoTimestamp == 0 && rtmpLastMessageType == 0
      ensures Ctl() == Control(saveFlv, fileOpens, stream, Init, 0, 0, 0, Flv.ZERO, [],
                               AudioState([0, 0, 0, 0, 0, 0, 0], false), false)
    {
      hide Offered;
      this.saveFlv, this.fileOpens := saveFlv, fileOpens;
      rtmpApp, rtmpUrl, rtmpStream, rtmpSocket := app, url, stream, socket;
      buffer := new byte[MAX_BUF_LEN](_ => 0);
      rtmpChunk := new ChunkRecord[MAX_CHUNK_ID](_ => ChunkRecord(0, 0, 0, 0, 0, null, 0, NO_HEADER));
      videoHeadData := new byte[1024](_ => 0);
      audioHeadData := new byte[1024](_ => 0);
      rtmpStatus, parsePos := Init, 0;
      rtmpLastVideoTimestamp, rtmpLastAudioTimestamp, rtmpLastMessageType := 0, 0, 0;
      rtmpNowStreamId := Flv.ZERO;
      rtmpChunkMaxSize, acknowledgementSize, bandwidth := 0, 0, 0;
      flvOpen, videoHeadDataLen, audioHeadDataLen := false, 0, 0;
      streams, bufs, log, outs := seq(MAX_CHUNK_ID, _ => NoStream()), {}, [], [];
      before := Offered(socket.sends);
      new;
      hide Offered, Rep;
      assert before + [] == before;
      assert audioHeadData[..7] == [0, 0, 0, 0, 0, 0, 0];
      NothingHeld();
    }

    lemma NothingHeld()
      ensures Rep(ChunkRecord(0, 0, 0, 0, 0, null, 0, NO_HEADER), NoStream())
    {
    }

    /** Replaces a table entry together with the chunk stream it stands for. */
    method SetRecord(i: nat, rec: ChunkRecord, ghost st: Stream)
      requires Valid() && i < MAX_CHUNK_ID && Rep(rec, st) && rec.messageBuf == rtmpChunk[i].messageBuf
      modifies rtmpChunk, this`streams
      ensures Valid() && streams == old(streams)[i := st]
      ensures rtmpChunk[..] == old(rtmpChunk[..])[i := rec]
    {
      rtmpChunk[i] := rec;
      streams := streams[i := st];
    }

    lemma ViewIs()
      requires Shape()
      ensures View() == State(streams, rtmpLastAudioTimestamp, rtmpLastVideoTimestamp, rtmpLastMessageType, Ctl())
      ensures Ctl().maxChunk == rtmpChunkMaxSize && buffer.Length == MAX_BUF_LEN
      ensures rtmpChunk.Length == |streams| == MAX_CHUNK_ID
      ensures buffer != videoHeadData && buffer != audioHeadData && videoHeadData != audioHeadData
    {
    }

    lemma OwnBuffer(i: nat)
      requires Valid() && i < MAX_CHUNK_ID
      ensures rtmpChunk[i].messageBuf != null ==>
                rtmpChunk[i].messageBuf in bufs && rtmpChunk[i].messageBuf != buffer
    {
    }

    lemma LastIsLeft(i: nat)
      requires Valid() && i < MAX_CHUNK_ID
      ensures rtmpChunk[i].lastMessageSize == streams[i].left
    {
    }

    /** A new buffer for an idle chunk stream; the old one is dropped. */
    method NewBuffer(i: nat, size: nat)
      requires Valid() && i < MAX_CHUNK_ID && streams[i].left == 0
      modifies rtmpChunk, this`bufs
      ensures Valid() && fresh(bufs - old(bufs)) && old(bufs) <= bufs
      ensures rtmpChunk[i].messageBuf != null && rtmpChunk[i].messageBuf.Length == BufLen(size)
      ensures fresh(rtmpChunk[i].messageBuf)
      ensures rtmpChunk[i] == old(rtmpChunk[i]).(messageBuf := rtmpChunk[i].messageBuf, messageBufPos := 0)
    {
      var buf := new byte[BufLen(size)](_ => 0);
      rtmpChunk[i] := rtmpChunk[i].(messageBuf := buf, messageBufPos := 0);
      bufs := bufs + {buf};
    }

    // ---------- the chunk header ----------

    /** Copies the header bytes behind the first into the table entry. */
    method KeepHeader(i: nat, d: seq<byte>, n: nat)
      requires Valid() && 2 <= i < MAX_CHUNK_ID && n <= 11 && |d| >= n + 1
      requires CopiesHeader(d) && d[0] % 64 == i && HeaderLen(d[0] / 64) == n
      modifies rtmpChunk, this`streams
      ensures Valid() && streams == CopyHeader(old(streams), d)
      ensures forall j :: 0 <= j < MAX_CHUNK_ID ==> rtmpChunk[j].messageBuf == old(rtmpChunk[j].messageBuf)
    {
      var rec := rtmpChunk[i];
      ghost var st := streams[i];
      var kept := d[1..n + 1] + rec.rtmpFmt0Buf[n..];
      SetRecord(i, rec.(rtmpFmt0Buf := kept), st.(noted := kept));
    }

    /** Remembers a stamp as the last of its kind. */
    method NoteStamp(mtype: byte, timeStamp: u32)
      modifies this`rtmpLastAudioTimestamp, this`rtmpLastVideoTimestamp
      ensures rtmpLastAudioTimestamp == if mtype == 8 then timeStamp else old(rtmpLastAudioTimestamp)
      ensures rtmpLastVideoTimestamp == if mtype == 9 then timeStamp else old(rtmpLastVideoTimestamp)
    {
      if mtype == 0x08 {
        rtmpLastAudioTimestamp := timeStamp;
      } else if mtype == 0x09 {
        rtmpLastVideoTimestamp := timeStamp;
      }
    }

    /** Adds a relative stamp to the last of its kind. */
    method AddStamp(mtype: byte, delta: u32) returns (timeStamp: u32)
      modifies this`rtmpLastAudioTimestamp, this`rtmpLastVideoTimestamp
      ensures timeStamp == if mtype == 8 then Add32(delta, old(rtmpLastAudioTimestamp))
                            else if mtype == 9 then Add32(delta, old(rtmpLastVideoTimestamp)) else delta
      ensures rtmpLastAudioTimestamp == if mtype == 8 then timeStamp else old(rtmpLastAudioTimestamp)
      ensures rtmpLastVideoTimestamp == if mtype == 9 then timeStamp else old(rtmpLastVideoTimestamp)
    {
      timeStamp := delta;
      if mtype == 0x08 {
        timeStamp := Add32(delta, rtmpLastAudioTimestamp);
      } else if mtype == 0x09 {
        timeStamp := Add32(delta, rtmpLastVideoTimestamp);
      }
      NoteStamp(mtype, timeStamp);
    }

    method HeaderFormat0(d: seq<byte>) returns (r: HeaderResult, timeStamp: u32)
      requires Valid() && |d| > 0 && d[0] / 64 == 0 && d[0] % 64 >= 2
      modifies rtmpChunk, this`streams, this`rtmpLastAudioTimestamp, this`rtmpLastVideoTimestamp,
               this`rtmpLastMessageType
      ensures Valid() && View() == Prepare(old(View()), d) && r == ReadHeader(d)
      ensures r.Whole? ==> timeStamp == StampOf(old(View()), r.h)
      ensures forall j :: 0 <= j < MAX_CHUNK_ID ==> rtmpChunk[j].messageBuf == old(rtmpChunk[j].messageBuf)
    {
      hide Valid, CopyHeader, Linked, Rep, ReadHeader, Prepare, Be24, Be32;
      ghost var v := View();
      LongHeader(v, d);
      var chunkId: nat, chunkHeaderLen := d[0] % 64, 11;
      timeStamp := 0;
      if |d| < chunkHeaderLen + 1 {
        NothingCopied(streams, d);
        return Short, timeStamp;
      }
      timeStamp := Be24(d, 1);
      var messageSize, messageType, messageStreamId := Be24(d, 4), d[7], Be32(d, 8);
      KeepHeader(chunkId, d, chunkHeaderLen);
      if timeStamp == 0xFFFFFF {
        if |d| < chunkHeaderLen + 5 {
          return Short, timeStamp;
        }
        timeStamp := Be32(d, 12);
        chunkHeaderLen := chunkHeaderLen + 4;
      }
      WholePrepared(v, d);
      NoteStamp(messageType, timeStamp);
      rtmpLastMessageType := messageType;
      return Whole(Header(0, chunkId, chunkHeaderLen, timeStamp, messageSize, messageType, messageStreamId)),
             timeStamp;
    }

    method HeaderFormat1(d: seq<byte>) returns (r: HeaderResult, timeStamp: u32)
      requires Valid() && |d| > 0 && d[0] / 64 == 1 && d[0] % 64 >= 2
      modifies rtmpChunk, this`streams, this`rtmpLastAudioTimestamp, this`rtmpLastVideoTimestamp,
               this`rtmpLastMessageType
      ensures Valid() && View() == Prepare(old(View()), d) && r == ReadHeader(d)
      ensures r.Whole? ==> timeStamp == StampOf(old(View()), r.h)
      ensures forall j :: 0 <= j < MAX_CHUNK_ID ==> rtmpChunk[j].messageBuf == old(rtmpChunk[j].messageBuf)
    {
      hide Valid, CopyHeader, Linked, Rep, ReadHeader, Prepare, Be24, Be32;
      ghost var v := View();
      LongHeader(v, d);
      var chunkId: nat, chunkHeaderLen := d[0] % 64, 7;
      timeStamp := 0;
      if |d| < chunkHeaderLen + 1 {
        NothingCopied(streams, d);
        return Short, timeStamp;
      }
      var delta: u32 := Be24(d, 1);
      var messageSize, messageType := Be24(d, 4), d[7];
      KeepHeader(chunkId, d, chunkHeaderLen);
      if delta == 0xFFFFFF {
        if |d| < chunkHeaderLen + 5 {
          return Short, timeStamp;
        }
        delta := Be32(d, 8);
        chunkHeaderLen := chunkHeaderLen + 4;
      }
      WholePrepared(v, d);
      timeStamp := AddStamp(messageType, delta);
      rtmpLastMessageType := messageType;
      return Whole(Header(1, chunkId, chunkHeaderLen, delta, messageSize, messageType, 0)), timeStamp;
    }

    method HeaderFormat2(d: seq<byte>) returns (r: HeaderResult, timeStamp: u32)
      requires Valid() && |d| > 0 && d[0] / 64 == 2 && d[0] % 64 >= 2
      modifies this`rtmpLastAudioTimestamp, this`rtmpLastVideoTimestamp
      ensures Valid() && View() == Prepare(old(View()), d) && r == ReadHeader(d)
      ensures r.Whole? ==> timeStamp == StampOf(old(View()), r.h)
    {
      hide Valid, CopyHeader, Linked;
      NothingCopied(streams, d);
      var chunkId: nat, chunkHeaderLen := d[0] % 64, 3;
      timeStamp := 0;
      if |d| < chunkHeaderLen + 1 {
        return Short, timeStamp;
      }
      var delta: u32 := Be24(d, 1);
      if delta == 0xFFFFFF {
        if |d| < chunkHeaderLen + 5 {
          return Short, timeStamp;
        }
        delta := Be32(d, 4);
        chunkHeaderLen := chunkHeaderLen + 4;
      }
      timeStamp := AddStamp(rtmpLastMessageType, delta);
      return Whole(Header(2, chunkId, chunkHeaderLen, delta, 0, 0, 0)), timeStamp;
    }

    /** The switch over the header formats.  Ids announced in a second or third byte are 64
        or more and so never below MAX_CHUNK_ID. */
    method ReadChunkHeader(d: seq<byte>) returns (r: HeaderResult, timeStamp: u32)
      requires Valid()
      modifies rtmpChunk, this`streams, this`rtmpLastAudioTimestamp, this`rtmpLastVideoTimestamp,
               this`rtmpLastMessageType
      ensures Valid() && r == ReadHeader(d)
      ensures View() == if r == BadId then old(View()) else Prepare(old(View()), d)
      ensures r.Whole? ==> timeStamp == StampOf(old(View()), r.h)
      ensures forall j :: 0 <= j < MAX_CHUNK_ID ==> rtmpChunk[j].messageBuf == old(rtmpChunk[j].messageBuf)
    {
      hide Valid;
      timeStamp := 0;
      if |d| == 0 {
        NothingCopied(streams, d);
        return Short, timeStamp;
      }
      if d[0] % 64 < 2 {
        return BadId, timeStamp;
      }
      match d[0] / 64
      case 0 => r, timeStamp := HeaderFormat0(d);
      case 1 => r, timeStamp := HeaderFormat1(d);
      case 2 => r, timeStamp := HeaderFormat2(d);
      case _ =>
        NothingCopied(streams, d);
        r := Whole(Header(3, d[0] % 64, 0, 0, 0, 0, 0));
    }

    // ---------- message handlers ----------

    /** What a handler has done is what the function h says. */
    twostate predicate Did(h: Handled, ret: Code)
      reads this, videoHeadData, audioHeadData
      requires Shape()
    {
      ret == h.code && Ctl() == h.ctl && outs == old(outs) + h.outs
    }

    // ---------- recording effects ----------

    /** Sends bytes and records them. */
    method SendRecorded(bytes: seq<byte>, ghost o: Output) returns (ret: int)
      requires Linked() && o.ToServer? && o.bytes == bytes
      modifies this`outs, rtmpSocket`sends
      ensures Linked() && outs == old(outs) + [o] && rtmpSocket.sends == old(rtmpSocket.sends) + [Attempt(bytes, ret >= 0)]
      ensures ret < 0 ==> !AllSent(rtmpSocket.sends)
    {
      hide Offered, ServerBytes, AllSent;
      ghost var sends := rtmpSocket.sends;
      ret := rtmpSocket.Send(bytes);
      OneMoreSend(sends, Attempt(bytes, ret >= 0));
      RecordSent(o, sends);
    }

    /** Records bytes that have been sent since `sends`. */
    ghost method RecordSent(o: Output, sends: seq<Attempt>)
      requires o.ToServer? && Offered(sends) == before + ServerBytes(outs)
      requires Offered(rtmpSocket.sends) == Offered(sends) + o.bytes
      modifies this`outs
      ensures Linked() && outs == old(outs) + [o]
    {
      hide Offered, ServerBytes;
      OneMoreOutput(outs, o);
      Regroup(before, ServerBytes(outs), o.bytes);
      outs := outs + [o];
    }

    /** Records effects that do not go to the server. */
    ghost method Record(more: seq<Output>)
      requires Linked() && forall o :: o in more ==> !o.ToServer?
      modifies this`outs
      ensures Linked() && outs == old(outs) + more
    {
      hide Offered, ServerBytes;
      NothingForServer(outs, more);
      outs := outs + more;
    }

    /** Lays out and sends the bundle that answers connect. */
    method ConnectResult() returns (ret: Code)
      requires Shape() && Linked()
      modifies this`rtmpStatus, this`outs, rtmpSocket`sends
      ensures Shape() && Linked() && Did(Handled(Done, old(Ctl()).(status := WaitCreateStream),
                                     [ToServer(CreateStream, CreateBundle(old(Ctl()).ackSize))]), ret)
    {
      hide Linked, CreateBundle;
      var buf := new byte[1024](_ => 0);
      var dataPos := WriteCreateBundle(buf);
      var sent := SendRecorded(buf[..dataPos], ToServer(CreateStream, buf[..dataPos]));
      rtmpStatus := WaitCreateStream;
      return Done;
    }

    /** Window acknowledgement size, createStream and _checkbw, one behind the other. */
    method WriteCreateBundle(buf: array<byte>) returns (dataPos: nat)
      requires Shape() && buf.Length == 1024 && Writers.Zeroed(buf[..], 0, 1024)
      modifies buf
      ensures dataPos == 78 && buf[..dataPos] == CreateBundle(acknowledgementSize)
    {
      hide Splice, CreateStreamBody, CheckBwBody, WinAckBytes, Header1, StringBytes, NumberBytes, Ascii;
      ghost var m, a := buf[..], WinAckBytes(acknowledgementSize);
      ghost var b := Header1(3, 0x14, CreateStreamBody()) + CreateStreamBody();
      ghost var c := Header1(3, 0x14, CheckBwBody()) + CheckBwBody();
      BundleBodies();
      var retLen := Writers.WriteWinAck(buf, 0, 1024, acknowledgementSize);
      dataPos := retLen;
      StillZero(m, a, 8);
      retLen := Writers.WriteShortCommand(buf, dataPos, 1024 - dataPos, Ascii("createStream"), TWO);
      Writers.SpliceAppend(m, 0, a, b);
      dataPos := dataPos + retLen;
      StillZero(m, a + b, 8);
      retLen := Writers.WriteShortCommand(buf, dataPos, 1024 - dataPos, Ascii("_checkbw"), THREE);
      Writers.SpliceAppend(m, 0, a + b, c);
      dataPos := dataPos + retLen;
      CreateBundleIs(acknowledgementSize);
      ReadWhole(m, a + b + c);
    }

    /** The answer to createStream carries the stream id; three messages go out. */
    method CreateStreamResult(d: seq<byte>) returns (ret: Code)
      requires Shape() && Linked()
      modifies this`rtmpStatus, this`rtmpNowStreamId, this`outs, rtmpSocket`sends
      ensures Shape() && Linked() && Did(HandleStreamResult(old(Ctl()), d), ret)
    {
      hide IdByte, PlayBundle, Offered, ServerBytes;
      var transId := PopNumber(d);
      if transId == None {
        return Failed;
      }
      var commandObject := PopNull(d[9..]);
      if commandObject == None {
        return Failed;
      }
      var id := PopNumber(d[10..]);
      if id == None {
        return Failed;
      }
      rtmpNowStreamId := id.value.value;
      ghost var sends := rtmpSocket.sends;
      var bytes := SendPlay();
      rtmpStatus := WaitPlay;
      RecordSent(ToServer(Play, bytes), sends);
      return Done;
    }

    /** Sends bytes and counts them among those of a bundle. */
    method SendPart(ghost done: seq<byte>, part: seq<byte>, ghost first: seq<byte>)
      requires Offered(rtmpSocket.sends) == first + done
      modifies rtmpSocket`sends
      ensures Offered(rtmpSocket.sends) == first + (done + part)
    {
      ghost var sends := rtmpSocket.sends;
      var ret := rtmpSocket.Send(part);
      OneMoreSend(sends, Attempt(part, ret >= 0));
      Regroup(first, done, part);
    }

    /** getStreamLength, play and Set Buffer Length, sent one after the other. */
    method SendPlay() returns (bytes: seq<byte>)
      requires Shape()
      modifies rtmpSocket`sends
      ensures bytes == PlayBundle(IdByte(rtmpNowStreamId), rtmpStream)
      ensures Offered(rtmpSocket.sends) == old(Offered(rtmpSocket.sends)) + bytes
    {
      hide IdByte, StreamLengthBody, PlayBody, BufferLengthBody, Header0, Header1, Offered;
      ghost var first := Offered(rtmpSocket.sends);
      assert first == first + [];
      var buf := new byte[1024](_ => 0);
      var n := Writers.WriteStreamLength(buf, rtmpStream);
      SendPart([], buf[..n], first);
      bytes := [] + buf[..n];
      buf := new byte[1024](_ => 0);
      n := Writers.WritePlay(buf, IdByte(rtmpNowStreamId), rtmpStream);
      SendPart(bytes, buf[..n], first);
      bytes := bytes + buf[..n];
      buf := new byte[1024](_ => 0);
      n := Writers.WriteBufferLength(buf);
      SendPart(bytes, buf[..n], first);
      bytes := bytes + buf[..n];
      PlayBundleForm(IdByte(rtmpNowStreamId), rtmpStream);
    }

    /** AMF0 command. */
    method ProcessCommand(d: seq<byte>) returns (ret: Code)
      requires Shape() && Linked()
      modifies this`rtmpStatus, this`rtmpNowStreamId, this`outs, rtmpSocket`sends
      ensures Shape() && Linked() && Did(HandleCommand(old(Ctl()), d), ret)
    {
      hide PopString, CreateBundle, HandleStreamResult;
      var commandName := PopString(d, 256);
      if commandName == None {
        return Failed;
      }
      if Is(CStr(commandName.value.value), "_result") {
        if rtmpStatus == WaitConnect {
          ret := ConnectResult();
          return ret;
        } else if rtmpStatus == WaitCreateStream {
          ret := CreateStreamResult(d[commandName.value.used..]);
          return ret;
        }
      }
      return Done;
    }

    /** onMetaData in the build that writes a file. */
    method ProcessData(m: Message) returns (ret: Code)
      requires Shape() && Linked() && WellSized(m)
      modifies this`rtmpStatus, this`flvOpen, this`outs
      ensures Shape() && Linked() && Did(HandleMeta(old(Ctl()), m), ret)
    {
      hide PopString, ReadMeta, Flv.MetaTagBytes, Linked;
      var commandName := PopString(m.payload, 256);
      if commandName == None {
        return Failed;
      }
      if !Is(CStr(commandName.value.value), "onMetaData") {
        return Done;
      }
      var metadata := ProcessMetaData(m.payload);
      rtmpStatus := WaitData;
      flvOpen := fileOpens;
      if !flvOpen {
        return Failed;
      }
      var data, n := FlvWriter.WriteMetaTag(m.noted[6], metadata.meta);
      Record([ToFile(Flv.FILE_HEADER), ToFile(data[..n])]);
      return Done;
    }

    /** Audio or video in the build that writes a file. */
    method ProcessTag(m: Message) returns (ret: Code)
      requires Shape() && Linked() && WellSized(m)
      modifies this`outs
      ensures Shape() && Linked() && Did(HandleTag(old(Ctl()), m), ret)
    {
      hide Linked, Flv.TagBytes;
      if !flvOpen {
        return Failed;
      }
      var data := FlvWriter.WriteTag(m.noted[6], m.noted[3..6], m.timeStamp, m.payload);
      Record([ToFile(data[..])]);
      return Done;
    }

    /** Dispatch on the message type.  The message lies in mem[off..off + len], which the
        video handler rewrites in place. */
    method ProcessMessage(m: Message, ghost logged: Message, mem: array<byte>, off: nat, len: nat) returns (ret: Code)
      requires Shape() && Linked() && WellSized(m) && off + len <= mem.Length && m.payload == mem[..][off..off + len]
      requires m == logged.(absolute := m.absolute)
      requires mem != videoHeadData && mem != audioHeadData
      modifies this`rtmpStatus, this`rtmpChunkMaxSize, this`acknowledgementSize, this`bandwidth,
               this`rtmpNowStreamId, this`flvOpen, this`videoHeadDataLen, this`audioHeadDataLen,
               this`outs, this`log, videoHeadData, audioHeadData, mem, rtmpSocket`sends
      ensures Shape() && Linked() && Did(Handle(old(Ctl()), logged), ret)
      ensures log == old(log) + [logged]
      ensures Outside(old(mem[..]), mem[..], off, len)
    {
      hide HandleAudio, HandleVideo, HandleMeta, HandleTag, HandleCommand, HandleWord, Outside;
      HandleIgnoresOrigin(Ctl(), m, logged);
      SameOutside(mem[..], off, len);
      log := log + [logged];
      ret := Done;
      match m.mtype
      case 0x01 => ret := ProcessWord(m);
      case 0x05 => ret := ProcessWord(m);
      case 0x06 => ret := ProcessWord(m);
      case 0x08 =>
        if saveFlv {
          ret := ProcessTag(m);
        } else {
          ret := ProcessAudioMessage(m);
        }
      case 0x09 =>
        if saveFlv {
          ret := ProcessTag(m);
        } else {
          ret := ProcessVideoMessage(m, mem, off, len);
        }
      case 0x12 =>
        if saveFlv {
          ret := ProcessData(m);
        }
      case 0x14 =>
        ret := ProcessCommand(m.payload);
      case _ =>
    }

    /** Set Chunk Size, Window Acknowledgement Size and Set Peer Bandwidth. */
    method ProcessWord(m: Message) returns (ret: Code)
      requires Shape() && (m.mtype == 1 || m.mtype == 5 || m.mtype == 6)
      modifies this`rtmpChunkMaxSize, this`acknowledgementSize, this`bandwidth
      ensures Shape() && Did(HandleWord(old(Ctl()), m.payload, m.mtype), ret)
    {
      if |m.payload| < 4 {
        return Overread;
      }
      var word := Be32(m.payload, 0);
      if m.mtype == 0x01 {
        rtmpChunkMaxSize := word;
      } else if m.mtype == 0x05 {
        acknowledgementSize := word;
      } else {
        bandwidth := word;
      }
      return Done;
    }

    /** Audio for the transport-stream writer. */
    method ProcessAudioMessage(m: Message) returns (ret: Code)
      requires Shape() && Linked()
      modifies this`audioHeadDataLen, this`outs, audioHeadData
      ensures Shape() && Linked()
      ensures var r := HandleAudio(old(Ctl()).audio, m.payload, m.timeStamp);
              Did(Handled(r.code, old(Ctl()).(audio := r.st), Packets(r.packets)), ret)
    {
      hide HandleAudio, Linked;
      var packets;
      ret, audioHeadDataLen, packets := ProcessAudio(m.payload, audioHeadData, audioHeadDataLen, m.timeStamp);
      Record(Packets(packets));
    }

    /** Video for the transport-stream writer. */
    method ProcessVideoMessage(m: Message, mem: array<byte>, off: nat, len: nat) returns (ret: Code)
      requires Shape() && Linked() && off + len <= mem.Length && m.payload == mem[..][off..off + len]
      requires mem != videoHeadData && mem != audioHeadData
      modifies this`videoHeadDataLen, this`outs, videoHeadData, mem
      ensures Shape() && Linked() && Outside(old(mem[..]), mem[..], off, len)
      ensures var r := HandleVideo(old(Ctl()).videoHead, m.payload, m.timeStamp);
              Did(Handled(r.code, old(Ctl()).(videoHead := r.head), Packets(r.packets)), ret)
    {
      hide HandleVideo, Outside, Linked;
      var packets;
      ret, videoHeadDataLen, packets :=
        ProcessVideo(mem, off, len, videoHeadData, videoHeadDataLen, m.timeStamp);
      Record(Packets(packets));
    }

    /** The same, seen from the table: the message lies in the receive buffer, or in the
        buffer of a chunk stream that is idle again. */
    method Finish(i: nat, m: Message, ghost logged: Message, mem: array<byte>, off: nat, len: nat) returns (ret: Code)
      requires Valid() && i < MAX_CHUNK_ID && streams[i].left == 0
      requires WellSized(m) && off + len <= mem.Length && m.payload == mem[..][off..off + len]
      requires m == logged.(absolute := m.absolute)
      requires mem == buffer || mem == rtmpChunk[i].messageBuf
      modifies this`rtmpStatus, this`rtmpChunkMaxSize, this`acknowledgementSize, this`bandwidth,
               this`rtmpNowStreamId, this`flvOpen, this`videoHeadDataLen, this`audioHeadDataLen,
               this`outs, this`log, videoHeadData, audioHeadData, mem, rtmpSocket`sends
      ensures Valid() && Did(Handle(old(Ctl()), logged), ret)
      ensures log == old(log) + [logged]
      ensures Outside(old(mem[..]), mem[..], off, len)
    {
      hide Handle, WellSized, Outside;
      ret := ProcessMessage(m, logged, mem, off, len);
      assert forall j :: 0 <= j < MAX_CHUNK_ID ==> Rep(rtmpChunk[j], streams[j]);
    }

    // ---------- one chunk ----------

    /** memcpy into the buffer of a chunk stream, behind what it has received. */
    method StorePiece(i: nat, at: nat, s: seq<byte>)
      requires Valid() && i < MAX_CHUNK_ID && rtmpChunk[i].messageBuf != null
      requires at + |s| <= rtmpChunk[i].messageBuf.Length && (streams[i].left > 0 ==> at == |streams[i].got|)
      modifies rtmpChunk[i].messageBuf
      ensures Valid()
      ensures rtmpChunk[i].messageBuf[..] == Splice(old(rtmpChunk[i].messageBuf[..]), at, s)
    {
      Store(rtmpChunk[i].messageBuf, at, s);
    }

    /** The client has done what the step r says with a chunk at buffer[pos]. */
    twostate predicate Took(r: StepResult, ret: Code, pos: nat)
      reads this, buffer, videoHeadData, audioHeadData
      requires Shape()
    {
      && ret == r.code && View() == r.st && parsePos == old(parsePos) + r.used
      && log == old(log) + r.msgs && outs == old(outs) + r.outs
      && Outside(old(buffer[..]), buffer[..], pos, r.used)
    }

    /** The table entry of a message that is complete with its first chunk. */
    method OpenWhole(h: Header, timeStamp: u32) returns (noted: seq<byte>)
      requires Valid() && h.csid < MAX_CHUNK_ID && h.size < 0x1000000 && streams[h.csid].left == 0
      modifies this`streams, rtmpChunk
      ensures Valid() && noted == old(streams)[h.csid].noted
      ensures streams == old(streams)[h.csid := Opened(old(streams)[h.csid], h, timeStamp).(left := 0)]
    {
      var rec := rtmpChunk[h.csid].(messageSize := h.size, lastMessageSize := h.size, timeStamp := timeStamp,
                                     messageType := h.mtype, messageStreamId := h.streamId);
      rec := rec.(lastMessageSize := rec.lastMessageSize - h.size);
      ghost var st := Opened(streams[h.csid], h, timeStamp).(left := 0);
      SetRecord(h.csid, rec, st);
      noted := rec.rtmpFmt0Buf;
    }

    /** Finish for a message at buffer[pos + at] inside a chunk of `used` bytes at pos. */
    method FinishHere(i: nat, m: Message, ghost logged: Message, pos: nat, at: nat, ghost used: nat) returns (ret: Code)
      requires Valid() && i < MAX_CHUNK_ID && streams[i].left == 0
      requires WellSized(m) && at + |m.payload| <= used && pos + used <= MAX_BUF_LEN
      requires m.payload == buffer[..][pos + at..pos + at + |m.payload|]
      requires m == logged.(absolute := m.absolute)
      modifies this`rtmpStatus, this`rtmpChunkMaxSize, this`acknowledgementSize, this`bandwidth,
               this`rtmpNowStreamId, this`flvOpen, this`videoHeadDataLen, this`audioHeadDataLen,
               this`outs, this`log, videoHeadData, audioHeadData, buffer, rtmpSocket`sends
      ensures Valid() && Did(Handle(old(Ctl()), logged), ret)
      ensures log == old(log) + [logged]
      ensures Outside(old(buffer[..]), buffer[..], pos, used)
    {
      hide Valid, Handle, WellSized, Outside;
      ghost var m0 := buffer[..];
      ret := Finish(i, m, logged, buffer, pos + at, |m.payload|);
      OutsideGrows(m0, buffer[..], pos + at, |m.payload|, pos, used);
    }

    /** A message that is complete with its first chunk is handled where it lies. */
    method TakeWhole(h: Header, timeStamp: u32, pos: nat, d: seq<byte>) returns (ret: Code)
      requires Valid() && h.csid < MAX_CHUNK_ID && h.size < 0x1000000 && IsComplete(View(), h, d)
      requires pos + |d| <= MAX_BUF_LEN && d == buffer[..][pos..pos + |d|]
      requires streams[h.csid].left == 0 && h.size <= rtmpChunkMaxSize
      modifies this`rtmpStatus, this`rtmpChunkMaxSize, this`acknowledgementSize, this`bandwidth,
               this`rtmpNowStreamId, this`flvOpen, this`videoHeadDataLen, this`audioHeadDataLen,
               this`outs, this`log, this`streams, this`parsePos, videoHeadData, audioHeadData, buffer,
               rtmpChunk, rtmpSocket`sends
      ensures Valid() && Took(Complete(old(View()), h, timeStamp, d), ret, pos)
    {
      hide Valid, Handle, Complete, Outside, Rep, Opened, Linked, WellSized;
      ViewIs();
      WholeIs(View(), h, timeStamp, d);
      var at := 1 + h.len;
      var noted := OpenWhole(h, timeStamp);
      parsePos := parsePos + at + h.size;
      var m := Message(h.csid, h.mtype, h.streamId, timeStamp, false, noted, d[at..at + h.size]);
      Sub(buffer[..], pos, pos + |d|, at, at + h.size);
      ret := FinishHere(h.csid, m, m.(absolute := h.fmt == 0), pos, at, at + h.size);
      ViewIs();
    }

    /** The table entry of a message that needs more chunks, with a buffer of its own. */
    method OpenSplit(h: Header, timeStamp: u32)
      requires Valid() && h.csid < MAX_CHUNK_ID && 0 < h.size < 0x1000000 && streams[h.csid].left == 0
      modifies this`streams, this`bufs, rtmpChunk
      ensures Valid() && fresh(bufs - old(bufs)) && old(bufs) <= bufs
      ensures streams == old(streams)[h.csid := Opened(old(streams)[h.csid], h, timeStamp)]
      ensures rtmpChunk[h.csid].messageBuf != null && fresh(rtmpChunk[h.csid].messageBuf)
    {
      NewBuffer(h.csid, h.size);
      var rec := rtmpChunk[h.csid].(messageSize := h.size, lastMessageSize := h.size, timeStamp := timeStamp,
                                     messageType := h.mtype, messageStreamId := h.streamId);
      SetRecord(h.csid, rec, Opened(streams[h.csid], h, timeStamp));
    }

    /** Copies a piece of payload into the buffer and counts it. */
    method AppendPiece(i: nat, piece: seq<byte>) returns (rec: ChunkRecord)
      requires Valid() && i < MAX_CHUNK_ID && 0 < streams[i].left && |piece| <= streams[i].left
      modifies this`streams, rtmpChunk, rtmpChunk[i].messageBuf
      ensures Valid() && streams == old(streams)[i := Gather(old(streams)[i], i, piece).0]
      ensures rec == rtmpChunk[i] && rec.messageBuf == old(rtmpChunk[i].messageBuf) && rec.messageBuf != null
      ensures rec.messageBufPos == |old(streams)[i].got| + |piece| <= rec.messageBuf.Length &&
              rec.messageBuf[..][..rec.messageBufPos] == old(streams)[i].got + piece
      ensures var st := old(streams)[i];
              rec.messageSize == st.size && rec.messageType == st.mtype && rec.messageStreamId == st.streamId &&
              rec.timeStamp == st.timeStamp && rec.rtmpFmt0Buf == st.noted
    {
      rec := rtmpChunk[i];
      ghost var st := streams[i];
      ghost var m := rec.messageBuf[..];
      StorePiece(i, rec.messageBufPos, piece);
      Appended(m, st.got, piece);
      rec := rec.(messageBufPos := rec.messageBufPos + |piece|, lastMessageSize := rec.lastMessageSize - |piece|);
      SetRecord(i, rec, Gather(st, i, piece).0);
    }

    /** Gathers a piece of payload; a message that is complete now is handled in its buffer. */
    method GatherChunk(i: nat, piece: seq<byte>) returns (ret: Code)
      requires Valid() && i < MAX_CHUNK_ID && 0 < streams[i].left && |piece| <= streams[i].left
      requires var st := streams[i]; |st.got| + |piece| == st.size ==> Gather(st, i, piece).0.left == 0
      modifies this`rtmpStatus, this`rtmpChunkMaxSize, this`acknowledgementSize, this`bandwidth,
               this`rtmpNowStreamId, this`flvOpen, this`videoHeadDataLen, this`audioHeadDataLen,
               this`outs, this`log, this`streams, videoHeadData, audioHeadData,
               rtmpChunk, rtmpChunk[i].messageBuf, rtmpSocket`sends
      ensures Valid() && streams == old(streams)[i := Gather(old(streams)[i], i, piece).0]
      ensures var st := old(streams)[i];
              if |st.got| + |piece| < st.size
              then Did(Handled(Done, old(Ctl()), []), ret) && log == old(log)
              else
                var m := Message(i, st.mtype, st.streamId, st.timeStamp, st.absolute, st.noted, st.got + piece);
                WellSized(m) && Did(Handle(old(Ctl()), m), ret) && log == old(log) + [m]
    {
      hide Handle, Gather, Rep, Outside, Linked;
      ghost var begun: Stream := streams[i];
      var rec := AppendPiece(i, piece);
      if rec.messageBufPos < rec.messageSize {
        return Done;
      }
      var m := Message(i, rec.messageType, rec.messageStreamId, rec.timeStamp, false, rec.rtmpFmt0Buf,
                       rec.messageBuf[..][0..rec.messageSize]);
      ret := Finish(i, m, m.(absolute := begun.absolute), rec.messageBuf, 0, rec.messageSize);
    }

    /** A chunk that continues a message. */
    method TakeNext(h: Header, timeStamp: u32, pos: nat, d: seq<byte>, chunkLen: nat) returns (ret: Code)
      requires Valid() && h.csid < MAX_CHUNK_ID && h.size < 0x1000000 && IsComplete(View(), h, d)
      requires chunkLen == ChunkLen(streams[h.csid], h, rtmpChunkMaxSize)
      requires pos + |d| <= MAX_BUF_LEN && streams[h.csid].left > 0
      modifies this`rtmpStatus, this`rtmpChunkMaxSize, this`acknowledgementSize, this`bandwidth,
               this`rtmpNowStreamId, this`flvOpen, this`videoHeadDataLen, this`audioHeadDataLen,
               this`outs, this`log, this`streams, this`parsePos, videoHeadData, audioHeadData,
               rtmpChunk, rtmpChunk[h.csid].messageBuf, rtmpSocket`sends
      ensures Valid() && Took(Complete(old(View()), h, timeStamp, d), ret, pos)
    {
      hide Valid, Shape, View, Ctl, Handle, Complete, Gather, ChunkLen, Rep, Outside, IsComplete, Linked, WellSized;
      ViewIs();
      OwnBuffer(h.csid);
      PieceIs(View(), h, timeStamp, d, chunkLen);
      var at := 1 + h.len;
      SameOutside(buffer[..], pos, at + chunkLen);
      parsePos := parsePos + at + chunkLen;
      ret := GatherChunk(h.csid, d[at..at + chunkLen]);
      ViewIs();
    }

    /** A chunk that opens a message of several chunks. */
    method TakeFirst(h: Header, timeStamp: u32, pos: nat, d: seq<byte>, chunkLen: nat) returns (ret: Code)
      requires Valid() && h.csid < MAX_CHUNK_ID && h.size < 0x1000000 && IsComplete(View(), h, d)
      requires chunkLen == ChunkLen(streams[h.csid], h, rtmpChunkMaxSize)
      requires pos + |d| <= MAX_BUF_LEN && streams[h.csid].left == 0 && h.size > rtmpChunkMaxSize
      modifies this`rtmpStatus, this`rtmpChunkMaxSize, this`acknowledgementSize, this`bandwidth,
               this`rtmpNowStreamId, this`flvOpen, this`videoHeadDataLen, this`audioHeadDataLen,
               this`outs, this`log, this`streams, this`bufs, this`parsePos, videoHeadData, audioHeadData,
               rtmpChunk, bufs, rtmpSocket`sends
      ensures Valid() && Took(Complete(old(View()), h, timeStamp, d), ret, pos)
      ensures fresh(bufs - old(bufs)) && old(bufs) <= bufs
    {
      hide Valid, Complete, ChunkLen, Rep, Outside, IsComplete, Opened, Linked;
      OpenedFirst(View(), h, timeStamp, d);
      OpenSplit(h, timeStamp);
      ret := TakeNext(h, timeStamp, pos, d, chunkLen);
    }

    /** rtmp_process_chunk: one chunk from the datalen bytes at buffer[pos]. */
    method ProcessChunk(pos: nat, datalen: nat) returns (ret: Code)
      requires Valid() && pos + datalen <= MAX_BUF_LEN
      modifies this`rtmpStatus, this`rtmpChunkMaxSize, this`acknowledgementSize, this`bandwidth,
               this`rtmpNowStreamId, this`flvOpen, this`videoHeadDataLen, this`audioHeadDataLen,
               this`rtmpLastAudioTimestamp, this`rtmpLastVideoTimestamp, this`rtmpLastMessageType,
               this`outs, this`log, this`streams, this`bufs, this`parsePos, videoHeadData, audioHeadData,
               buffer, rtmpChunk, bufs, rtmpSocket`sends
      ensures Valid() && Took(Step(old(View()), old(buffer[..])[pos..pos + datalen]), ret, pos)
      ensures fresh(bufs - old(bufs)) && old(bufs) <= bufs
    {
      hide Valid, Prepare, ReadHeader, Complete, StampOf, Outside, Rep, Step, Linked;
      var d := buffer[..][pos..pos + datalen];
      ghost var s := View();
      NothingTaken(buffer[..], pos);
      var r, timeStamp := ReadChunkHeader(d);
      if !r.Whole? {
        StepWithoutHeader(s, d);
        return if r.Short? then More else Failed;
      }
      StepIsComplete(s, d);
      ghost var p := View();
      var h := r.h;
      LastIsLeft(h.csid);
      OwnBuffer(h.csid);
      var isNewPack := rtmpChunk[h.csid].lastMessageSize == 0;
      var total := if isNewPack then h.size else rtmpChunk[h.csid].lastMessageSize;
      var chunkLen := if total >= rtmpChunkMaxSize then rtmpChunkMaxSize else total;
      if datalen < chunkLen + h.len + 1 {
        return More;
      }
      if isNewPack && chunkLen == h.size {
        ret := TakeWhole(h, timeStamp, pos, d);
      } else if isNewPack {
        ret := TakeFirst(h, timeStamp, pos, d, chunkLen);
      } else {
        ret := TakeNext(h, timeStamp, pos, d, chunkLen);
      }
    }

    // ---------- the receive loop ----------

    /** The client has done what the run r says with the size bytes at buffer[pos]; the
        bytes behind what was used are in their place. */
    twostate predicate Ran(r: Run, ret: Code, calls: nat, pos: nat, size: nat)
      reads this, buffer, videoHeadData, audioHeadData
      requires Shape() && pos + size <= buffer.Length
    {
      && ret == r.code && View() == r.st && parsePos == r.used <= size && calls == r.calls
      && log == old(log) + r.log && outs == old(outs) + r.outs
      && buffer[..][pos + parsePos..pos + size] == old(buffer[..])[pos..pos + size][parsePos..]
    }

    /** One chunk of those that lie at buffer[pos]; d is what lay there at first. */
    method NextChunk(pos: nat, size: nat, ghost d: seq<byte>) returns (ret: Code)
      requires Valid() && pos + size <= MAX_BUF_LEN && parsePos <= size == |d|
      requires buffer[..][pos + parsePos..pos + size] == d[parsePos..]
      modifies this`rtmpStatus, this`rtmpChunkMaxSize, this`acknowledgementSize, this`bandwidth,
               this`rtmpNowStreamId, this`flvOpen, this`videoHeadDataLen, this`audioHeadDataLen,
               this`rtmpLastAudioTimestamp, this`rtmpLastVideoTimestamp, this`rtmpLastMessageType,
               this`outs, this`log, this`streams, this`bufs, this`parsePos, videoHeadData, audioHeadData,
               buffer, rtmpChunk, bufs, rtmpSocket`sends
      ensures Valid() && fresh(bufs - old(bufs)) && old(bufs) <= bufs
      ensures var q := Step(old(View()), d[old(parsePos)..]);
              && ret == q.code && View() == q.st && parsePos == old(parsePos) + q.used <= size
              && log == old(log) + q.msgs && outs == old(outs) + q.outs
              && buffer[..][pos + parsePos..pos + size] == d[parsePos..]
    {
      hide Valid, Step, Rep, Outside, Linked;
      ghost var m, at := buffer[..], parsePos;
      ghost var q := Step(View(), d[at..]);
      StepProgress(View(), d[at..]);
      ret := ProcessChunk(pos + parsePos, size - parsePos);
      TailStays(m, buffer[..], pos, at, q.used, size, d);
    }

    /** Chunk after chunk from the size bytes at buffer[pos], until one is incomplete or
        fails.  The parser is called at most size + 1 times. */
    method ParseBuffer(pos: nat, size: nat) returns (ret: Code, ghost calls: nat)
      requires Valid() && pos + size <= MAX_BUF_LEN && parsePos == 0
      modifies this`rtmpStatus, this`rtmpChunkMaxSize, this`acknowledgementSize, this`bandwidth,
               this`rtmpNowStreamId, this`flvOpen, this`videoHeadDataLen, this`audioHeadDataLen,
               this`rtmpLastAudioTimestamp, this`rtmpLastVideoTimestamp, this`rtmpLastMessageType,
               this`outs, this`log, this`streams, this`bufs, this`parsePos, videoHeadData, audioHeadData,
               buffer, rtmpChunk, bufs, rtmpSocket`sends
      ensures Valid() && fresh(bufs - old(bufs)) && old(bufs) <= bufs
      ensures calls <= size + 1
      ensures Ran(ParseAll(old(View()), old(buffer[..])[pos..pos + size]), ret, calls, pos, size)
    {
      hide View, Ctl, Valid, Linked, Step, ParseAll, Parsing;
      ghost var d := buffer[..][pos..pos + size];
      ghost var whole := ParseAll(View(), d);
      ghost var msgs: seq<Message>, effects: seq<Output> := [], [];
      ret, calls := Done, 0;
      ParsingBegins(View(), d);
      while ret == Done
        invariant Valid() && fresh(bufs - old(bufs)) && old(bufs) <= bufs
        invariant parsePos <= size && buffer[..][pos + parsePos..pos + size] == d[parsePos..]
        invariant log == old(log) + msgs && outs == old(outs) + effects
        invariant Parsing(whole, d, View(), parsePos, msgs, effects, calls, ret)
        decreases if ret == Done then 1 else 0, size - parsePos
      {
        ghost var s, at := View(), parsePos;
        ghost var q := Step(s, d[at..]);
        ParsingOn(whole, d, s, at, msgs, effects, calls);
        ret := NextChunk(pos, size, d);
        calls, msgs, effects := calls + 1, msgs + q.msgs, effects + q.outs;
      }
      ParsingEnds(whole, d, View(), parsePos, msgs, effects, calls, ret);
    }

    /** Sends bytes of the handshake or of connect. */
    method Offer(bytes: seq<byte>, ghost o: Output) returns (ret: int)
      requires Valid() && o.ToServer? && o.bytes == bytes
      modifies this`outs, rtmpSocket`sends
      ensures Valid() && View() == old(View())
      ensures outs == old(outs) + [o] && rtmpSocket.sends == old(rtmpSocket.sends) + [Attempt(bytes, ret >= 0)]
      ensures ret < 0 ==> !AllSent(rtmpSocket.sends)
    {
      hide Rep, Linked, AllSent;
      ret := SendRecorded(bytes, o);
    }

    method SetStatus(status: Status)
      requires Valid()
      modifies this`rtmpStatus
      ensures Valid() && rtmpStatus == status && View() == Started(old(View()), status)
    {
      hide Valid;
      rtmpStatus := status;
    }

    method SendToServerC0C1() returns (ret: int)
      requires Valid()
      modifies this`rtmpStatus, this`outs, rtmpSocket`sends
      ensures Valid() && View() == Started(old(View()), rtmpStatus)
      ensures rtmpStatus == if ret < 0 then SendC0C1 else WaitS0S1
      ensures rtmpSocket.sends == old(rtmpSocket.sends) + [Attempt(HelloBytes(), ret >= 0)]
      ensures outs == old(outs) + [HELLO] && (ret < 0 ==> !AllSent(rtmpSocket.sends))
    {
      hide Valid, View, Ctl, Started, Linked, AllSent, HelloBytes;
      ghost var v := View();
      SetStatus(Status.SendC0C1);
      ret := Offer(HelloBytes(), HELLO);
      if ret >= 0 {
        SetStatus(WaitS0S1);
        StartedTwice(v, Status.SendC0C1, WaitS0S1);
      }
    }

    method SendToServerC2() returns (ret: int)
      requires Valid()
      modifies this`rtmpStatus, this`outs, rtmpSocket`sends
      ensures Valid() && View() == Started(old(View()), rtmpStatus)
      ensures rtmpStatus == if ret < 0 then SendC2 else WaitS2
      ensures rtmpSocket.sends == old(rtmpSocket.sends) + [Attempt(EchoBytes(), ret >= 0)]
      ensures outs == old(outs) + [ECHO] && (ret < 0 ==> !AllSent(rtmpSocket.sends))
    {
      hide Valid, View, Ctl, Started, Linked, AllSent, EchoBytes;
      ghost var v := View();
      SetStatus(SendC2);
      ret := Offer(EchoBytes(), ECHO);
      if ret >= 0 {
        SetStatus(WaitS2);
        StartedTwice(v, SendC2, WaitS2);
      }
    }

    /** Lays out, splits and sends the connect command. */
    method SendToServerConnect() returns (ret: int)
      requires Valid()
      modifies this`rtmpStatus, this`outs, rtmpSocket`sends
      ensures Valid() && View() == Started(old(View()), rtmpStatus)
      ensures rtmpStatus == if ret < 0 then old(rtmpStatus) else WaitConnect
      ensures rtmpSocket.sends == old(rtmpSocket.sends) + [Attempt(ConnectBytes(rtmpApp, rtmpUrl), ret >= 0)]
      ensures outs == old(outs) + [ToServer(Connect, ConnectBytes(rtmpApp, rtmpUrl))]
      ensures ret < 0 ==> !AllSent(rtmpSocket.sends)
    {
      hide Valid, View, Ctl, Started, ConnectBytes, Linked, AllSent;
      SameStatus();
      var buf := new byte[5120](_ => 0);
      var sendLen := Writers.WriteConnect(buf, rtmpApp, rtmpUrl);
      ConnectBytesIs(rtmpApp, rtmpUrl);
      ret := Offer(buf[..sendLen], ToServer(Connect, buf[..sendLen]));
      if ret >= 0 {
        SetStatus(WaitConnect);
      }
    }

    /** What is known of the receive buffer while the handshake goes on: nothing is moved
        between S0S1 and S2, so only the bytes from `from` on are in their place. */
    ghost predicate Waiting(rcvd: seq<byte>, size: nat, from: nat)
      reads this`rtmpStatus, buffer
      requires buffer.Length == MAX_BUF_LEN
    {
      && size <= MAX_BUF_LEN
      && (rtmpStatus == Status.SendC0C1 ==> size == |rcvd|)
      && (rtmpStatus == WaitS0S1 ==> size == |rcvd| && buffer[..][..size] == rcvd)
      && (rtmpStatus == WaitS2 ==>
            1537 + size == |rcvd| && from <= size && from < 1536 && buffer[..][from..size] == rcvd[1537 + from..])
    }

    /** What has been sent behind C0 and C1 when connect is out. */
    ghost function Greeting(): seq<Output> {
      [ECHO, ToServer(Connect, ConnectBytes(rtmpApp, rtmpUrl))]
    }

    /** How the handshake blocks leave the client, with left bytes at buffer[pos]. */
    ghost predicate Shook(rcvd: seq<byte>, base: seq<Output>, pos: nat, left: nat, ok: bool, next: nat)
      reads this`rtmpStatus, this`outs, rtmpSocket`sends, buffer
      requires buffer.Length == MAX_BUF_LEN && pos + left <= MAX_BUF_LEN
    {
      match rtmpStatus
      case WaitS0S1 => ok && outs == base && left == |rcvd| < 1537 && Waiting(rcvd, left, next)
      case SendC2 => !ok && outs == base + [ECHO] && |rcvd| >= 1537 && !AllSent(rtmpSocket.sends)
      case WaitS2 =>
        if ok then outs == base + [ECHO] && left < 1536 && Waiting(rcvd, left, next)
        else outs == base + Greeting() && |rcvd| >= HANDSHAKE && !AllSent(rtmpSocket.sends)
      case WaitConnect =>
        && ok && outs == base + Greeting() && |rcvd| >= HANDSHAKE && left == |rcvd| - HANDSHAKE
        && buffer[..][pos..pos + left] == rcvd[HANDSHAKE..]
      case _ => false
    }

    /** The two handshake blocks of the receive loop; base are the effects up to C0 and C1. */
    method TakeHandshake(size: nat, ghost rcvd: seq<byte>, ghost from: nat, ghost base: seq<Output>)
      returns (pos: nat, left: nat, ok: bool, ghost next: nat)
      requires Valid() && Waiting(rcvd, size, from)
      requires rtmpStatus == WaitS0S1 ==> outs == base
      requires rtmpStatus == WaitS2 ==> outs == base + [ECHO]
      modifies this`rtmpStatus, this`outs, rtmpSocket`sends
      ensures Valid() && pos + left <= MAX_BUF_LEN && View() == Started(old(View()), rtmpStatus)
      ensures old(rtmpStatus) != WaitS0S1 && old(rtmpStatus) != WaitS2 ==>
                ok && pos == 0 && left == size && rtmpStatus == old(rtmpStatus) && outs == old(outs) &&
                rtmpSocket.sends == old(rtmpSocket.sends) && Waiting(rcvd, left, next)
      ensures old(rtmpStatus) == WaitS0S1 || old(rtmpStatus) == WaitS2 ==> Shook(rcvd, base, pos, left, ok, next)
    {
      hide Valid, ConnectBytes, Rep, Linked, AllSent, View, Ctl, Started;
      pos, left, ok, next := 0, size, true, from;
      ghost var v, first := View(), rtmpStatus;
      SameStatus();
      if rtmpStatus == WaitS0S1 {
        if left >= 1537 {
          pos := pos + 1537;
          left := left - 1537;
          next := 0;
          Sub(buffer[..], 0, size, 1537, size);
          var ret := SendToServerC2();
          if ret < 0 {
            return pos, left, false, next;
          }
        }
      }
      StartedTwice(v, rtmpStatus, WaitConnect);
      StartedTwice(v, rtmpStatus, WaitS2);
      if rtmpStatus == WaitS2 {
        Skipped(rcvd, pos, left, next);
        if left >= 1536 {
          pos := pos + 1536;
          left := left - 1536;
          var ret := SendToServerConnect();
          assert base + Greeting() == base + [ECHO] + [ToServer(Connect, ConnectBytes(rtmpApp, rtmpUrl))];
          if ret < 0 {
            return pos, left, false, next;
          }
        } else {
          next := if pos == 0 then from else left;
        }
      }
    }

    lemma SameStatus()
      requires Shape()
      ensures View() == Started(View(), rtmpStatus)
    {
    }

    /** S2 is skipped, whether or not it came together with S0 and S1. */
    lemma Skipped(rcvd: seq<byte>, pos: nat, left: nat, next: nat)
      requires buffer.Length == MAX_BUF_LEN && pos + left <= MAX_BUF_LEN && next <= left && next < 1536
      requires 1537 + left == |rcvd| && buffer[..][pos + next..pos + left] == rcvd[1537 + next..]
      ensures left >= 1536 ==> buffer[..][pos + 1536..pos + left] == rcvd[HANDSHAKE..]
    {
      if left >= 1536 {
        Sub(buffer[..], pos + next, pos + left, 1536 - next, left - next);
        Sub(rcvd, 1537 + next, |rcvd|, 1536 - next, left - next);
      }
    }

    /** The client is where feeding these pieces to the state s0 has brought it, on top of
        an earlier log and earlier effects. */
    ghost predicate FedTo(s0: State, pieces: seq<seq<byte>>, log0: seq<Message>, outs0: seq<Output>)
      reads this`streams, this`bufs, this`videoHeadDataLen, this`audioHeadDataLen, this`rtmpNowStreamId,
            this`rtmpStatus, this`rtmpChunkMaxSize, this`acknowledgementSize, this`bandwidth, this`flvOpen,
            videoHeadData, audioHeadData, this`rtmpLastAudioTimestamp, this`rtmpLastVideoTimestamp,
            this`rtmpLastMessageType, this`log, this`outs
      requires Shape() && Chunks.Valid(s0)
    {
      FeedIsHandled(s0, pieces);
      var f := Feed(s0, pieces);
      View() == f.st && log == log0 + f.log && outs == outs0 + HandleAll(s0.ctl, f.log).outs
    }

    /** The chunk block of the receive loop: parses what lies at buffer[pos] and moves
        the rest to the front. */
    method TakeChunks(pos: nat, size: nat, ghost s0: State, ghost pieces: seq<seq<byte>>, ghost last: seq<byte>,
                      ghost log0: seq<Message>, ghost outs0: seq<Output>)
      returns (ret: Code, left: nat)
      requires Valid() && pos + size <= MAX_BUF_LEN && parsePos == 0 && Chunks.Valid(s0)
      requires FedTo(s0, pieces, log0, outs0) && Feed(s0, pieces).code == More
      requires buffer[..][pos..pos + size] == Feed(s0, pieces).pending + last
      modifies this`rtmpStatus, this`rtmpChunkMaxSize, this`acknowledgementSize, this`bandwidth,
               this`rtmpNowStreamId, this`flvOpen, this`videoHeadDataLen, this`audioHeadDataLen,
               this`rtmpLastAudioTimestamp, this`rtmpLastVideoTimestamp, this`rtmpLastMessageType,
               this`outs, this`log, this`streams, this`bufs, this`parsePos, videoHeadData, audioHeadData,
               buffer, rtmpChunk, bufs, rtmpSocket`sends
      ensures Valid() && fresh(bufs - old(bufs)) && old(bufs) <= bufs
      ensures FedTo(s0, pieces + [last], log0, outs0) && ret == Feed(s0, pieces + [last]).code
      ensures ret == More ==> left <= size && buffer[..][..left] == Feed(s0, pieces + [last]).pending
    {
      hide Valid, Feed, ParseAll, HandleAll, Rep, Splice, Linked;
      ghost var d := buffer[..][pos..pos + size];
      FeedOne(s0, pieces, last);
      ghost var calls;
      ret, calls := ParseBuffer(pos, size);
      left := size;
      if ret == More {
        left := size - parsePos;
        ghost var m := buffer[..];
        Move(buffer, 0, pos + parsePos, left);
        ReadStored(m, 0, m[pos + parsePos..pos + size], 0, left);
      }
    }

    /** Before connect: the parser has not been called, and C2 is among the effects once it
        has been tried.  A status of sending is one in which sending has failed. */
    ghost predicate Greeted(s: State, log0: seq<Message>, outs0: seq<Output>)
      reads this`streams, this`bufs, this`videoHeadDataLen, this`audioHeadDataLen, this`rtmpNowStreamId,
            this`rtmpStatus, this`rtmpChunkMaxSize, this`acknowledgementSize, this`bandwidth, this`flvOpen,
            videoHeadData, audioHeadData, this`rtmpLastAudioTimestamp, this`rtmpLastVideoTimestamp,
            this`rtmpLastMessageType, this`log, this`outs, rtmpSocket`sends
      requires Shape() && Chunks.Valid(s)
    {
      && View() == Started(s, rtmpStatus) && log == log0
      && match rtmpStatus
         case SendC0C1 => outs == outs0 && !AllSent(rtmpSocket.sends)
         case WaitS0S1 => outs == outs0
         case SendC2 => outs == outs0 + [ECHO] && !AllSent(rtmpSocket.sends)
         case WaitS2 => outs == outs0 + [ECHO]
         case _ => false
    }

    /** How a receive loop that started in state s, with an earlier log and earlier effects,
        stands after the bytes rcvd. */
    ghost predicate Received(rcvd: seq<byte>, stage: Stage, s: State, log0: seq<Message>, outs0: seq<Output>)
      reads this`streams, this`bufs, this`videoHeadDataLen, this`audioHeadDataLen, this`rtmpNowStreamId,
            this`rtmpStatus, this`rtmpChunkMaxSize, this`acknowledgementSize, this`bandwidth, this`flvOpen,
            videoHeadData, audioHeadData, this`rtmpLastAudioTimestamp, this`rtmpLastVideoTimestamp,
            this`rtmpLastMessageType, this`log, this`outs, rtmpSocket`sends
      requires Shape() && Chunks.Valid(s)
    {
      match stage
      case Handshaking =>
        && Greeted(s, log0, outs0)
        && (rtmpStatus == WaitS0S1 ==> |rcvd| < 1537)
        && (rtmpStatus == SendC2 || rtmpStatus == WaitS2 ==> |rcvd| >= 1537)
        && (rtmpStatus == WaitS2 ==> |rcvd| < HANDSHAKE)
      case Refused =>
        && View() == Started(s, WaitS2) && log == log0 && outs == outs0 + Greeting() && |rcvd| >= HANDSHAKE
        && !AllSent(rtmpSocket.sends)
      case Connected(pieces) =>
        && |rcvd| >= HANDSHAKE && Flatten(pieces) == rcvd[HANDSHAKE..]
        && FedTo(Started(s, WaitConnect), pieces, log0, outs0 + Greeting())
    }

    /** Why the loop has ended: the server or the network had no more, a part of the
        handshake or connect could not be sent, a handler or the parser failed, or the
        buffer was full of bytes that nothing takes out of it. */
    ghost predicate Stopped(rcvd: seq<byte>, stage: Stage, s: State)
      reads this`rtmpStatus, rtmpSocket`ended, buffer
      requires Chunks.Valid(s)
    {
      || rtmpSocket.ended
      || match stage
         case Handshaking => rtmpStatus == SendC2 || (rtmpStatus == Status.SendC0C1 && |rcvd| == MAX_BUF_LEN)
         case Refused => true
         case Connected(pieces) =>
           var f := Feed(Started(s, WaitConnect), pieces);
           f.code != More || (|f.pending| == MAX_BUF_LEN && buffer[..] == f.pending)
    }

    /** The same between two receives: behind the handshake the buffer starts with what
        the parser has not used yet, and the status stays behind wait_chunk. */
    ghost predicate Between(rcvd: seq<byte>, stage: Stage, s: State, log0: seq<Message>, outs0: seq<Output>,
                            size: nat, from: nat)
      reads this`streams, this`bufs, this`videoHeadDataLen, this`audioHeadDataLen, this`rtmpNowStreamId,
            this`rtmpStatus, this`rtmpChunkMaxSize, this`acknowledgementSize, this`bandwidth, this`flvOpen,
            videoHeadData, audioHeadData, this`rtmpLastAudioTimestamp, this`rtmpLastVideoTimestamp,
            this`rtmpLastMessageType, this`log, this`outs, buffer, rtmpSocket`sends
      requires Shape() && Chunks.Valid(s)
    {
      && size <= MAX_BUF_LEN && Received(rcvd, stage, s, log0, outs0)
      && match stage
         case Handshaking =>
           && Waiting(rcvd, size, from) && rtmpStatus != SendC2
         case Refused => false
         case Connected(pieces) =>
           var f := Feed(Started(s, WaitConnect), pieces);
           && Rank(rtmpStatus) > Rank(WaitChunk) && f.code == More && buffer[..][..size] == f.pending
    }

    /** Receives behind the bytes in the buffer. */
    method ReceiveMore(size: nat, ghost rcvd: seq<byte>, ghost from: nat) returns (ret: int, ghost got: seq<byte>)
      requires Valid() && size <= MAX_BUF_LEN && Waiting(rcvd, size, from)
      modifies buffer, rtmpSocket`incoming, rtmpSocket`arrivals, rtmpSocket`ended
      ensures Valid() && old(rtmpSocket.incoming) == got + rtmpSocket.incoming
      ensures rtmpSocket.arrivals == With(old(rtmpSocket.arrivals), got)
      ensures if ret > 0 then ret == |got| && size + ret <= MAX_BUF_LEN else got == []
      ensures rtmpSocket.ended == (old(rtmpSocket.ended) || (ret <= 0 && size < MAX_BUF_LEN))
      ensures if ret > 0 then Waiting(rcvd + got, size + ret, from) else buffer[..] == old(buffer[..])
      ensures ret > 0 ==> buffer[..][..size + ret] == old(buffer[..])[..size] + got
    {
      hide Valid, Rep, Splice, Linked;
      ghost var m, more := buffer[..], rtmpSocket.incoming;
      ret := rtmpSocket.Receive(buffer, size, buffer.Length - size);
      got := if ret > 0 then more[..ret] else [];
      if ret > 0 {
        ReadGrown(m, size, got, 0);
        if rtmpStatus == WaitS2 {
          ReadGrown(m, size, got, from);
          assert (rcvd + got)[1537 + from..] == rcvd[1537 + from..] + got;
        }
      }
    }

    /** Short of connect, the handshake blocks leave the loop as it should be. */
    lemma StillGreeting(rcvd: seq<byte>, s: State, log0: seq<Message>, outs0: seq<Output>, pos: nat, left: nat,
                        ok: bool, next: nat)
      requires Shape() && Chunks.Valid(s) && pos + left <= MAX_BUF_LEN
      requires View() == Started(s, rtmpStatus) && log == log0 && rtmpStatus != WaitConnect
      requires Shook(rcvd, outs0, pos, left, ok, next)
      ensures var stage := if !ok && rtmpStatus == WaitS2 then Refused else Handshaking;
              Received(rcvd, stage, s, log0, outs0) &&
              if ok then Between(rcvd, stage, s, log0, outs0, left, next) else Stopped(rcvd, stage, s)
    {
      hide Feed, FedTo, AllSent, ConnectBytes, Flatten;
    }

    /** Without C0 and C1 sent, the handshake blocks do nothing. */
    lemma StillUnsent(rcvd: seq<byte>, s: State, log0: seq<Message>, outs0: seq<Output>, size: nat, next: nat)
      requires Shape() && Chunks.Valid(s) && rtmpStatus == Status.SendC0C1 && Waiting(rcvd, size, next)
      requires View() == Started(s, rtmpStatus) && log == log0 && outs == outs0 && !AllSent(rtmpSocket.sends)
      ensures Received(rcvd, Handshaking, s, log0, outs0) && Between(rcvd, Handshaking, s, log0, outs0, size, next)
      ensures Rank(rtmpStatus) <= Rank(WaitChunk)
    {
      hide AllSent;
    }

    lemma GreetedMeans(s: State, log0: seq<Message>, outs0: seq<Output>)
      requires Shape() && Chunks.Valid(s) && Greeted(s, log0, outs0)
      ensures View() == Started(s, rtmpStatus) && log == log0
      ensures rtmpStatus == WaitS0S1 ==> outs == outs0
      ensures rtmpStatus == WaitS2 ==> outs == outs0 + [ECHO]
      ensures rtmpStatus == Status.SendC0C1 ==> outs == outs0 && !AllSent(rtmpSocket.sends)
      ensures rtmpStatus == WaitS0S1 || rtmpStatus == WaitS2 || rtmpStatus == SendC2 || rtmpStatus == Status.SendC0C1
    {
      hide AllSent;
    }

    /** The blocks of the receive loop behind the call of Receive, before connect is out. */
    method StepHandshake(size: nat, ghost rcvd: seq<byte>, ghost from: nat, ghost s: State, ghost log0: seq<Message>,
                         ghost outs0: seq<Output>)
      returns (left: nat, go: bool, ghost stage: Stage, ghost next: nat)
      requires Valid() && parsePos == 0 && Chunks.Valid(s) && Waiting(rcvd, size, from)
      requires Greeted(s, log0, outs0) && rtmpStatus != SendC2
      modifies this`rtmpStatus, this`rtmpChunkMaxSize, this`acknowledgementSize, this`bandwidth,
               this`rtmpNowStreamId, this`flvOpen, this`videoHeadDataLen, this`audioHeadDataLen,
               this`rtmpLastAudioTimestamp, this`rtmpLastVideoTimestamp, this`rtmpLastMessageType,
               this`outs, this`log, this`streams, this`bufs, this`parsePos, videoHeadData, audioHeadData,
               buffer, rtmpChunk, bufs, rtmpSocket`sends
      ensures Valid() && fresh(bufs - old(bufs)) && old(bufs) <= bufs
      ensures Received(rcvd, stage, s, log0, outs0)
      ensures go ==> Between(rcvd, stage, s, log0, outs0, left, next)
      ensures !go ==> Stopped(rcvd, stage, s)
      ensures stage.Connected? ==>
                old(rtmpStatus) != Status.SendC0C1 && |rcvd| >= HANDSHAKE && stage.pieces == [rcvd[HANDSHAKE..]]
    {
      hide *;
      GreetedMeans(s, log0, outs0);
      stage := Handshaking;
      var pos, ok;
      ghost var before := rtmpStatus;
      pos, left, ok, next := TakeHandshake(size, rcvd, from, outs0);
      go := ok;
      StartedTwice(s, before, rtmpStatus);
      if before == Status.SendC0C1 {
        StillUnsent(rcvd, s, log0, outs0, left, next);
      } else {
        ShookMeans(rcvd, outs0, pos, left, ok, next);
      }
      if Rank(rtmpStatus) > Rank(WaitChunk) {
        next := 0;
        left, go, stage := FirstChunks(pos, left, rcvd, s, log0, outs0);
      } else if before != Status.SendC0C1 {
        StillGreeting(rcvd, s, log0, outs0, pos, left, ok, next);
        stage := if !ok && rtmpStatus == WaitS2 then Refused else Handshaking;
      }
    }

    lemma StartedTwice(s: State, first: Status, second: Status)
      requires Chunks.Valid(s)
      ensures Started(Started(s, first), second) == Started(s, second)
    {
    }

    /** The parser is reached exactly when connect is out. */
    lemma ShookMeans(rcvd: seq<byte>, base: seq<Output>, pos: nat, left: nat, ok: bool, next: nat)
      requires Shape() && pos + left <= MAX_BUF_LEN && Shook(rcvd, base, pos, left, ok, next)
      ensures Rank(rtmpStatus) > Rank(WaitChunk) <==> rtmpStatus == WaitConnect
      ensures rtmpStatus == WaitConnect ==>
                ok && outs == base + Greeting() && |rcvd| >= HANDSHAKE && left == |rcvd| - HANDSHAKE &&
                buffer[..][pos..pos + left] == rcvd[HANDSHAKE..]
    {
      hide Waiting, Greeting, AllSent;
    }

    /** The first chunks may have arrived together with the end of the handshake. */
    method FirstChunks(pos: nat, size: nat, ghost rcvd: seq<byte>, ghost s: State, ghost log0: seq<Message>,
                       ghost outs0: seq<Output>)
      returns (left: nat, go: bool, ghost stage: Stage)
      requires Valid() && parsePos == 0 && Chunks.Valid(s) && pos + size <= MAX_BUF_LEN && |rcvd| >= HANDSHAKE
      requires View() == Started(s, WaitConnect) && log == log0
      requires outs == outs0 + Greeting()
      requires buffer[..][pos..pos + size] == rcvd[HANDSHAKE..]
      modifies this`rtmpStatus, this`rtmpChunkMaxSize, this`acknowledgementSize, this`bandwidth,
               this`rtmpNowStreamId, this`flvOpen, this`videoHeadDataLen, this`audioHeadDataLen,
               this`rtmpLastAudioTimestamp, this`rtmpLastVideoTimestamp, this`rtmpLastMessageType,
               this`outs, this`log, this`streams, this`bufs, this`parsePos, videoHeadData, audioHeadData,
               buffer, rtmpChunk, bufs, rtmpSocket`sends
      ensures Valid() && fresh(bufs - old(bufs)) && old(bufs) <= bufs
      ensures Received(rcvd, stage, s, log0, outs0) && stage == Connected([rcvd[HANDSHAKE..]])
      ensures go ==> Between(rcvd, stage, s, log0, outs0, left, 0)
      ensures !go ==> Stopped(rcvd, stage, s)
    {
      hide Valid, Feed, FedTo, Rep, ConnectBytes, Flatten, Linked;
      ghost var s0, last, sent := Started(s, WaitConnect), rcvd[HANDSHAKE..], outs;
      Connecting(s0);
      var end;
      end, left := TakeChunks(pos, size, s0, [], last, log0, outs);
      FlattenOne([], last);
      FeedRank(s0, [] + [last]);
      StatusOf(s0, [] + [last], log0, sent);
      stage := Connected([] + [last]);
      go := end == More;
    }

    /** The same when connect is out: the new bytes are one more piece. */
    method StepConnected(size: nat, ghost rcvd: seq<byte>, ghost got: seq<byte>, ghost pieces: seq<seq<byte>>,
                         ghost s: State, ghost log0: seq<Message>, ghost outs0: seq<Output>)
      returns (left: nat, go: bool, ghost stage: Stage)
      requires Valid() && parsePos == 0 && Chunks.Valid(s) && size <= MAX_BUF_LEN
      requires Received(rcvd, Connected(pieces), s, log0, outs0) && Rank(rtmpStatus) > Rank(WaitChunk)
      requires var f := Feed(Started(s, WaitConnect), pieces); f.code == More && buffer[..][..size] == f.pending + got
      modifies this`rtmpStatus, this`rtmpChunkMaxSize, this`acknowledgementSize, this`bandwidth,
               this`rtmpNowStreamId, this`flvOpen, this`videoHeadDataLen, this`audioHeadDataLen,
               this`rtmpLastAudioTimestamp, this`rtmpLastVideoTimestamp, this`rtmpLastMessageType,
               this`outs, this`log, this`streams, this`bufs, this`parsePos, videoHeadData, audioHeadData,
               buffer, rtmpChunk, bufs, rtmpSocket`sends
      ensures Valid() && fresh(bufs - old(bufs)) && old(bufs) <= bufs
      ensures Received(rcvd + got, stage, s, log0, outs0) && stage == Connected(pieces + [got])
      ensures go ==> Between(rcvd + got, stage, s, log0, outs0, left, 0)
      ensures !go ==> Stopped(rcvd + got, stage, s)
    {
      hide Valid, Feed, FedTo, Rep, ConnectBytes, Flatten, Linked;
      ghost var s0, sent := Started(s, WaitConnect), Greeting();
      var end;
      end, left := TakeChunks(0, size, s0, pieces, got, log0, outs0 + sent);
      FlattenOne(pieces, got);
      FeedRank(s0, pieces + [got]);
      StatusOf(s0, pieces + [got], log0, outs0 + sent);
      assert (rcvd + got)[HANDSHAKE..] == rcvd[HANDSHAKE..] + got;
      stage := Connected(pieces + [got]);
      go := end == More;
    }

    /** Having sent connect is having been fed nothing. */
    lemma Connecting(s0: State)
      requires Shape() && Chunks.Valid(s0) && View() == s0
      ensures FedTo(s0, [], log, outs) && Feed(s0, []).code == More && Feed(s0, []).pending == []
    {
    }

    lemma StatusOf(s0: State, pieces: seq<seq<byte>>, log0: seq<Message>, outs0: seq<Output>)
      requires Shape() && Chunks.Valid(s0) && FedTo(s0, pieces, log0, outs0)
      ensures rtmpStatus == Feed(s0, pieces).st.ctl.status
    {
    }

    /** One round of the receive loop. */
    method Round(size: nat, ghost rcvd: seq<byte>, ghost stage: Stage, ghost from: nat, ghost s: State,
                 ghost log0: seq<Message>, ghost outs0: seq<Output>)
      returns (left: nat, go: bool, ghost got: seq<byte>, ghost now: Stage, ghost next: nat)
      requires Valid() && Chunks.Valid(s) && Between(rcvd, stage, s, log0, outs0, size, from)
      modifies this`rtmpStatus, this`rtmpChunkMaxSize, this`acknowledgementSize, this`bandwidth,
               this`rtmpNowStreamId, this`flvOpen, this`videoHeadDataLen, this`audioHeadDataLen,
               this`rtmpLastAudioTimestamp, this`rtmpLastVideoTimestamp, this`rtmpLastMessageType,
               this`outs, this`log, this`streams, this`bufs, this`parsePos, videoHeadData, audioHeadData,
               buffer, rtmpChunk, bufs, rtmpSocket
      ensures Valid() && fresh(bufs - old(bufs)) && old(bufs) <= bufs
      ensures old(rtmpSocket.incoming) == got + rtmpSocket.incoming && (go ==> got != [])
      ensures rtmpSocket.arrivals == With(old(rtmpSocket.arrivals), got) && NextStage(rcvd, got, stage, now)
      ensures !stage.Connected? && now.Connected? ==> got != []
      ensures Received(rcvd + got, now, s, log0, outs0)
      ensures if go then Between(rcvd + got, now, s, log0, outs0, left, next) else Stopped(rcvd + got, now, s)
    {
      hide Valid, Feed, FedTo, Rep, ConnectBytes, Flatten, Received, Between, Greeted, Linked, AllSent;
      UseBetween(rcvd, stage, s, log0, outs0, size, from);
      parsePos := 0;
      var ret;
      ret, got := ReceiveMore(size, rcvd, from);
      left, go, now, next := size, false, stage, 0;
      if ret <= 0 {
        assert rcvd + got == rcvd;
        return;
      }
      if Rank(rtmpStatus) <= Rank(WaitChunk) {
        left, go, now, next := StepHandshake(size + ret, rcvd + got, from, s, log0, outs0);
      } else {
        left, go, now := StepConnected(size + ret, rcvd, got, stage.pieces, s, log0, outs0);
      }
    }

    /** rtmp_recv_data, for any server and any way the network delivers its bytes: rcvd is
        what has been received when the loop ends.  If the handshake is over by then, the
        parser has been fed exactly the bytes from 3073 on. */
    method RecvData() returns (ghost rcvd: seq<byte>, ghost stage: Stage)
      requires Valid() && (rtmpStatus == WaitS0S1 || (rtmpStatus == Status.SendC0C1 && !AllSent(rtmpSocket.sends)))
      modifies this`rtmpStatus, this`rtmpChunkMaxSize, this`acknowledgementSize, this`bandwidth,
               this`rtmpNowStreamId, this`flvOpen, this`videoHeadDataLen, this`audioHeadDataLen,
               this`rtmpLastAudioTimestamp, this`rtmpLastVideoTimestamp, this`rtmpLastMessageType,
               this`outs, this`log, this`streams, this`bufs, this`parsePos, videoHeadData, audioHeadData,
               buffer, rtmpChunk, bufs, rtmpSocket
      ensures Valid() && fresh(bufs - old(bufs))
      ensures old(rtmpSocket.incoming) == rcvd + rtmpSocket.incoming
      ensures old(rtmpSocket.arrivals) <= rtmpSocket.arrivals
      ensures Came(rtmpSocket.arrivals[|old(rtmpSocket.arrivals)|..], rcvd, stage)
      ensures Received(rcvd, stage, old(View()), old(log), old(outs)) && Stopped(rcvd, stage, old(View()))
    {
      hide Valid, Received, Between, Stopped, Came, Rep, Linked, AllSent;
      var size: nat, go := 0, true;
      rcvd, stage := [], Handshaking;
      ghost var from: nat, got: seq<byte>, arrived: seq<seq<byte>> := 0, [], [];
      ghost var s := View();
      Beginning();
      NothingCame();
      while go
        invariant Valid() && fresh(bufs - old(bufs))
        invariant old(rtmpSocket.incoming) == rcvd + rtmpSocket.incoming
        invariant rtmpSocket.arrivals == old(rtmpSocket.arrivals) + arrived && Came(arrived, rcvd, stage)
        invariant Received(rcvd, stage, s, old(log), old(outs))
        invariant if go then Between(rcvd, stage, s, old(log), old(outs), size, from) else Stopped(rcvd, stage, s)
        decreases |rtmpSocket.incoming|, go
      {
        ghost var was := stage;
        ReceivedEnough(rcvd, stage, s, old(log), old(outs));
        size, go, got, stage, from := Round(size, rcvd, stage, from, s, old(log), old(outs));
        CameOn(arrived, rcvd, got, was, stage);
        rcvd, arrived := rcvd + got, With(arrived, got);
      }
    }

    /** rtmp_start_play behind the connection: 128 bytes a chunk, C0 and C1, the receive loop. */
    method StartPlay() returns (ghost rcvd: seq<byte>, ghost stage: Stage)
      requires Valid()
      modifies this`rtmpStatus, this`rtmpChunkMaxSize, this`acknowledgementSize, this`bandwidth,
               this`rtmpNowStreamId, this`flvOpen, this`videoHeadDataLen, this`audioHeadDataLen,
               this`rtmpLastAudioTimestamp, this`rtmpLastVideoTimestamp, this`rtmpLastMessageType,
               this`outs, this`log, this`streams, this`bufs, this`parsePos, videoHeadData, audioHeadData,
               buffer, rtmpChunk, bufs, rtmpSocket
      ensures Valid() && fresh(bufs - old(bufs))
      ensures old(rtmpSocket.incoming) == rcvd + rtmpSocket.incoming
      ensures old(rtmpSocket.arrivals) <= rtmpSocket.arrivals
      ensures Came(rtmpSocket.arrivals[|old(rtmpSocket.arrivals)|..], rcvd, stage)
      ensures var s := old(View()); var t := s.(ctl := s.ctl.(maxChunk := 128));
              Received(rcvd, stage, t, old(log), old(outs) + [HELLO]) && Stopped(rcvd, stage, t)
    {
      hide Valid, Received, Stopped, Rep, Linked, AllSent;
      ghost var s := View();
      rtmpChunkMaxSize := 128;
      var ret := SendToServerC0C1();
      ghost var now := View();
      rcvd, stage := RecvData();
      AnyStatus(rcvd, stage, now, s.(ctl := s.ctl.(maxChunk := 128)), old(log), old(outs) + [HELLO]);
    }

    /** The status before the handshake is of no account. */
    lemma AnyStatus(rcvd: seq<byte>, stage: Stage, s: State, t: State, log0: seq<Message>, outs0: seq<Output>)
      requires Shape() && Chunks.Valid(s) && t == s.(ctl := s.ctl.(status := t.ctl.status))
      requires Received(rcvd, stage, s, log0, outs0) && Stopped(rcvd, stage, s)
      ensures Received(rcvd, stage, t, log0, outs0) && Stopped(rcvd, stage, t)
    {
      hide Feed, FedTo, AllSent, ConnectBytes, Flatten;
      assert Started(s, rtmpStatus) == Started(t, rtmpStatus);
      assert Started(s, WaitConnect) == Started(t, WaitConnect);
      assert Started(s, WaitS2) == Started(t, WaitS2);
    }

    lemma NothingCame()
      ensures Came([], [], Handshaking)
    {
    }

    lemma ReceivedEnough(rcvd: seq<byte>, stage: Stage, s: State, log0: seq<Message>, outs0: seq<Output>)
      requires Shape() && Chunks.Valid(s) && Received(rcvd, stage, s, log0, outs0)
      ensures stage.Connected? ==> |rcvd| >= HANDSHAKE
    {
      hide FedTo, Greeted, AllSent;
    }

    lemma Beginning()
      requires Shape()
      requires rtmpStatus == WaitS0S1 || (rtmpStatus == Status.SendC0C1 && !AllSent(rtmpSocket.sends))
      ensures Between([], Handshaking, View(), log, outs, 0, 0) && Received([], Handshaking, View(), log, outs)
    {
      hide AllSent;
    }

    /** What the predicate says of the buffer; it is full only with bytes nothing will take. */
    lemma UseBetween(rcvd: seq<byte>, stage: Stage, s: State, log0: seq<Message>, outs0: seq<Output>, size: nat, from: nat)
      requires Shape() && Chunks.Valid(s) && Between(rcvd, stage, s, log0, outs0, size, from)
      ensures size <= MAX_BUF_LEN && Waiting(rcvd, size, from) && Received(rcvd, stage, s, log0, outs0)
      ensures !stage.Refused? && (stage.Connected? <==> Rank(rtmpStatus) > Rank(WaitChunk))
      ensures stage.Handshaking? ==> Greeted(s, log0, outs0) && rtmpStatus != SendC2
      ensures stage.Handshaking? && rtmpStatus != Status.SendC0C1 ==> |rcvd| < HANDSHAKE
      ensures stage.Connected? ==> var f := Feed(Started(s, WaitConnect), stage.pieces);
                                   f.code == More && buffer[..][..size] == f.pending
      ensures size == MAX_BUF_LEN ==> Stopped(rcvd, stage, s)
    {
      hide Feed, FedTo, AllSent;
    }
  }

  /** How a message was opened is of no interest to its handler. */
  lemma HandleIgnoresOrigin(c: Control, m: Message, n: Message)
    requires WellSized(m) && m == n.(absolute := m.absolute)
    ensures WellSized(n) && Handle(c, m) == Handle(c, n)
  {
    hide HandleAudio, HandleVideo, HandleCommand, ReadMeta, Flv.MetaTagBytes, Flv.TagBytes;
  }

  /** Complete for a message that is gathered in a buffer. */
  lemma PieceIs(v: State, h: Header, timeStamp: u32, d: seq<byte>, n: nat)
    requires Chunks.Valid(v) && h.csid < MAX_CHUNK_ID && h.size < 0x1000000 && IsComplete(v, h, d)
    requires n == ChunkLen(v.streams[h.csid], h, v.ctl.maxChunk)
    requires v.streams[h.csid].left == 0 ==> h.size > v.ctl.maxChunk
    ensures 1 + h.len + n <= |d|
    ensures var st := v.streams[h.csid];
            var begun: StreamRecord := if st.left == 0 then Opened(st, h, timeStamp) else st;
            var piece := d[1 + h.len..1 + h.len + n];
            && StreamOk(begun) && begun.left > 0 && n <= begun.left
            && var g := Gather(begun, h.csid, piece);
               var s := v.(streams := v.streams[h.csid := g.0]);
               var m := Message(h.csid, begun.mtype, begun.streamId, begun.timeStamp, begun.absolute, begun.noted,
                                begun.got + piece);
               if |begun.got| + n < begun.size
               then Complete(v, h, timeStamp, d) == StepResult(Done, s, 1 + h.len + n, [], [])
               else g.0.left == 0 && |begun.got| + n == begun.size && WellSized(m) && WellSized(m.(absolute := false)) &&
                    Complete(v, h, timeStamp, d) ==
                    var r := Handle(v.ctl, m); StepResult(r.code, s.(ctl := r.ctl), 1 + h.len + n, [m], r.outs)
  {
    hide Handle;
  }

  /** Opening a message of several chunks first makes no difference to its first chunk. */
  lemma OpenedFirst(v: State, h: Header, timeStamp: u32, d: seq<byte>)
    requires Chunks.Valid(v) && h.csid < MAX_CHUNK_ID && h.size < 0x1000000 && IsComplete(v, h, d)
    requires v.streams[h.csid].left == 0 && h.size > v.ctl.maxChunk
    ensures var begun := Opened(v.streams[h.csid], h, timeStamp);
            StreamOk(begun) && begun.left > 0 &&
            var w := v.(streams := v.streams[h.csid := begun]);
            && IsComplete(w, h, d) && Complete(w, h, timeStamp, d) == Complete(v, h, timeStamp, d)
            && ChunkLen(begun, h, v.ctl.maxChunk) == ChunkLen(v.streams[h.csid], h, v.ctl.maxChunk)
  {
    hide Handle, Gather;
    var begun: Stream := Opened(v.streams[h.csid], h, timeStamp);
    var w := v.(streams := v.streams[h.csid := begun]);
    var g := Gather(begun, h.csid, d[1 + h.len..1 + h.len + ChunkLen(begun, h, v.ctl.maxChunk)]);
    assert w.streams[h.csid := g.0] == v.streams[h.csid := g.0];
  }

  lemma ReadGrown(m: seq<byte>, at: nat, got: seq<byte>, from: nat)
    requires from <= at && at + |got| <= |m|
    ensures Splice(m, at, got)[from..at + |got|] == m[from..at] + got
  {
  }

  lemma FlattenOne(pieces: seq<seq<byte>>, last: seq<byte>)
    ensures Flatten(pieces + [last]) == Flatten(pieces) + last
    ensures Flatten([]) == []
  {
    assert (pieces + [last])[..|pieces|] == pieces;
  }

  lemma FeedRank(s: State, pieces: seq<seq<byte>>)
    requires Chunks.Valid(s)
    ensures Rank(Feed(s, pieces).st.ctl.status) >= Rank(s.ctl.status)
  {
    FeedIsHandled(s, pieces);
    SessionOrder(s.ctl, Feed(s, pieces).log);
  }

  /** Feeding one more piece. */
  lemma FeedOne(s: State, pieces: seq<seq<byte>>, last: seq<byte>)
    requires Chunks.Valid(s) && Feed(s, pieces).code == More
    ensures var f := Feed(s, pieces); var r := ParseAll(f.st, f.pending + last); var g := Feed(s, pieces + [last]);
            && g.code == r.code && g.st == r.st && g.log == f.log + r.log && g.pending == (f.pending + last)[r.used..]
            && (forall m :: m in f.log + g.log ==> WellSized(m))
            && HandleAll(s.ctl, g.log).outs == HandleAll(s.ctl, f.log).outs + r.outs
  {
    hide ParseAll, HandleAll, WellSized;
    var all := pieces + [last];
    assert all[..|all| - 1] == pieces;
    FeedIsHandled(s, pieces);
    FeedIsHandled(s, all);
    var f := Feed(s, pieces);
    RunIsHandled(f.st, f.pending + last);
    HandleBothUnlessMore(s.ctl, f.log);
    HandleBoth(s.ctl, f.log, ParseAll(f.st, f.pending + last).log);
  }

  /** The connect command as it goes over the wire. */
  function ConnectBytes(app: appname, url: urltext): seq<byte> {
    Header0(3, 0x14, NO_ID, ConnectBody(app, url)) + Splitter.Pages(0xC3, ConnectBody(app, url))
  }

  lemma ConnectBytesIs(app: appname, url: urltext)
    ensures ConnectBytes(app, url) ==
            Header0(3, 0x14, NO_ID, ConnectBody(app, url)) + Splitter.Pages(0xC3, ConnectBody(app, url))
  {
  }

  /** A parse of d has come to at: what is left of it, behind what it has done already, is
      the whole. */
  ghost predicate Parsing(whole: Run, d: seq<byte>, s: State, at: nat, msgs: seq<Message>, effects: seq<Output>,
                          calls: nat, ret: Code)
    requires Chunks.Valid(s) && at <= |d|
  {
    whole == Behind(at, msgs, effects, calls, if ret == Done then ParseAll(s, d[at..]) else Run(ret, s, 0, [], [], 0))
  }

  lemma ParsingBegins(s: State, d: seq<byte>)
    requires Chunks.Valid(s)
    ensures Parsing(ParseAll(s, d), d, s, 0, [], [], 0, Done)
  {
    hide ParseAll;
    assert d[0..] == d;
    NothingBehind(ParseAll(s, d));
  }

  lemma ParsingOn(whole: Run, d: seq<byte>, s: State, at: nat, msgs: seq<Message>, effects: seq<Output>, calls: nat)
    requires Chunks.Valid(s) && at <= |d| && Parsing(whole, d, s, at, msgs, effects, calls, Done)
    ensures var q := Step(s, d[at..]);
            && at + q.used <= |d| && (q.code == Done ==> q.used >= 1)
            && Parsing(whole, d, q.st, at + q.used, msgs + q.msgs, effects + q.outs, calls + 1, q.code)
  {
    hide ParseAll, Step, Behind;
    var q := Step(s, d[at..]);
    StepBehind(s, d[at..]);
    DropTwice(d, at, q.used);
    OneBehind(at, msgs, effects, calls, q,
              if q.code == Done then ParseAll(q.st, d[at + q.used..]) else Run(q.code, q.st, 0, [], [], 0));
  }

  lemma ParsingEnds(whole: Run, d: seq<byte>, s: State, at: nat, msgs: seq<Message>, effects: seq<Output>, calls: nat,
                    ret: Code)
    requires Chunks.Valid(s) && at <= |d| && ret != Done && Parsing(whole, d, s, at, msgs, effects, calls, ret)
    ensures whole == Run(ret, s, at, msgs, effects, calls)
  {
    hide ParseAll;
    EndBehind(at, msgs, effects, calls, ret, s);
  }

  /** A run behind what has been done already. */
  ghost function Behind(used: nat, log: seq<Message>, outs: seq<Output>, calls: nat, rest: Run): Run {
    Run(rest.code, rest.st, used + rest.used, log + rest.log, outs + rest.outs, calls + rest.calls)
  }

  lemma NothingBehind(rest: Run)
    ensures Behind(0, [], [], 0, rest) == rest
  {
  }

  lemma EndBehind(used: nat, log: seq<Message>, outs: seq<Output>, calls: nat, code: Code, st: State)
    ensures Behind(used, log, outs, calls, Run(code, st, 0, [], [], 0)) == Run(code, st, used, log, outs, calls)
  {
  }

  lemma StepBehind(s: State, d: seq<byte>)
    requires Chunks.Valid(s)
    ensures var q := Step(s, d);
            && q.used <= |d| && (q.code == Done ==> q.used >= 1)
            && ParseAll(s, d) ==
               Behind(q.used, q.msgs, q.outs, 1,
                      if q.code == Done then ParseAll(q.st, d[q.used..]) else Run(q.code, q.st, 0, [], [], 0))
  {
    hide Step, ParseAll;
    ParseStep(s, d);
    StepProgress(s, d);
  }

  lemma OneBehind(used: nat, log: seq<Message>, outs: seq<Output>, calls: nat, q: StepResult, rest: Run)
    ensures Behind(used, log, outs, calls, Behind(q.used, q.msgs, q.outs, 1, rest)) ==
            Behind(used + q.used, log + q.msgs, outs + q.outs, calls + 1, rest)
  {
    assert log + (q.msgs + rest.log) == log + q.msgs + rest.log;
    assert outs + (q.outs + rest.outs) == outs + q.outs + rest.outs;
  }

  /** What a chunk has done to the buffer does not reach the bytes behind it. */
  lemma TailStays(m: seq<byte>, r: seq<byte>, pos: nat, at: nat, used: nat, size: nat, d: seq<byte>)
    requires |r| == |m| && at + used <= size == |d| && pos + size <= |m|
    requires m[pos + at..pos + size] == d[at..] && Outside(m, r, pos + at, used)
    ensures r[pos + at + used..pos + size] == d[at + used..]
    ensures d[at..][used..] == d[at + used..]
  {
    var k := pos + at + used;
    var rest, want := r[k..pos + size], d[at + used..];
    assert d[at..][used..] == want;
    forall i | 0 <= i < |want|
      ensures rest[i] == want[i]
    {
      assert r[k..][i] == m[k..][i];
      assert m[pos + at..pos + size][used + i] == m[k + i];
    }
  }

  lemma SameOutside(m: seq<byte>, pos: nat, n: nat)
    requires pos + n <= |m|
    ensures Outside(m, m, pos, n)
  {
  }

  lemma NothingTaken(m: seq<byte>, pos: nat)
    requires pos <= |m|
    ensures Outside(m, m, pos, 0)
  {
  }

  lemma Appended(m: seq<byte>, got: seq<byte>, piece: seq<byte>)
    requires |got| + |piece| <= |m| && m[..|got|] == got
    ensures Splice(m, |got|, piece)[..|got| + |piece|] == got + piece
  {
  }

  /** Complete for a message of one chunk. */
  lemma WholeIs(v: State, h: Header, timeStamp: u32, d: seq<byte>)
    requires Chunks.Valid(v) && h.csid < MAX_CHUNK_ID && h.size < 0x1000000 && IsComplete(v, h, d)
    requires v.streams[h.csid].left == 0 && h.size <= v.ctl.maxChunk
    ensures 1 + h.len + h.size <= |d|
    ensures var st := v.streams[h.csid];
            var m := Message(h.csid, h.mtype, h.streamId, timeStamp, h.fmt == 0, st.noted,
                             d[1 + h.len..1 + h.len + h.size]);
            WellSized(m) && WellSized(m.(absolute := false)) &&
            Complete(v, h, timeStamp, d) ==
            var r := Handle(v.ctl, m);
            StepResult(r.code, v.(streams := v.streams[h.csid := Opened(st, h, timeStamp).(left := 0)], ctl := r.ctl),
                       1 + h.len + h.size, [m], r.outs)
  {
    hide Handle;
    var payload := d[1 + h.len..1 + h.len + h.size];
    assert [] + payload == payload;
  }

  lemma OutsideGrows(m: seq<byte>, r: seq<byte>, at: nat, n: nat, pos: nat, len: nat)
    requires Outside(m, r, at, n) && pos <= at && at + n <= pos + len <= |m|
    ensures Outside(m, r, pos, len)
  {
    Sub(r, 0, at, 0, pos);
    Sub(m, 0, at, 0, pos);
    Sub(r, at + n, |m|, pos + len - at - n, |m| - at - n);
    Sub(m, at + n, |m|, pos + len - at - n, |m| - at - n);
  }

  lemma BundleBodies()
    ensures CreateStreamBody() == StringBytes(Ascii("createStream")) + NumberBytes(TWO) + NULL
    ensures CheckBwBody() == StringBytes(Ascii("_checkbw")) + NumberBytes(THREE) + NULL
  {
  }

  lemma CreateBundleIs(ackSize: u32)
    ensures CreateBundle(ackSize) ==
            WinAckBytes(ackSize)
            + (Header1(3, 0x14, CreateStreamBody()) + CreateStreamBody())
            + (Header1(3, 0x14, CheckBwBody()) + CheckBwBody())
  {
    hide WinAckBytes, Header1, CreateStreamBody, CheckBwBody;
  }

  lemma PlayBundleForm(b: byte, name: streamname)
    ensures PlayBundle(b, name) ==
            Header0(8, 0x14, NO_ID, StreamLengthBody(name)) + StreamLengthBody(name)
            + (Header0(8, 0x14, [b, 0, 0, 0], PlayBody(name)) + PlayBody(name))
            + (Header1(2, 4, BufferLengthBody()) + BufferLengthBody())
  {
    hide Header0, Header1, StreamLengthBody, PlayBody, BufferLengthBody;
  }

  lemma StillZero(m: seq<byte>, done: seq<byte>, n: nat)
    requires Writers.Zeroed(m, 0, |m|) && |done| + n <= |m|
    ensures Writers.Zeroed(Splice(m, 0, done), |done|, n)
  {
  }
}
