/** What each message does to the client, and to the world outside it. */
module Handlers {
  import opened Bytes
  import opened Protocol
  import opened Amf0
  import opened Audio
  import opened Video
  import opened MetaData
  import opened Flv
  import opened Commands
  import opened Doubles

  /** Everything the handlers read and write.  saveFlv selects the build that writes an
      FLV file instead of feeding the transport-stream writer, fileOpens says whether
      the file can be created. */
  datatype ControlRecord = Control(
    saveFlv: bool, fileOpens: bool, name: streamname,
    status: Status, maxChunk: u32, ackSize: u32, bandwidth: u32, streamId: seq<byte>,
    videoHead: seq<byte>, audio: AudioState, flvOpen: bool)

  type Control = c: ControlRecord | |c.audio.head| == 7 && |c.streamId| == 8
    witness Control(false, false, [], Init, 0, 0, 0, ZERO, [], AudioState([0, 0, 0, 0, 0, 0, 0], false), false)

  datatype Handled = Handled(code: Code, ctl: Control, outs: seq<Output>)

  /** The low byte of (int)x for the double x with these bits; 0 where the conversion to
      int is not defined. */
  function IdByte(bits: seq<byte>): byte
    requires |bits| == 8
  {
    var exponent := bits[0] as int % 128 * 16 + bits[1] as int / 16;
    var fraction := (bits[1] as int % 16 + 16) * 0x1_0000_0000_0000 + Be16(bits, 2) * 0x1_0000_0000 + Be32(bits, 4);
    if exponent < 1023 || exponent >= 1054 then 0
    else
      var n := fraction / Pow2(1075 - exponent);
      (if bits[0] < 128 then n else -n) % 256
  }

  /** Every number in the range of int gives the low byte of its whole part, two's
      complement; everything else, infinities included, gives 0. */
  lemma IdByteIsLowByte(bits: seq<byte>)
    requires |bits| == 8
    ensures IdByte(bits) ==
            match ValueOf(bits)
            case None => 0
            case Some(x) => if -2147483649.0 < x < 2147483648.0 then Truncated(x) % 256 else 0
  {
    hide Exponent, Significand, Pow2;
    var e, m := Exponent(bits), Significand(bits);
    Fields(bits);
    Powers();
    if e < 1023 {
      SmallSize(m, if e > 0 then 1075 - e else 1074);
    } else if e < 1054 {
      Pow2Monotone(22, 1075 - e);
      FloorOfQuotient(m, Pow2(1075 - e));
      MiddleSize(m, Pow2(1075 - e));
    } else if e < 1075 {
      Pow2Monotone(1075 - e, 21);
      LargeSize(m, Pow2(1075 - e));
    } else if e < 2047 {
      Product(m, Pow2(e - 1075));
    }
  }

  lemma Fields(bits: seq<byte>)
    requires |bits| == 8
    ensures var e, m := Exponent(bits), Significand(bits);
            && e <= 2047 && m < 0x20_0000_0000_0000 && (e > 0 ==> m >= 0x10_0000_0000_0000)
            && IdByte(bits) == if e < 1023 || e >= 1054 then 0
                               else (if bits[0] < 128 then m / Pow2(1075 - e) else -(m / Pow2(1075 - e))) % 256
  {
    hide Pow2;
  }

  function HandleWord(c: Control, d: seq<byte>, mtype: byte): Handled {
    if |d| < 4 then Handled(Overread, c, [])
    else if mtype == 1 then Handled(Done, c.(maxChunk := Be32(d, 0)), [])
    else if mtype == 5 then Handled(Done, c.(ackSize := Be32(d, 0)), [])
    else Handled(Done, c.(bandwidth := Be32(d, 0)), [])
  }

  /** A command answers the status the session is in. */
  function HandleCommand(c: Control, d: seq<byte>): Handled {
    match PopString(d, 256)
    case None => Handled(Failed, c, [])
    case Some(p) =>
      if !Is(CStr(p.value), "_result") then Handled(Done, c, [])
      else if c.status == WaitConnect then
        Handled(Done, c.(status := WaitCreateStream), [ToServer(CreateStream, CreateBundle(c.ackSize))])
      else if c.status == WaitCreateStream then HandleStreamResult(c, d[p.used..])
      else Handled(Done, c, [])
  }

  /** The answer to createStream: a number, a null and the stream id. */
  function HandleStreamResult(c: Control, d: seq<byte>): Handled {
    match PopNumber(d)
    case None => Handled(Failed, c, [])
    case Some(_) =>
      match PopNull(d[9..])
      case None => Handled(Failed, c, [])
      case Some(_) =>
        match PopNumber(d[10..])
        case None => Handled(Failed, c, [])
        case Some(id) =>
          Handled(Done, c.(status := WaitPlay, streamId := id.value),
                  [ToServer(Play, PlayBundle(IdByte(id.value), c.name))])
  }

  predicate IsMeta(m: Message) {
    m.mtype == 0x12 && PopString(m.payload, 256).Some? && Is(CStr(PopString(m.payload, 256).value.value), "onMetaData")
  }

  /** onMetaData starts the file; how its object ends does not matter. */
  function HandleMeta(c: Control, m: Message): Handled
    requires |m.noted| == 12
  {
    match PopString(m.payload, 256)
    case None => Handled(Failed, c, [])
    case Some(p) =>
      if !Is(CStr(p.value), "onMetaData") then Handled(Done, c, [])
      else
        var waiting := c.(status := WaitData);
        if !c.fileOpens then Handled(Failed, waiting.(flvOpen := false), [])
        else Handled(Done, waiting.(flvOpen := true),
                     [ToFile(FILE_HEADER), ToFile(MetaTagBytes(m.noted[6], ReadMeta(m.payload).meta))])
  }

  /** An audio or video message becomes one tag; type and DataSize are taken from the
      header copy kept with the chunk stream. */
  function HandleTag(c: Control, m: Message): Handled
    requires |m.noted| == 12 && |m.payload| < 0x100_0000
  {
    if !c.flvOpen then Handled(Failed, c, [])
    else Handled(Done, c, [ToFile(TagBytes(m.noted[6], m.noted[3..6], m.timeStamp, m.payload))])
  }

  function Packets(ps: seq<Packet>): (r: seq<Output>)
    ensures |r| == |ps| && forall i :: 0 <= i < |ps| ==> r[i] == ToTs(ps[i])
  {
    seq(|ps|, i requires 0 <= i < |ps| => ToTs(ps[i]))
  }

  predicate WellSized(m: Message) {
    |m.noted| == 12 && |m.payload| < 0x100_0000
  }

  function Handle(c: Control, m: Message): Handled
    requires WellSized(m)
  {
    if m.mtype == 1 || m.mtype == 5 || m.mtype == 6 then HandleWord(c, m.payload, m.mtype)
    else if m.mtype == 8 || m.mtype == 9 then
      if c.saveFlv then HandleTag(c, m)
      else if m.mtype == 8 then
        var r := HandleAudio(c.audio, m.payload, m.timeStamp);
        Handled(r.code, c.(audio := r.st), Packets(r.packets))
      else
        var r := HandleVideo(c.videoHead, m.payload, m.timeStamp);
        Handled(r.code, c.(videoHead := r.head), Packets(r.packets))
    else if m.mtype == 0x12 && c.saveFlv then HandleMeta(c, m)
    else if m.mtype == 0x14 then HandleCommand(c, m.payload)
    else Handled(Done, c, [])
  }

  /** Messages that differ at most in a relative time stamp. */
  predicate AlikeMessage(m: Message, n: Message) {
    && m == n.(timeStamp := m.timeStamp)
    && (m.absolute ==> m.timeStamp == n.timeStamp)
  }

  /** The time stamp reaches the outputs only. */
  lemma HandleIgnoresStamp(c: Control, m: Message, n: Message)
    requires WellSized(m) && WellSized(n) && AlikeMessage(m, n)
    ensures Handle(c, m).code == Handle(c, n).code && Handle(c, m).ctl == Handle(c, n).ctl
  {
    hide RewriteNals, SaveConfig, SavedHead, Patched, ReadMeta, HandleCommand, HandleWord;
  }

  /** No handler reports missing data. */
  lemma HandleNeverMore(c: Control, m: Message)
    requires WellSized(m)
    ensures Handle(c, m).code != More
  {
    hide RewriteNals, SavedHead, Patched, ReadMeta;
  }

  /** Only Set Chunk Size changes the chunk size. */
  lemma HandleChunkSize(c: Control, m: Message)
    requires WellSized(m)
    ensures m.mtype == 1 && Handle(c, m).code == Done ==> |m.payload| >= 4
    ensures Handle(c, m).ctl.maxChunk ==
            if m.mtype == 1 && |m.payload| >= 4 then Be32(m.payload, 0) else c.maxChunk
  {
    hide HandleAudio, HandleVideo, PlayBundle, CreateBundle, TagBytes, MetaTagBytes, ReadMeta;
  }

  /** The window size is the word of a Window Acknowledgement Size, the bandwidth that of a
      Set Peer Bandwidth, and nothing else changes either. */
  lemma HandleOtherWords(c: Control, m: Message)
    requires WellSized(m)
    ensures Handle(c, m).ctl.ackSize ==
            if m.mtype == 5 && |m.payload| >= 4 then Be32(m.payload, 0) else c.ackSize
    ensures Handle(c, m).ctl.bandwidth ==
            if m.mtype == 6 && |m.payload| >= 4 then Be32(m.payload, 0) else c.bandwidth
  {
    hide HandleAudio, HandleVideo, PlayBundle, CreateBundle, TagBytes, MetaTagBytes, ReadMeta, IdByte, PopString, CStr, Is;
  }
}
