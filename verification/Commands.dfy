/** The messages the client sends.  Bodies are AMF0; headers carry time stamp 0. */
module Commands {
  import opened Bytes
  import opened Amf0

  function Header0(csid: byte, mtype: byte, id: seq<byte>, body: seq<byte>): (h: seq<byte>)
    requires |id| == 4 && |body| < 0x100_0000
    ensures |h| == 12
  {
    [csid, 0, 0, 0] + ToBe24(|body|) + [mtype] + id
  }

  function Header1(csid: byte, mtype: byte, body: seq<byte>): (h: seq<byte>)
    requires csid < 64 && |body| < 0x100_0000
    ensures |h| == 8
  {
    [0x40 + csid, 0, 0, 0] + ToBe24(|body|) + [mtype]
  }

  const NO_ID: seq<byte> := [0, 0, 0, 0]
  const ONE: seq<byte> := [0x3F, 0xF0, 0, 0, 0, 0, 0, 0]
  const TWO: seq<byte> := [0x40, 0x00, 0, 0, 0, 0, 0, 0]
  const THREE: seq<byte> := [0x40, 0x08, 0, 0, 0, 0, 0, 0]
  const FOUR: seq<byte> := [0x40, 0x10, 0, 0, 0, 0, 0, 0]
  const FIVE: seq<byte> := [0x40, 0x14, 0, 0, 0, 0, 0, 0]
  const FIFTEEN: seq<byte> := [0x40, 0x2E, 0, 0, 0, 0, 0, 0]
  const AUDIO_CODECS: seq<byte> := [0x40, 0xAF, 0xCE, 0, 0, 0, 0, 0]
  const VIDEO_CODECS: seq<byte> := [0x40, 0x6F, 0x80, 0, 0, 0, 0, 0]
  const MINUS_2000: seq<byte> := [0xC0, 0x9F, 0x40, 0, 0, 0, 0, 0]

  /** The strings of the session fit their buffers (rtmp_app, rtmp_stream, rtmp_url). */
  type appname = s: cstring | |s| < 32
  type streamname = s: cstring | |s| < 128
  type urltext = s: cstring | |s| < 512

  function ConnectBody(app: appname, url: urltext): (r: seq<byte>)
    ensures |r| == |app| + |url| + 166
  {
    StringBytes(Ascii("connect")) + ConnectArguments(app, url)
  }

  function ConnectArguments(app: appname, url: urltext): (r: seq<byte>)
    ensures |r| == |app| + |url| + 156
  {
    NumberBytes(ONE) + OBJECT_BEGIN
    + (NameBytes(Ascii("app")) + StringBytes(app))
    + (NameBytes(Ascii("flashVer")) + StringBytes(Ascii("LNX 9,0,124,2")))
    + (NameBytes(Ascii("tcUrl")) + StringBytes(url))
    + (NameBytes(Ascii("fpad")) + BoolBytes(false))
    + (NameBytes(Ascii("capabilities")) + NumberBytes(FIFTEEN))
    + (NameBytes(Ascii("audioCodecs")) + NumberBytes(AUDIO_CODECS))
    + (NameBytes(Ascii("videoCodecs")) + NumberBytes(VIDEO_CODECS))
    + (NameBytes(Ascii("videoFunction")) + NumberBytes(ONE))
    + OBJECT_END
  }

  function WinAckBytes(size: u32): (r: seq<byte>)
    ensures |r| == 16
  {
    Header0(2, 5, NO_ID, ToBe32(size)) + ToBe32(size)
  }

  function CreateStreamBody(): (r: seq<byte>)
    ensures |r| == 25
  {
    StringBytes(Ascii("createStream")) + NumberBytes(TWO) + NULL
  }

  function CheckBwBody(): (r: seq<byte>)
    ensures |r| == 21
  {
    StringBytes(Ascii("_checkbw")) + NumberBytes(THREE) + NULL
  }

  /** What goes out after the answer to connect. */
  function CreateBundle(ackSize: u32): (r: seq<byte>)
    ensures |r| == 78
  {
    WinAckBytes(ackSize)
    + Header1(3, 0x14, CreateStreamBody()) + CreateStreamBody()
    + Header1(3, 0x14, CheckBwBody()) + CheckBwBody()
  }

  function StreamLengthBody(name: streamname): (r: seq<byte>)
    ensures |r| == |name| + 31
  {
    StringBytes(Ascii("getStreamLength")) + NumberBytes(FOUR) + NULL + StringBytes(name)
  }

  function PlayBody(name: streamname): (r: seq<byte>)
    ensures |r| == |name| + 29
  {
    StringBytes(Ascii("play")) + NumberBytes(FIVE) + NULL + StringBytes(name) + NumberBytes(MINUS_2000)
  }

  function BufferLengthBody(): (r: seq<byte>)
    ensures |r| == 10
  {
    [0, 3, 0, 0, 0, 1] + ToBe32(3000)
  }

  /** What goes out after the answer to createStream: three messages, none of them split. */
  function PlayBundle(idByte: byte, name: streamname): (r: seq<byte>)
    ensures |r| == 2 * |name| + 102
  {
    Header0(8, 0x14, NO_ID, StreamLengthBody(name)) + StreamLengthBody(name)
    + Header0(8, 0x14, [idByte, 0, 0, 0], PlayBody(name)) + PlayBody(name)
    + Header1(2, 4, BufferLengthBody()) + BufferLengthBody()
  }
}
