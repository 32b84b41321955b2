/** The methods that lay out the client's messages in a zeroed buffer and patch the
    length into the header afterwards. */
module Writers {
  import opened Bytes
  import opened Amf0
  import opened Commands
  import Splitter

  ghost predicate Zeroed(m: seq<byte>, at: nat, n: nat) {
    at + n <= |m| && forall i :: at <= i < at + n ==> m[i] == 0
  }

  /** A long header before its length is known; hlen is 12 or 8. */
  function Blank(first: byte, mtype: byte, hlen: nat): (r: seq<byte>)
    requires hlen == 12 || hlen == 8
    ensures |r| == hlen
  {
    [first, 0, 0, 0, 0, 0, 0, mtype] + if hlen == 12 then [0, 0, 0, 0] else []
  }

  lemma SpliceAppend(m: seq<byte>, at: nat, done: seq<byte>, s: seq<byte>)
    requires at + |done| + |s| <= |m|
    ensures Splice(Splice(m, at, done), at + |done|, s) == Splice(m, at, done + s)
  {
  }

  lemma SplicePatch(m: seq<byte>, at: nat, done: seq<byte>, k: nat, s: seq<byte>)
    requires at + |done| <= |m| && k + |s| <= |done|
    ensures Splice(Splice(m, at, done), at + k, s) == Splice(m, at, done[..k] + s + done[k + |s|..])
  {
  }

  /** First byte and type; the zeros between them are there already. */
  method PutBlank(buf: array<byte>, at: nat, first: byte, mtype: byte, hlen: nat)
    requires hlen == 12 || hlen == 8
    requires Zeroed(buf[..], at, hlen)
    modifies buf
    ensures buf[..] == Splice(old(buf[..]), at, Blank(first, mtype, hlen))
  {
    ghost var m := buf[..];
    buf[at] := first;
    buf[at + 7] := mtype;
    IsSplice(m, at, Blank(first, mtype, hlen), buf[..]);
  }

  lemma PatchedBlank(first: byte, mtype: byte, hlen: nat, body: seq<byte>)
    requires (hlen == 12 || hlen == 8) && |body| < 0x100_0000
    ensures var done := Blank(first, mtype, hlen) + body;
            done[..4] + ToBe24(|body|) + done[7..] ==
            [first, 0, 0, 0] + ToBe24(|body|) + [mtype] + (if hlen == 12 then [0, 0, 0, 0] else []) + body
  {
  }

  /** Patches the length of the body behind a blank header. */
  method PatchLength(buf: array<byte>, at: nat, hlen: nat, len: nat, ghost m: seq<byte>, ghost first: byte,
                     ghost mtype: byte, ghost body: seq<byte>)
    requires (hlen == 12 || hlen == 8) && |body| == len < 0x100_0000 && at + hlen + len <= buf.Length == |m|
    requires buf[..] == Splice(m, at, Blank(first, mtype, hlen) + body)
    modifies buf
    ensures buf[..] == Splice(m, at, [first, 0, 0, 0] + ToBe24(len) + [mtype]
                                     + (if hlen == 12 then [0, 0, 0, 0] else []) + body)
  {
    hide Splice, Blank, ToBe24;
    Store(buf, at + 4, ToBe24(len));
    SplicePatch(m, at, Blank(first, mtype, hlen) + body, 4, ToBe24(len));
    PatchedBlank(first, mtype, hlen, body);
  }

  /** Set Window Acknowledgement Size. */
  method WriteWinAck(buf: array<byte>, at: nat, room: int, ackSize: u32) returns (ret: int)
    requires at + room <= buf.Length && (room >= 44 ==> Zeroed(buf[..], at, 12))
    modifies buf
    ensures if room < 44 then ret == -1 && buf[..] == old(buf[..])
            else ret == 16 && buf[..] == Splice(old(buf[..]), at, WinAckBytes(ackSize))
  {
    hide Splice, Blank;
    if room < 44 {
      return -1;
    }
    ghost var m := buf[..];
    PutBlank(buf, at, 0x02, 0x05, 12);
    var pos := at + 12;
    Store(buf, pos, ToBe32(ackSize));
    SpliceAppend(m, at, Blank(2, 5, 12), ToBe32(ackSize));
    pos := pos + 4;
    PatchLength(buf, at, 12, pos - at - 12, m, 2, 5, ToBe32(ackSize));
    return pos - at;
  }

  /** A command of a name, a transaction number and a null, behind a format 1 header on
      chunk stream 3: createStream and _checkbw. */
  method WriteShortCommand(buf: array<byte>, at: nat, room: int, name: cstring, number: seq<byte>) returns (ret: int)
    requires at + room <= buf.Length && (room >= 40 ==> Zeroed(buf[..], at, 8))
    requires |name| <= 12 && |number| == 8
    modifies buf
    ensures if room < 40 then ret == -1 && buf[..] == old(buf[..])
            else var body := StringBytes(name) + NumberBytes(number) + NULL;
                 ret == 8 + |body| && buf[..] == Splice(old(buf[..]), at, Header1(3, 0x14, body) + body)
  {
    hide Splice, Blank;
    if room < 40 {
      return -1;
    }
    ghost var m := buf[..];
    PutBlank(buf, at, 0x43, 0x14, 8);
    ghost var blank := Blank(0x43, 0x14, 8);
    var pos := at + 8;
    var n := PushString(buf, pos, at + room - pos, name);
    SpliceAppend(m, at, blank, StringBytes(name));
    pos := pos + n;
    n := PushNumber(buf, pos, at + room - pos, number);
    SpliceAppend(m, at, blank + StringBytes(name), NumberBytes(number));
    pos := pos + n;
    n := PushNull(buf, pos, at + room - pos);
    SpliceAppend(m, at, blank + StringBytes(name) + NumberBytes(number), NULL);
    pos := pos + n;
    ghost var body := StringBytes(name) + NumberBytes(number) + NULL;
    assert blank + StringBytes(name) + NumberBytes(number) + NULL == blank + body;
    PatchLength(buf, at, 8, pos - at - 8, m, 0x43, 0x14, body);
    HeaderForm1(body);
    return pos - at;
  }

  lemma HeaderForm1(body: seq<byte>)
    requires |body| < 0x100_0000
    ensures [0x43, 0, 0, 0] + ToBe24(|body|) + [0x14] + [] + body == Header1(3, 0x14, body) + body
  {
  }

  lemma HeaderForm0(csid: byte, mtype: byte, body: seq<byte>)
    requires |body| < 0x100_0000
    ensures [csid, 0, 0, 0] + ToBe24(|body|) + [mtype] + [0, 0, 0, 0] + body == Header0(csid, mtype, NO_ID, body) + body
  {
  }

  /** The start of getStreamLength and of play: a blank header, name, number, null, stream name. */
  method WriteNamed(buf: array<byte>, name: cstring, number: seq<byte>, stream: streamname) returns (pos: nat)
    requires buf.Length == 1024 && Zeroed(buf[..], 0, 12) && |name| <= 15 && |number| == 8
    modifies buf
    ensures var body := StringBytes(name) + NumberBytes(number) + NULL + StringBytes(stream);
            pos == 12 + |body| && buf[..] == Splice(old(buf[..]), 0, Blank(8, 0x14, 12) + body)
  {
    hide Splice, Blank;
    ghost var m := buf[..];
    ghost var blank := Blank(8, 0x14, 12);
    PutBlank(buf, 0, 0x08, 0x14, 12);
    pos := 12;
    var n := PushString(buf, pos, buf.Length - pos, name);
    SpliceAppend(m, 0, blank, StringBytes(name));
    pos := pos + n;
    n := PushNumber(buf, pos, buf.Length - pos, number);
    SpliceAppend(m, 0, blank + StringBytes(name), NumberBytes(number));
    pos := pos + n;
    n := PushNull(buf, pos, buf.Length - pos);
    SpliceAppend(m, 0, blank + StringBytes(name) + NumberBytes(number), NULL);
    pos := pos + n;
    n := PushString(buf, pos, buf.Length - pos, stream);
    SpliceAppend(m, 0, blank + StringBytes(name) + NumberBytes(number) + NULL, StringBytes(stream));
    pos := pos + n;
    Associate(blank, StringBytes(name), NumberBytes(number), NULL, StringBytes(stream));
  }

  lemma Associate(a: seq<byte>, b: seq<byte>, c: seq<byte>, d: seq<byte>, e: seq<byte>)
    ensures a + b + c + d + e == a + (b + c + d + e)
  {
  }

  /** getStreamLength. */
  method WriteStreamLength(buf: array<byte>, stream: streamname) returns (ret: nat)
    requires buf.Length == 1024 && Zeroed(buf[..], 0, 12)
    modifies buf
    ensures var body := StreamLengthBody(stream);
            ret == 12 + |body| <= buf.Length && buf[..ret] == Header0(8, 0x14, NO_ID, body) + body
  {
    hide Splice, Blank;
    ghost var m, body := buf[..], StreamLengthBody(stream);
    ret := WriteNamed(buf, Ascii("getStreamLength"), FOUR, stream);
    PatchLength(buf, 0, 12, ret - 12, m, 8, 0x14, body);
    HeaderForm0(8, 0x14, body);
    ReadWhole(m, Header0(8, 0x14, NO_ID, body) + body);
  }

  /** play; the low byte of the stream id goes into the first byte of the header's id field. */
  method WritePlay(buf: array<byte>, idByte: byte, stream: streamname) returns (ret: nat)
    requires buf.Length == 1024 && Zeroed(buf[..], 0, 12)
    modifies buf
    ensures var body := PlayBody(stream);
            ret == 12 + |body| <= buf.Length && buf[..ret] == Header0(8, 0x14, [idByte, 0, 0, 0], body) + body
  {
    hide Splice, Blank;
    ghost var m, body := buf[..], PlayBody(stream);
    ret := WriteNamed(buf, Ascii("play"), FIVE, stream);
    ghost var front := StringBytes(Ascii("play")) + NumberBytes(FIVE) + NULL + StringBytes(stream);
    var n := PushNumber(buf, ret, buf.Length - ret, MINUS_2000);
    SpliceAppend(m, 0, Blank(8, 0x14, 12) + front, NumberBytes(MINUS_2000));
    ret := ret + n;
    Regroup(Blank(8, 0x14, 12), front, NumberBytes(MINUS_2000));
    PatchLength(buf, 0, 12, ret - 12, m, 8, 0x14, body);
    HeaderForm0(8, 0x14, body);
    ghost var plain := Header0(8, 0x14, NO_ID, body) + body;
    Store(buf, 8, [idByte]);
    SplicePatch(m, 0, plain, 8, [idByte]);
    IdInHeader(idByte, body);
    ReadWhole(m, Header0(8, 0x14, [idByte, 0, 0, 0], body) + body);
  }

  lemma IdInHeader(idByte: byte, body: seq<byte>)
    requires |body| < 0x100_0000
    ensures var plain := Header0(8, 0x14, NO_ID, body) + body;
            plain[..8] + [idByte] + plain[9..] == Header0(8, 0x14, [idByte, 0, 0, 0], body) + body
  {
  }

  /** Set Buffer Length: event 3, stream 1, 3000 milliseconds. */
  method WriteBufferLength(buf: array<byte>) returns (ret: nat)
    requires buf.Length == 1024 && Zeroed(buf[..], 0, 14)
    modifies buf
    ensures var body := BufferLengthBody();
            ret == 8 + |body| && buf[..ret] == Header1(2, 4, body) + body
  {
    hide Splice;
    ghost var m := buf[..];
    var pos := PutEvent(buf);
    ghost var front := Blank(0x42, 4, 8) + [0, 3, 0, 0, 0, 1];
    Store(buf, pos, ToBe32(3000));
    SpliceAppend(m, 0, front, ToBe32(3000));
    pos := pos + 4;
    assert front + ToBe32(3000) == Blank(0x42, 4, 8) + BufferLengthBody();
    PatchLength(buf, 0, 8, pos - 8, m, 0x42, 4, BufferLengthBody());
    assert [0x42, 0, 0, 0] + ToBe24(10) + [4] + [] + BufferLengthBody()
        == Header1(2, 4, BufferLengthBody()) + BufferLengthBody();
    ReadWhole(m, Header1(2, 4, BufferLengthBody()) + BufferLengthBody());
    return pos;
  }

  /** Header, event type and stream id of Set Buffer Length. */
  method PutEvent(buf: array<byte>) returns (pos: nat)
    requires buf.Length == 1024 && Zeroed(buf[..], 0, 14)
    modifies buf
    ensures pos == 14 && buf[..] == Splice(old(buf[..]), 0, Blank(0x42, 4, 8) + [0, 3, 0, 0, 0, 1])
  {
    ghost var m := buf[..];
    buf[0], buf[7] := 0x42, 0x04;
    pos := 8;
    buf[pos + 1] := 0x03;
    pos := pos + 2;
    buf[pos + 3] := 0x01;
    pos := pos + 4;
    IsSplice(m, 0, Blank(0x42, 4, 8) + [0, 3, 0, 0, 0, 1], buf[..]);
  }

  /** connect: the arguments, then the length, then the split with marker 0xC3. */
  method WriteConnect(buf: array<byte>, app: appname, url: urltext) returns (ret: int)
    requires buf.Length == 5120 && Zeroed(buf[..], 0, 12)
    modifies buf
    ensures var body := ConnectBody(app, url);
            ret == 12 + |Splitter.Pages(0xC3, body)| <= buf.Length &&
            buf[..ret] == Header0(3, 0x14, NO_ID, body) + Splitter.Pages(0xC3, body)
  {
    hide Splice, Blank, Splitter.Pages, ConnectBody;
    ghost var m, body := buf[..], ConnectBody(app, url);
    ConnectBodySize(app, url);
    var pos := WriteConnectBody(buf, app, url);
    PatchLength(buf, 0, 12, pos - 12, m, 3, 0x14, body);
    HeaderForm0(3, 0x14, body);
    ghost var whole := Header0(3, 0x14, NO_ID, body) + body;
    ReadWhole(m, whole);
    ghost var before := buf[..];
    HeaderAndBody(before, whole, Header0(3, 0x14, NO_ID, body), body);
    ret := Splitter.SplitPack(0xC3, 12, buf, pos);
  }

  lemma ConnectBodySize(app: appname, url: urltext)
    ensures 128 < |ConnectBody(app, url)| == |app| + |url| + 166 < 800
  {
  }

  lemma HeaderAndBody(m: seq<byte>, whole: seq<byte>, header: seq<byte>, body: seq<byte>)
    requires |whole| <= |m| && m[..|whole|] == whole == header + body
    ensures m[..|header|] == header && m[|header|..|whole|] == body
  {
    Sub(m, 0, |whole|, 0, |header|);
    Sub(m, 0, |whole|, |header|, |whole|);
    assert whole[..|header|] == header && whole[|header|..] == body;
  }

  /** The body up to tcUrl. */
  function ConnectFront(app: appname, url: urltext): (r: seq<byte>)
    ensures |r| == |app| + |url| + 64
  {
    StringBytes(Ascii("connect")) + NumberBytes(ONE) + OBJECT_BEGIN
    + (NameBytes(Ascii("app")) + StringBytes(app))
    + (NameBytes(Ascii("flashVer")) + StringBytes(Ascii("LNX 9,0,124,2")))
    + (NameBytes(Ascii("tcUrl")) + StringBytes(url))
  }

  lemma ConnectBodyIs(app: appname, url: urltext)
    ensures ConnectBody(app, url) ==
            ConnectFront(app, url)
            + (NameBytes(Ascii("fpad")) + BoolBytes(false))
            + (NameBytes(Ascii("capabilities")) + NumberBytes(FIFTEEN))
            + (NameBytes(Ascii("audioCodecs")) + NumberBytes(AUDIO_CODECS))
            + (NameBytes(Ascii("videoCodecs")) + NumberBytes(VIDEO_CODECS))
            + (NameBytes(Ascii("videoFunction")) + NumberBytes(ONE))
            + OBJECT_END
  {
    hide Ascii, StringBytes, NameBytes, NumberBytes, BoolBytes;
  }

  /** Command name, transaction number, start of the argument object. */
  method WriteConnectStart(buf: array<byte>) returns (pos: nat, ghost acc: seq<byte>)
    requires buf.Length == 5120 && Zeroed(buf[..], 0, 12)
    modifies buf
    ensures acc == Blank(3, 0x14, 12) + (StringBytes(Ascii("connect")) + NumberBytes(ONE) + OBJECT_BEGIN)
    ensures pos == |acc| == 32 && buf[..] == Splice(old(buf[..]), 0, acc)
  {
    hide Splice, Blank;
    ghost var m := buf[..];
    acc := Blank(3, 0x14, 12);
    PutBlank(buf, 0, 0x03, 0x14, 12);
    pos := 12;
    var n := PushString(buf, pos, buf.Length - pos, Ascii("connect"));
    SpliceAppend(m, 0, acc, StringBytes(Ascii("connect")));
    pos, acc := pos + n, acc + StringBytes(Ascii("connect"));
    n := PushNumber(buf, pos, buf.Length - pos, ONE);
    SpliceAppend(m, 0, acc, NumberBytes(ONE));
    pos, acc := pos + n, acc + NumberBytes(ONE);
    n := PushObjectHeader(buf, pos, buf.Length - pos);
    SpliceAppend(m, 0, acc, OBJECT_BEGIN);
    pos, acc := pos + n, acc + OBJECT_BEGIN;
  }

  method WriteConnectFront(buf: array<byte>, app: appname, url: urltext) returns (pos: nat)
    requires buf.Length == 5120 && Zeroed(buf[..], 0, 12)
    modifies buf
    ensures pos == 12 + |ConnectFront(app, url)|
    ensures buf[..] == Splice(old(buf[..]), 0, Blank(3, 0x14, 12) + ConnectFront(app, url))
  {
    hide Splice, Blank, Ascii, Is, StringBytes, NameBytes, NumberBytes;
    ghost var m, acc := buf[..], [];
    pos, acc := WriteConnectStart(buf);
    pos, acc := PushNamedString(buf, pos, Ascii("app"), app, m, acc);
    pos, acc := PushNamedString(buf, pos, Ascii("flashVer"), Ascii("LNX 9,0,124,2"), m, acc);
    pos, acc := PushNamedString(buf, pos, Ascii("tcUrl"), url, m, acc);
    FrontIs(app, url);
  }

  lemma FrontIs(app: appname, url: urltext)
    ensures Blank(3, 0x14, 12) + (StringBytes(Ascii("connect")) + NumberBytes(ONE) + OBJECT_BEGIN)
            + (NameBytes(Ascii("app")) + StringBytes(app))
            + (NameBytes(Ascii("flashVer")) + StringBytes(Ascii("LNX 9,0,124,2")))
            + (NameBytes(Ascii("tcUrl")) + StringBytes(url))
            == Blank(3, 0x14, 12) + ConnectFront(app, url)
  {
    hide Ascii, StringBytes, NameBytes, NumberBytes, Blank;
  }

  method WriteConnectBody(buf: array<byte>, app: appname, url: urltext) returns (pos: nat)
    requires buf.Length == 5120 && Zeroed(buf[..], 0, 12)
    modifies buf
    ensures pos == 12 + |ConnectBody(app, url)|
    ensures buf[..] == Splice(old(buf[..]), 0, Blank(3, 0x14, 12) + ConnectBody(app, url))
  {
    hide Splice, Blank, Ascii, Is, StringBytes, NameBytes, NumberBytes, BoolBytes, ConnectBody, ConnectFront;
    ghost var m := buf[..];
    pos := WriteConnectFront(buf, app, url);
    ghost var acc := Blank(3, 0x14, 12) + ConnectFront(app, url);
    pos, acc := PushNamedBool(buf, pos, Ascii("fpad"), false, m, acc);
    pos, acc := PushNamedNumber(buf, pos, Ascii("capabilities"), FIFTEEN, m, acc);
    pos, acc := PushNamedNumber(buf, pos, Ascii("audioCodecs"), AUDIO_CODECS, m, acc);
    pos, acc := PushNamedNumber(buf, pos, Ascii("videoCodecs"), VIDEO_CODECS, m, acc);
    pos, acc := PushNamedNumber(buf, pos, Ascii("videoFunction"), ONE, m, acc);
    var n := PushObjectEnder(buf, pos, buf.Length - pos);
    SpliceAppend(m, 0, acc, OBJECT_END);
    pos := pos + n;
    BodyIs(app, url);
  }

  lemma BodyIs(app: appname, url: urltext)
    ensures Blank(3, 0x14, 12) + ConnectFront(app, url)
            + (NameBytes(Ascii("fpad")) + BoolBytes(false))
            + (NameBytes(Ascii("capabilities")) + NumberBytes(FIFTEEN))
            + (NameBytes(Ascii("audioCodecs")) + NumberBytes(AUDIO_CODECS))
            + (NameBytes(Ascii("videoCodecs")) + NumberBytes(VIDEO_CODECS))
            + (NameBytes(Ascii("videoFunction")) + NumberBytes(ONE))
            + OBJECT_END
            == Blank(3, 0x14, 12) + ConnectBody(app, url)
  {
    ConnectBodyIs(app, url);
    hide Ascii, StringBytes, NameBytes, NumberBytes, BoolBytes, Blank, ConnectBody, ConnectFront;
  }

  /** A property with a string value. */
  method PushNamedString(buf: array<byte>, at: nat, name: cstring, value: cstring, ghost m: seq<byte>, ghost acc: seq<byte>)
    returns (pos: nat, ghost done: seq<byte>)
    requires |name| < 16 && |value| < 512
    requires at == |acc| && at + |name| + |value| + 5 <= buf.Length == |m| && buf[..] == Splice(m, 0, acc)
    modifies buf
    ensures done == acc + (NameBytes(name) + StringBytes(value)) && pos == |done| <= buf.Length
    ensures buf[..] == Splice(m, 0, done)
  {
    hide Splice;
    var n := PushName(buf, at, buf.Length - at, name);
    SpliceAppend(m, 0, acc, NameBytes(name));
    pos := at + n;
    n := PushString(buf, pos, buf.Length - pos, value);
    SpliceAppend(m, 0, acc + NameBytes(name), StringBytes(value));
    pos := pos + n;
    Regroup(acc, NameBytes(name), StringBytes(value));
    done := acc + (NameBytes(name) + StringBytes(value));
  }

  /** A property with a number. */
  method PushNamedNumber(buf: array<byte>, at: nat, name: cstring, value: seq<byte>, ghost m: seq<byte>, ghost acc: seq<byte>)
    returns (pos: nat, ghost done: seq<byte>)
    requires |name| < 16 && |value| == 8
    requires at == |acc| && at + |name| + 11 <= buf.Length == |m| && buf[..] == Splice(m, 0, acc)
    modifies buf
    ensures done == acc + (NameBytes(name) + NumberBytes(value)) && pos == |done| <= buf.Length
    ensures buf[..] == Splice(m, 0, done)
  {
    hide Splice;
    var n := PushName(buf, at, buf.Length - at, name);
    SpliceAppend(m, 0, acc, NameBytes(name));
    pos := at + n;
    n := PushNumber(buf, pos, buf.Length - pos, value);
    SpliceAppend(m, 0, acc + NameBytes(name), NumberBytes(value));
    pos := pos + n;
    Regroup(acc, NameBytes(name), NumberBytes(value));
    done := acc + (NameBytes(name) + NumberBytes(value));
  }

  /** A property with a boolean. */
  method PushNamedBool(buf: array<byte>, at: nat, name: cstring, value: bool, ghost m: seq<byte>, ghost acc: seq<byte>)
    returns (pos: nat, ghost done: seq<byte>)
    requires |name| < 16
    requires at == |acc| && at + |name| + 4 <= buf.Length == |m| && buf[..] == Splice(m, 0, acc)
    modifies buf
    ensures done == acc + (NameBytes(name) + BoolBytes(value)) && pos == |done| <= buf.Length
    ensures buf[..] == Splice(m, 0, done)
  {
    hide Splice;
    var n := PushName(buf, at, buf.Length - at, name);
    SpliceAppend(m, 0, acc, NameBytes(name));
    pos := at + n;
    n := PushBool(buf, pos, buf.Length - pos, value);
    SpliceAppend(m, 0, acc + NameBytes(name), BoolBytes(value));
    pos := pos + n;
    Regroup(acc, NameBytes(name), BoolBytes(value));
    done := acc + (NameBytes(name) + BoolBytes(value));
  }
}
