/** What the commands of the client say to a receiver that reads AMF0. */
module Sayings {
  import opened Bytes
  import opened Amf0
  import opened Doubles
  import opened Amf0Values
  import opened Commands
  import opened Demux
  import opened RoundTrip
  import Flv

  // ---------- the numbers ----------

  lemma SmallNumbers()
    ensures ValueOf(ONE) == Some(1.0) && ValueOf(TWO) == Some(2.0) && ValueOf(THREE) == Some(3.0)
    ensures ValueOf(FOUR) == Some(4.0) && ValueOf(FIVE) == Some(5.0)
  {
    hide Pow2, ValueOf;
    Powers();
    WholeNumber(ONE, 1, 52);
    WholeNumber(TWO, 2, 51);
    WholeNumber(THREE, 3, 51);
    WholeNumber(FOUR, 4, 50);
    WholeNumber(FIVE, 5, 50);
  }

  lemma LargeNumbers()
    ensures ValueOf(FIFTEEN) == Some(15.0) && ValueOf(AUDIO_CODECS) == Some(4071.0)
    ensures ValueOf(VIDEO_CODECS) == Some(252.0) && ValueOf(MINUS_2000) == Some(-2000.0)
  {
    hide Pow2, ValueOf;
    Powers();
    WholeNumber(FIFTEEN, 15, 49);
    WholeNumber(AUDIO_CODECS, 4071, 41);
    WholeNumber(VIDEO_CODECS, 252, 45);
    WholeNumber(MINUS_2000, 2000, 42);
  }

  lemma FileNumbers()
    ensures ValueOf(Flv.ZERO) == Some(0.0) && ValueOf(Flv.SIXTY) == Some(60.0) && ValueOf(Flv.MEGA) == Some(1048576.0)
  {
    hide Pow2;
    Powers();
    assert Significand(Flv.ZERO) == 0;
    assert 0.0 / Pow2(1074) as real == 0.0;
    WholeNumber(Flv.SIXTY, 60, 47);
    WholeNumber(Flv.MEGA, 0x10_0000, 32);
  }

  // ---------- connect ----------

  /** What connect tells the server about the client. */
  function ConnectProperties(app: appname, url: urltext): seq<Property> {
    [Property(Ascii("app"), Text(app)), Property(Ascii("flashVer"), Text(Ascii("LNX 9,0,124,2"))),
     Property(Ascii("tcUrl"), Text(url)), Property(Ascii("fpad"), Boolean(false)),
     Property(Ascii("capabilities"), Number(15.0)), Property(Ascii("audioCodecs"), Number(4071.0)),
     Property(Ascii("videoCodecs"), Number(252.0)), Property(Ascii("videoFunction"), Number(1.0))]
  }

  /** The properties as they are written, in front of the object-end marker. */
  function PropertiesPart(app: appname, url: urltext): seq<byte> {
    (NameBytes(Ascii("app")) + StringBytes(app))
    + (NameBytes(Ascii("flashVer")) + StringBytes(Ascii("LNX 9,0,124,2")))
    + (NameBytes(Ascii("tcUrl")) + StringBytes(url))
    + (NameBytes(Ascii("fpad")) + BoolBytes(false))
    + (NameBytes(Ascii("capabilities")) + NumberBytes(FIFTEEN))
    + (NameBytes(Ascii("audioCodecs")) + NumberBytes(AUDIO_CODECS))
    + (NameBytes(Ascii("videoCodecs")) + NumberBytes(VIDEO_CODECS))
    + (NameBytes(Ascii("videoFunction")) + NumberBytes(ONE))
  }

  lemma OneFurther(a: seq<byte>, b: seq<byte>, c: seq<byte>, d: seq<byte>)
    ensures a + (b + c) + d == a + (b + (c + d))
  {
  }

  lemma ConnectParts(app: appname, url: urltext)
    ensures ConnectArguments(app, url) == NumberBytes(ONE) + (OBJECT_BEGIN + PropertiesPart(app, url) + OBJECT_END)
  {
    hide Ascii, StringBytes, NameBytes, NumberBytes, BoolBytes;
    var a, b := NumberBytes(ONE), OBJECT_BEGIN;
    var p1 := NameBytes(Ascii("app")) + StringBytes(app);
    var p2 := NameBytes(Ascii("flashVer")) + StringBytes(Ascii("LNX 9,0,124,2"));
    var p3 := NameBytes(Ascii("tcUrl")) + StringBytes(url);
    var p4 := NameBytes(Ascii("fpad")) + BoolBytes(false);
    var p5 := NameBytes(Ascii("capabilities")) + NumberBytes(FIFTEEN);
    var p6 := NameBytes(Ascii("audioCodecs")) + NumberBytes(AUDIO_CODECS);
    var p7 := NameBytes(Ascii("videoCodecs")) + NumberBytes(VIDEO_CODECS);
    var p8 := NameBytes(Ascii("videoFunction")) + NumberBytes(ONE);
    Regroup(a, b, p1);
    OneFurther(a, b, p1, p2);
    OneFurther(a, b, p1 + p2, p3);
    OneFurther(a, b, p1 + p2 + p3, p4);
    OneFurther(a, b, p1 + p2 + p3 + p4, p5);
    OneFurther(a, b, p1 + p2 + p3 + p4 + p5, p6);
    OneFurther(a, b, p1 + p2 + p3 + p4 + p5 + p6, p7);
    OneFurther(a, b, p1 + p2 + p3 + p4 + p5 + p6 + p7, p8);
    OneFurther(a, b, p1 + p2 + p3 + p4 + p5 + p6 + p7 + p8, OBJECT_END);
    Regroup(b, p1 + p2 + p3 + p4 + p5 + p6 + p7 + p8, OBJECT_END);
  }

  lemma TextProperty(name: seq<byte>, s: seq<byte>)
    requires 0 < |name| < 0x1_0000 && |s| < 0x1_0000
    ensures Lists(NameBytes(name) + StringBytes(s), [Property(name, Text(s))])
  {
    hide IsValue, Lists;
    TextIsValue(s);
    PropertyLists(name, StringBytes(s), Text(s));
  }

  lemma NumberProperty(name: seq<byte>, bits: seq<byte>)
    requires 0 < |name| < 0x1_0000 && |bits| == 8 && ValueOf(bits).Some?
    ensures Lists(NameBytes(name) + NumberBytes(bits), [Property(name, Number(ValueOf(bits).value))])
  {
    hide IsValue, Lists, ValueOf;
    NumberIsValue(bits);
    PropertyLists(name, NumberBytes(bits), Number(ValueOf(bits).value));
  }

  lemma OneMoreListed(d: seq<byte>, ps: seq<Property>, more: seq<byte>, p: Property, qs: seq<Property>)
    requires Lists(d, ps) && Lists(more, [p]) && ps + [p] == qs
    ensures Lists(d + more, qs)
  {
    hide Lists;
    ListsBoth(d, ps, more, [p]);
  }

  lemma ConnectLists(app: appname, url: urltext)
    ensures Lists(PropertiesPart(app, url), ConnectProperties(app, url))
  {
    hide Lists, IsValue, Ascii, Is, StringBytes, NameBytes, NumberBytes, BoolBytes, ValueOf;
    SmallNumbers();
    LargeNumbers();
    var ps := ConnectProperties(app, url);
    TextProperty(Ascii("app"), app);
    TextProperty(Ascii("flashVer"), Ascii("LNX 9,0,124,2"));
    TextProperty(Ascii("tcUrl"), url);
    BooleanIsValue(false);
    PropertyLists(Ascii("fpad"), BoolBytes(false), Boolean(false));
    NumberProperty(Ascii("capabilities"), FIFTEEN);
    NumberProperty(Ascii("audioCodecs"), AUDIO_CODECS);
    NumberProperty(Ascii("videoCodecs"), VIDEO_CODECS);
    NumberProperty(Ascii("videoFunction"), ONE);
    var d := NameBytes(Ascii("app")) + StringBytes(app);
    var more := NameBytes(Ascii("flashVer")) + StringBytes(Ascii("LNX 9,0,124,2"));
    assert ps[..1] == [Property(Ascii("app"), Text(app))];
    OneMoreListed(d, ps[..1], more, ps[1], ps[..2]);
    d, more := d + more, NameBytes(Ascii("tcUrl")) + StringBytes(url);
    OneMoreListed(d, ps[..2], more, ps[2], ps[..3]);
    d, more := d + more, NameBytes(Ascii("fpad")) + BoolBytes(false);
    OneMoreListed(d, ps[..3], more, ps[3], ps[..4]);
    d, more := d + more, NameBytes(Ascii("capabilities")) + NumberBytes(FIFTEEN);
    OneMoreListed(d, ps[..4], more, ps[4], ps[..5]);
    d, more := d + more, NameBytes(Ascii("audioCodecs")) + NumberBytes(AUDIO_CODECS);
    OneMoreListed(d, ps[..5], more, ps[5], ps[..6]);
    d, more := d + more, NameBytes(Ascii("videoCodecs")) + NumberBytes(VIDEO_CODECS);
    OneMoreListed(d, ps[..6], more, ps[6], ps[..7]);
    d, more := d + more, NameBytes(Ascii("videoFunction")) + NumberBytes(ONE);
    OneMoreListed(d, ps[..7], more, ps[7], ps);
  }

  /** Connect: its name, transaction 1, and the object of eight properties. */
  lemma ConnectSays(app: appname, url: urltext)
    ensures ReadValues(ConnectMessage(app, url).payload) ==
            Some([Text(Ascii("connect")), Number(1.0), Object(ConnectProperties(app, url))])
  {
    hide Lists, IsValue, Says, ReadValues, Ascii, Is, StringBytes, NumberBytes, PropertiesPart, ConnectProperties, ValueOf;
    var name, arguments := Ascii("connect"), Object(ConnectProperties(app, url));
    var d := OBJECT_BEGIN + PropertiesPart(app, url) + OBJECT_END;
    SmallNumbers();
    ConnectParts(app, url);
    ConnectLists(app, url);
    ObjectIsValue(PropertiesPart(app, url), ConnectProperties(app, url));
    TextIsValue(name);
    NumberIsValue(ONE);
    SaysOne(StringBytes(name), Text(name));
    SaysOne(NumberBytes(ONE), Number(1.0));
    SaysOne(d, arguments);
    SaysBoth(NumberBytes(ONE), [Number(1.0)], d, [arguments]);
    SaysBoth(StringBytes(name), [Text(name)], NumberBytes(ONE) + d, [Number(1.0)] + [arguments]);
    assert [Text(name)] + ([Number(1.0)] + [arguments]) == [Text(name), Number(1.0), arguments];
    SaysAll(StringBytes(name) + (NumberBytes(ONE) + d), [Text(name), Number(1.0), arguments]);
  }

  // ---------- the other commands ----------

  /** A name, a transaction number and a null. */
  lemma ShortSays(name: seq<byte>, bits: seq<byte>, x: real)
    requires |name| < 0x1_0000 && |bits| == 8 && ValueOf(bits) == Some(x)
    ensures Says(StringBytes(name) + NumberBytes(bits) + NULL, [Text(name), Number(x), Null])
  {
    hide IsValue, Says, ValueOf, StringBytes, NumberBytes;
    TextIsValue(name);
    NumberIsValue(bits);
    NullIsValue();
    SaysOne(StringBytes(name), Text(name));
    SaysOne(NumberBytes(bits), Number(x));
    SaysOne(NULL, Null);
    SaysBoth(StringBytes(name), [Text(name)], NumberBytes(bits), [Number(x)]);
    SaysBoth(StringBytes(name) + NumberBytes(bits), [Text(name)] + [Number(x)], NULL, [Null]);
    assert [Text(name)] + [Number(x)] + [Null] == [Text(name), Number(x), Null];
  }

  /** A command message: its name, its transaction, a null and the rest. */
  predicate IsCommand(m: OutMessage, streamId: u32, name: string, transaction: real, more: seq<Value>) {
    && m.mtype == 0x14 && m.streamId == streamId
    && match ReadValues(m.payload)
       case None => false
       case Some(vs) => |vs| >= 1 && vs[0].Text? && Is(vs[0].s, name) && vs[1..] == [Number(transaction), Null] + more
  }

  /** A control message of one word. */
  predicate IsWord(m: OutMessage, mtype: byte, n: u32) {
    m.mtype == mtype && |m.payload| == 4 && Be32(m.payload, 0) == n
  }

  lemma CommandIs(m: OutMessage, streamId: u32, name: string, transaction: real, more: seq<Value>, title: seq<byte>)
    requires m.mtype == 0x14 && m.streamId == streamId && Is(title, name)
    requires ReadValues(m.payload) == Some([Text(title), Number(transaction), Null] + more)
    ensures IsCommand(m, streamId, name, transaction, more)
  {
    hide ReadValues, Is;
    assert ([Text(title), Number(transaction), Null] + more)[1..] == [Number(transaction), Null] + more;
  }

  /** The createStream bundle: the window size, createStream as transaction 2 and _checkbw
      as transaction 3. */
  lemma CreateSays(ackSize: u32)
    ensures var ms := CreateMessages(ackSize);
            && |ms| == 3 && IsWord(ms[0], 5, ackSize)
            && IsCommand(ms[1], 0, "createStream", 2.0, []) && IsCommand(ms[2], 0, "_checkbw", 3.0, [])
  {
    hide Says, ReadValues, ValueOf, Ascii, Is, StringBytes, NumberBytes, IsCommand;
    var ms := CreateMessages(ackSize);
    var create, check := Ascii("createStream"), Ascii("_checkbw");
    SmallNumbers();
    ShortSays(create, TWO, 2.0);
    ShortSays(check, THREE, 3.0);
    assert [Text(create), Number(2.0), Null] + [] == [Text(create), Number(2.0), Null];
    assert [Text(check), Number(3.0), Null] + [] == [Text(check), Number(3.0), Null];
    SaysAll(CreateStreamBody(), [Text(create), Number(2.0), Null]);
    SaysAll(CheckBwBody(), [Text(check), Number(3.0), Null]);
    CommandIs(ms[1], 0, "createStream", 2.0, [], create);
    CommandIs(ms[2], 0, "_checkbw", 3.0, [], check);
  }

  lemma LengthSays(m: OutMessage, name: streamname)
    requires m.mtype == 0x14 && m.streamId == 0 && m.payload == StreamLengthBody(name)
    ensures IsCommand(m, 0, "getStreamLength", 4.0, [Text(name)])
  {
    hide Says, IsValue, ReadValues, ValueOf, Ascii, Is, StringBytes, NumberBytes, IsCommand;
    var title := Ascii("getStreamLength");
    SmallNumbers();
    ShortSays(title, FOUR, 4.0);
    TextIsValue(name);
    SaysOne(StringBytes(name), Text(name));
    SaysBoth(StringBytes(title) + NumberBytes(FOUR) + NULL, [Text(title), Number(4.0), Null],
             StringBytes(name), [Text(name)]);
    SaysAll(StreamLengthBody(name), [Text(title), Number(4.0), Null] + [Text(name)]);
    CommandIs(m, 0, "getStreamLength", 4.0, [Text(name)], title);
  }

  lemma PlayCommandSays(m: OutMessage, name: streamname)
    requires m.mtype == 0x14 && m.payload == PlayBody(name)
    ensures IsCommand(m, m.streamId, "play", 5.0, [Text(name), Number(-2000.0)])
  {
    hide Says, IsValue, ReadValues, ValueOf, Ascii, Is, StringBytes, NumberBytes, IsCommand;
    var title := Ascii("play");
    SmallNumbers();
    LargeNumbers();
    ShortSays(title, FIVE, 5.0);
    TextIsValue(name);
    NumberIsValue(MINUS_2000);
    SaysOne(StringBytes(name), Text(name));
    SaysOne(NumberBytes(MINUS_2000), Number(-2000.0));
    var front := StringBytes(title) + NumberBytes(FIVE) + NULL;
    SaysBoth(front, [Text(title), Number(5.0), Null], StringBytes(name), [Text(name)]);
    SaysBoth(front + StringBytes(name), [Text(title), Number(5.0), Null] + [Text(name)],
             NumberBytes(MINUS_2000), [Number(-2000.0)]);
    SaysAll(PlayBody(name), [Text(title), Number(5.0), Null] + [Text(name)] + [Number(-2000.0)]);
    assert [Text(title), Number(5.0), Null] + [Text(name)] + [Number(-2000.0)]
        == [Text(title), Number(5.0), Null] + [Text(name), Number(-2000.0)];
    CommandIs(m, m.streamId, "play", 5.0, [Text(name), Number(-2000.0)], title);
  }

  /** Set Buffer Length for one stream. */
  predicate IsBufferLength(m: OutMessage, streamId: u32, milliseconds: u32) {
    && m.mtype == 4 && |m.payload| == 10
    && Be16(m.payload, 0) == 3 && Be32(m.payload, 2) == streamId && Be32(m.payload, 6) == milliseconds
  }

  lemma BufferLengthSays()
    ensures IsBufferLength(OutMessage(1, 2, 4, 0, 0, BufferLengthBody()), 1, 3000)
  {
    var d := BufferLengthBody();
    assert d[6..10] == ToBe32(3000);
    assert Be32(d, 6) == Be32(d[6..10], 0);
  }

  /** The play bundle: getStreamLength as transaction 4 and play as transaction 5, both for
      the stream's name and the second on the stream id; and a buffer of 3000 milliseconds
      for stream 1 (sections 7.2.2.1 and 7.1.7 of Adobe's RTMP specification 1.0). */
  lemma PlaySays(idByte: byte, name: streamname)
    ensures var ms := PlayMessages(idByte, name);
            && |ms| == 3 && IsCommand(ms[0], 0, "getStreamLength", 4.0, [Text(name)])
            && IsCommand(ms[1], idByte, "play", 5.0, [Text(name), Number(-2000.0)])
            && IsBufferLength(ms[2], 1, 3000)
  {
    hide IsCommand, IsBufferLength, StreamLengthBody, PlayBody, BufferLengthBody;
    var ms := PlayMessages(idByte, name);
    LengthSays(ms[0], name);
    PlayCommandSays(ms[1], name);
    BufferLengthSays();
  }
}
