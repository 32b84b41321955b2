/** Everything the client offers to the server behind the handshake, read back by a receiver. */
module Offers {
  import opened Bytes
  import opened Protocol
  import opened Amf0
  import opened Audio
  import opened Video
  import opened MetaData
  import opened Flv
  import opened Commands
  import opened Handlers
  import opened Outcomes
  import opened Chunks
  import opened Demux
  import opened RoundTrip
  import opened Session
  import opened Network
  import opened Client
  import ClientRuns
  import Fragmentation
  import Retries

  // ---------- what is offered ----------

  /** The bytes of the first n of connect, the createStream bundle and the play bundle. */
  function OfferBytes(n: nat, app: appname, url: urltext, ackSize: u32, idByte: byte, name: streamname): seq<byte> {
    (if n >= 1 then ConnectBytes(app, url) else [])
    + (if n >= 2 then CreateBundle(ackSize) else [])
    + (if n >= 3 then PlayBundle(idByte, name) else [])
  }

  /** Their messages. */
  function OfferMessages(n: nat, app: appname, url: urltext, ackSize: u32, idByte: byte, name: streamname): seq<OutMessage> {
    (if n >= 1 then [ConnectMessage(app, url)] else [])
    + (if n >= 2 then CreateMessages(ackSize) else [])
    + (if n >= 3 then PlayMessages(idByte, name) else [])
  }

  /** What arrives behind messages that have arrived. */
  lemma ArrivesBehind(snd: Sender, s: State, a: seq<byte>, b: seq<byte>, ma: seq<OutMessage>, mb: seq<OutMessage>)
    requires Valid(s) && ArrivesAs(snd, ParseAll(s, a), |a|, ma)
    ensures ArrivesAs(snd, ParseAll(s, a + b), |a + b|, ma + mb) <==>
            ArrivesAs(snd, ParseAll(ParseAll(s, a).st, b), |b|, mb)
  {
    hide ParseAll, Mirrors, Carries, Retries.CleanStop;
    var r, whole := ParseAll(s, a), ParseAll(s, a + b);
    assert a[r.used..] == [] && [] + b == b;
    NothingStopped(r.st);
    Retries.CleanGrows(s, a, b);
    var rest := ParseAll(r.st, b);
    CarriesParts(r.log, rest.log, ma, mb);
  }

  lemma NothingStopped(s: State)
    ensures Retries.CleanStop(s, [])
  {
  }

  lemma CarriesParts(a: seq<Message>, b: seq<Message>, ma: seq<OutMessage>, mb: seq<OutMessage>)
    requires CarriesAll(a, ma)
    ensures CarriesAll(a + b, ma + mb) <==> CarriesAll(b, mb)
  {
    hide Carries;
    if CarriesAll(a + b, ma + mb) {
      forall i | 0 <= i < |b|
        ensures Carries(b[i], mb[i])
      {
        assert Carries((a + b)[|a| + i], (ma + mb)[|a| + i]);
      }
    }
  }

  /** The offers are read back as their messages, in order and to the last byte, exactly if
      the play bundle is not among them or the stream name has at most 97 bytes. */
  lemma OffersReadBack(snd: Sender, s: State, n: nat, app: appname, url: urltext, ackSize: u32, idByte: byte,
                       name: streamname)
    requires Mirrors(snd, s) && AllIdle(snd) && snd.chunk == 128 && n <= 3
    ensures var bytes := OfferBytes(n, app, url, ackSize, idByte, name);
            ArrivesAs(snd, ParseAll(s, bytes), |bytes|, OfferMessages(n, app, url, ackSize, idByte, name))
            <==> n < 3 || |name| <= 97
  {
    hide ParseAll, Mirrors, ConnectBytes, CreateBundle, PlayBundle, CreateMessages, PlayMessages, ConnectMessage, ArrivesAs,
      AllIdle;
    MirrorsValid(snd, s);
    var connect, create, play := ConnectBytes(app, url), CreateBundle(ackSize), PlayBundle(idByte, name);
    var mc, mk, mp := [ConnectMessage(app, url)], CreateMessages(ackSize), PlayMessages(idByte, name);
    NothingArrives(snd, s);
    if n >= 1 {
      ConnectArrives(snd, s, app, url);
      assert OfferBytes(1, app, url, ackSize, idByte, name) == connect;
      assert OfferMessages(1, app, url, ackSize, idByte, name) == mc;
    }
    if n >= 2 {
      ArrivedMirrors(snd, s, connect, mc);
      CreateBundleReadsBack(snd, ParseAll(s, connect).st, ackSize);
      ArrivesBehind(snd, s, connect, create, mc, mk);
      assert OfferBytes(2, app, url, ackSize, idByte, name) == connect + create;
      assert OfferMessages(2, app, url, ackSize, idByte, name) == mc + mk;
    }
    if n == 3 {
      ArrivedMirrors(snd, s, connect + create, mc + mk);
      PlayBundleReadsBack(snd, ParseAll(s, connect + create).st, idByte, name);
      ArrivesBehind(snd, s, connect + create, play, mc + mk, mp);
    }
  }

  lemma NothingArrives(snd: Sender, s: State)
    requires Mirrors(snd, s)
    ensures ArrivesAs(snd, ParseAll(s, []), 0, [])
  {
    ParseNothing(snd, s);
  }

  lemma ConnectArrives(snd: Sender, s: State, app: appname, url: urltext)
    requires Mirrors(snd, s) && AllIdle(snd) && snd.chunk == 128
    ensures ArrivesAs(snd, ParseAll(s, ConnectBytes(app, url)), |ConnectBytes(app, url)|, [ConnectMessage(app, url)])
  {
    hide ParseAll, Mirrors, ArrivesAs, AllIdle;
    ConnectReadsBack(snd, s, app, url);
  }

  lemma ArrivedMirrors(snd: Sender, s: State, a: seq<byte>, ms: seq<OutMessage>)
    requires Valid(s) && ArrivesAs(snd, ParseAll(s, a), |a|, ms)
    ensures Mirrors(snd, ParseAll(s, a).st)
  {
    hide Mirrors, ParseAll, Carries;
  }

  // ---------- that it is what the client offers ----------

  lemma {:induction false} ServerBytesBoth(a: seq<Output>, b: seq<Output>)
    ensures ServerBytes(a + b) == ServerBytes(a) + ServerBytes(b)
    decreases |b|
  {
    hide ServerBytes;
    if b == [] {
      assert a + b == a;
      NoBytes();
    } else {
      var front, last := b[..|b| - 1], b[|b| - 1];
      ServerBytesBoth(a, front);
      assert a + b == a + front + [last] && b == front + [last];
      OneMoreOutput(a + front, last);
      OneMoreOutput(front, last);
      Regroup(ServerBytes(a), ServerBytes(front), if last.ToServer? then last.bytes else []);
    }
  }

  lemma NoBytes()
    ensures ServerBytes([]) == []
  {
  }

  lemma OneOutput(o: Output)
    requires o.ToServer?
    ensures ServerBytes([o]) == o.bytes && Bundles([o]) == [o.bundle]
  {
    assert [o] == [] + [o] && [o][1..] == [];
    OneMoreOutput([], o);
  }

  // ---------- what the server's messages make of it ----------

  /** The messages a client answers: those in front of the metadata, if it saves a file. */
  function Talk(saveFlv: bool, log: seq<Message>): (r: seq<Message>)
    ensures r <= log
  {
    if log == [] || (saveFlv && IsMeta(log[0])) then [] else [log[0]] + Talk(saveFlv, log[1..])
  }

  /** The place of the first `_result`, or the end. */
  function FirstAnswer(talk: seq<Message>): (i: nat)
    ensures i <= |talk| && (i < |talk| ==> IsAnswer(talk[i])) && forall k :: 0 <= k < i ==> !IsAnswer(talk[k])
  {
    if talk == [] || IsAnswer(talk[0]) then 0 else 1 + FirstAnswer(talk[1..])
  }

  /** The window size the server has announced last. */
  function Window(before: u32, talk: seq<Message>): u32 {
    if talk == [] then before
    else
      var last := talk[|talk| - 1];
      if last.mtype == 5 && |last.payload| >= 4 then Be32(last.payload, 0) else Window(before, talk[..|talk| - 1])
  }

  /** The third value of an answer to createStream. */
  function IdOf(m: Message): (bits: seq<byte>)
    ensures |bits| == 8
  {
    if StartsWithText(m.payload) && StartsWithStreamId(BehindText(m.payload)) then BehindText(m.payload)[11..19] else ZERO
  }

  lemma IdIsThirdValue(m: Message, name: seq<byte>, transaction: seq<byte>, id: seq<byte>, rest: seq<byte>)
    requires |name| < 256 && |transaction| == |id| == 8
    requires m.payload == StringBytes(name) + (NumberBytes(transaction) + NULL + NumberBytes(id) + rest)
    ensures IdOf(m) == id
  {
    hide StringBytes, StartsWithText, BehindText;
    var d := NumberBytes(transaction) + NULL + NumberBytes(id) + rest;
    TextBytes(name, d);
    assert d[11..19] == id;
  }

  /** How far the client has got with its three bundles: connect, one answer, two answers. */
  function Asked(talk: seq<Message>): (n: nat)
    ensures 1 <= n <= 3
  {
    var i := FirstAnswer(talk);
    if i == |talk| then 1 else if FirstAnswer(talk[i + 1..]) == |talk| - i - 1 then 2 else 3
  }

  /** The window size in the createStream bundle: the last one announced in front of the
      first answer. */
  function AskedWindow(before: u32, talk: seq<Message>): u32 {
    Window(before, talk[..FirstAnswer(talk)])
  }

  /** The stream id in the play bundle: the low byte of the number in the second answer. */
  function AskedId(talk: seq<Message>): byte {
    var behind := BehindFirst(talk);
    var j := FirstAnswer(behind);
    if j == |behind| then 0 else IdByte(IdOf(behind[j]))
  }

  function BehindFirst(talk: seq<Message>): seq<Message> {
    var i := FirstAnswer(talk);
    if i == |talk| then [] else talk[i + 1..]
  }

  /** The answer to createStream. */
  function PlayPart(name: streamname, talk: seq<Message>): seq<byte> {
    var i := FirstAnswer(talk);
    if i == |talk| then [] else PlayBundle(IdByte(IdOf(talk[i])), name)
  }

  /** The answers of the client. */
  function Replies(before: u32, name: streamname, talk: seq<Message>): seq<byte> {
    (if Asked(talk) >= 2 then CreateBundle(AskedWindow(before, talk)) else [])
    + (if Asked(talk) >= 3 then PlayBundle(AskedId(talk), name) else [])
  }

  lemma RepliesToFirst(before: u32, name: streamname, talk: seq<Message>)
    requires talk != [] && IsAnswer(talk[0])
    ensures Replies(before, name, talk) == CreateBundle(before) + PlayPart(name, talk[1..])
  {
    hide IsAnswer, CreateBundle, PlayBundle, IdByte, IdOf;
    assert talk[..0] == [];
  }

  lemma RepliesToRest(before: u32, name: streamname, talk: seq<Message>)
    requires talk != [] && !IsAnswer(talk[0])
    ensures Replies(before, name, talk) == Replies(Window(before, [talk[0]]), name, talk[1..])
    ensures PlayPart(name, talk) == PlayPart(name, talk[1..])
  {
    hide IsAnswer, CreateBundle, PlayBundle, IdByte, IdOf, Window;
    var rest := talk[1..];
    var i := FirstAnswer(rest);
    assert FirstAnswer(talk) == i + 1;
    if i < |rest| {
      assert talk[i + 2..] == rest[i + 1..];
    }
    assert talk[..i + 1] == [talk[0]] + rest[..i];
    WindowOfRest(before, talk[0], rest[..i]);
  }

  lemma {:induction false} WindowOfRest(before: u32, m: Message, rest: seq<Message>)
    ensures Window(before, [m] + rest) == Window(Window(before, [m]), rest)
    decreases |rest|
  {
    if rest == [] {
      assert [m] + rest == [m];
    } else {
      var less := rest[..|rest| - 1];
      WindowOfRest(before, m, less);
      assert ([m] + rest)[..|rest|] == [m] + less;
    }
  }

  lemma NoReplies(before: u32, name: streamname)
    ensures Replies(before, name, []) == [] && PlayPart(name, []) == []
  {
  }

  // ---------- that the client says just that ----------

  predicate Answering(c: Control, m: Message, h: Handled)
    requires WellSized(m)
  {
    && h.ctl.name == c.name && h.ctl.saveFlv == c.saveFlv
    && if StartsFile(c, m) then Owed(h.ctl.status) == [] && ServerBytes(h.outs) == []
       else if IsAnswer(m) && c.status == WaitConnect then
         h.ctl.status == WaitCreateStream && h.ctl.ackSize == c.ackSize && ServerBytes(h.outs) == CreateBundle(c.ackSize)
       else if IsAnswer(m) && c.status == WaitCreateStream then
         h.ctl.status == WaitPlay && ServerBytes(h.outs) == PlayBundle(IdByte(IdOf(m)), c.name)
       else h.ctl.status == c.status && h.ctl.ackSize == Window(c.ackSize, [m]) && ServerBytes(h.outs) == []
  }

  lemma OneMessageAnswered(c: Control, m: Message)
    requires WellSized(m) && Handle(c, m).code == Done
    ensures Answering(c, m, Handle(c, m))
  {
    hide *;
    if m.mtype == 0x14 {
      CommandAnswered(c, m);
    } else {
      OthersSendNothing(c, m);
    }
  }

  lemma OthersSendNothing(c: Control, m: Message)
    requires WellSized(m) && Handle(c, m).code == Done && m.mtype != 0x14
    ensures Answering(c, m, Handle(c, m))
  {
    hide HandleAudio, HandleVideo, ReadMeta, MetaTagBytes, TagBytes, CreateBundle, PlayBundle, IdByte, ServerBytes, Bundles,
      Amf0.PopString, Is, CStr, IdOf, Names;
    var outs := Handle(c, m).outs;
    SameWindow(c.ackSize, m);
    NoBytes();
    NothingForServer([], outs);
    assert [] + outs == outs;
  }

  lemma CommandAnswered(c: Control, m: Message)
    requires WellSized(m) && Handle(c, m).code == Done && m.mtype == 0x14
    ensures Answering(c, m, Handle(c, m))
  {
    hide Amf0.PopString, Is, CStr, CreateBundle, PlayBundle, IdByte, ServerBytes, Bundles, Names, HandleStreamResult, IdOf,
      StartsWithText, BehindText;
    var outs := Handle(c, m).outs;
    NamesIsPopped(m.payload, "_result");
    TextIsPopped(m.payload);
    SameWindow(c.ackSize, m);
    NoBytes();
    if IsAnswer(m) && c.status == WaitConnect {
      OneOutput(outs[0]);
      assert outs == [outs[0]];
    } else if IsAnswer(m) && c.status == WaitCreateStream {
      BehindIs(m.payload);
      IdIsKept(c, m);
      OneOutput(outs[0]);
      assert outs == [outs[0]];
    }
  }

  lemma SameWindow(before: u32, m: Message)
    ensures Window(before, [m]) == if m.mtype == 5 && |m.payload| >= 4 then Be32(m.payload, 0) else before
  {
    assert [m][..0] == [];
  }

  lemma IdIsKept(c: Control, m: Message)
    requires StartsWithText(m.payload) && HandleStreamResult(c, BehindText(m.payload)).code == Done
    ensures var h := HandleStreamResult(c, BehindText(m.payload));
            && h.ctl == c.(status := WaitPlay, streamId := IdOf(m))
            && h.outs == [ToServer(Play, PlayBundle(IdByte(IdOf(m)), c.name))]
  {
    hide PlayBundle, IdByte, StartsWithText, BehindText;
    var d := BehindText(m.payload);
    assert d[10..][1..9] == d[11..19];
  }

  /** Over every run that goes well the bytes for the server are these answers. */
  lemma {:induction false} RunReplies(c: Control, log: seq<Message>)
    requires (forall m :: m in log ==> WellSized(m)) && HandleAll(c, log).code == Done
    ensures var bytes, talk := ServerBytes(HandleAll(c, log).outs), Talk(c.saveFlv, log);
            && (c.status == WaitConnect ==> bytes == Replies(c.ackSize, c.name, talk))
            && (c.status == WaitCreateStream ==> bytes == PlayPart(c.name, talk))
            && (Owed(c.status) == [] ==> bytes == [])
    decreases |log|
  {
    hide Handle, WellSized, ServerBytes, CreateBundle, PlayBundle, IdByte, IsAnswer, IsMeta, Replies, PlayPart, Window, IdOf;
    NoBytes();
    NoReplies(c.ackSize, c.name);
    if log != [] {
      var m, talk := log[0], Talk(c.saveFlv, log);
      var r := Handle(c, m);
      OneMessageAnswered(c, m);
      RunReplies(r.ctl, log[1..]);
      ServerBytesBoth(r.outs, HandleAll(r.ctl, log[1..]).outs);
      if !StartsFile(c, m) {
        assert talk == [m] + Talk(c.saveFlv, log[1..]);
        assert talk[1..] == Talk(c.saveFlv, log[1..]);
        if IsAnswer(m) {
          RepliesToFirst(c.ackSize, c.name, talk);
          PlayFirst(c.name, talk);
        } else {
          RepliesToRest(c.ackSize, c.name, talk);
        }
      }
      NothingAdded(ServerBytes(r.outs), ServerBytes(HandleAll(r.ctl, log[1..]).outs));
    }
  }

  lemma PlayFirst(name: streamname, talk: seq<Message>)
    requires talk != [] && IsAnswer(talk[0])
    ensures PlayPart(name, talk) == PlayBundle(IdByte(IdOf(talk[0])), name)
  {
    hide IsAnswer, PlayBundle, IdByte, IdOf;
  }

  lemma NothingAdded(a: seq<byte>, b: seq<byte>)
    ensures a == [] ==> a + b == b
    ensures b == [] ==> a + b == a
  {
  }

  function CountAnswers(talk: seq<Message>): nat {
    if talk == [] then 0 else (if IsAnswer(talk[0]) then 1 else 0) + CountAnswers(talk[1..])
  }

  lemma {:induction false} CountFromFirst(talk: seq<Message>)
    ensures CountAnswers(talk) == if FirstAnswer(talk) == |talk| then 0 else 1 + CountAnswers(BehindFirst(talk))
  {
    hide IsAnswer;
    if talk != [] && !IsAnswer(talk[0]) {
      var rest := talk[1..];
      CountFromFirst(rest);
      if FirstAnswer(rest) < |rest| {
        assert BehindFirst(talk) == BehindFirst(rest);
      }
    }
  }

  lemma {:induction false} AnswersAreCounted(c: Control, log: seq<Message>)
    ensures Answers(c, log) == CountAnswers(Talk(c.saveFlv, log))
  {
    hide IsAnswer, IsMeta;
    if log != [] && !StartsFile(c, log[0]) {
      AnswersAreCounted(c, log[1..]);
      assert Talk(c.saveFlv, log)[1..] == Talk(c.saveFlv, log[1..]);
    }
  }

  /** The client has got one bundle further with each of the first two answers. */
  lemma AskedIsCount(c: Control, log: seq<Message>)
    ensures Asked(Talk(c.saveFlv, log)) == 1 + Least(2, Answers(c, log))
  {
    hide IsAnswer, IsMeta, Talk, CountAnswers, FirstAnswer;
    var talk := Talk(c.saveFlv, log);
    AnswersAreCounted(c, log);
    CountFromFirst(talk);
    CountFromFirst(BehindFirst(talk));
  }

  /** What the connection has been given when the server has said talk: C0C1, C2 if S0 and S1
      have come, connect if the handshake is over, and the answers of the client, with the
      window size the server has announced and the stream id it has given. */
  ghost predicate Offering(c: RtmpClient, before: u32, talk: seq<Message>)
    reads c.rtmpSocket, c`outs
  {
    var sent := |Bundles(c.outs)|;
    && 1 <= sent && (sent <= 2 || sent == 2 + Asked(talk))
    && Offered(c.rtmpSocket.sends) ==
       c.before + (HelloBytes() + (if sent >= 2 then EchoBytes() else [])
                   + OfferBytes(if sent <= 2 then 0 else Asked(talk), c.rtmpApp, c.rtmpUrl, AskedWindow(before, talk),
                                AskedId(talk), c.rtmpStream))
  }

  /** What the server has said to a client: the messages accepted. */
  function Said(ctl: Control, log: seq<Message>): seq<Message> {
    Talk(ctl.saveFlv, Accepted(PhaseOf(ctl), log))
  }

  /** Every client offers exactly that; with OffersReadBack, a receiver reads it back as the
      messages of these bundles, exactly if the play bundle is not among them or the stream
      name has at most 97 bytes. */
  lemma ClientOffers(c: RtmpClient, rcvd: seq<byte>, stage: Stage, s: State)
    requires c.Shape() && c.Linked() && Chunks.Valid(s) && c.Received(rcvd, stage, s, [], [HELLO])
    requires s.ctl.name == c.rtmpStream
    ensures Offering(c, s.ctl.ackSize, Said(Started(s, WaitConnect).ctl, c.log))
  {
    hide Fragmentation.Feed, HandleAll, WellSized, Bundles, ServerBytes, Offered, AllSent, OfferBytes, Offering, Said;
    match stage {
      case Handshaking =>
        GreetedOffers(c, s, s.ctl.ackSize, Said(Started(s, WaitConnect).ctl, c.log));
      case Refused =>
        NothingSaid(Started(s, WaitConnect).ctl);
        GreetingOffers(c, s.ctl.ackSize);
      case Connected(pieces) =>
        ConnectedOffers(c, rcvd, pieces, s);
    }
  }

  lemma NothingSaid(ctl: Control)
    ensures Said(ctl, []) == [] && Asked([]) == 1
  {
  }

  lemma GreetedOffers(c: RtmpClient, s: State, before: u32, talk: seq<Message>)
    requires c.Shape() && c.Linked() && Chunks.Valid(s) && c.Greeted(s, [], [HELLO])
    ensures Offering(c, before, talk)
  {
    hide HelloBytes, EchoBytes, Bundles, ServerBytes, Offered, ConnectBytes, CreateBundle, PlayBundle, AllSent, Asked,
      AskedId, AskedWindow;
    OneOutput(HELLO);
    OneOutput(ECHO);
    ServerBytesBoth([HELLO], [ECHO]);
    BundlesBoth([HELLO], [ECHO]);
  }

  lemma GreetingSays(c: RtmpClient)
    ensures Bundles([HELLO] + c.Greeting()) == [C0C1, C2, Connect]
    ensures ServerBytes([HELLO] + c.Greeting()) == HelloBytes() + (EchoBytes() + ConnectBytes(c.rtmpApp, c.rtmpUrl))
  {
    hide HelloBytes, EchoBytes, Bundles, ServerBytes, ConnectBytes;
    var connect := ToServer(Connect, ConnectBytes(c.rtmpApp, c.rtmpUrl));
    OneOutput(HELLO);
    OneOutput(ECHO);
    OneOutput(connect);
    assert c.Greeting() == [ECHO] + [connect];
    ServerBytesBoth([ECHO], [connect]);
    ServerBytesBoth([HELLO], c.Greeting());
    ClientRuns.ConnectFirst(c);
  }

  lemma GreetingOffers(c: RtmpClient, before: u32)
    requires c.Linked() && c.outs == [HELLO] + c.Greeting()
    ensures Offering(c, before, [])
  {
    hide HelloBytes, EchoBytes, Bundles, ServerBytes, Offered, ConnectBytes, CreateBundle, PlayBundle;
    GreetingSays(c);
  }

  lemma ConnectedOffers(c: RtmpClient, rcvd: seq<byte>, pieces: seq<seq<byte>>, s: State)
    requires c.Shape() && c.Linked() && Chunks.Valid(s) && c.Received(rcvd, Connected(pieces), s, [], [HELLO])
    requires s.ctl.name == c.rtmpStream
    ensures Offering(c, s.ctl.ackSize, Said(Started(s, WaitConnect).ctl, c.log))
  {
    hide *;
    var ctl := StartedCtl(c, s);
    ClientRuns.ConnectedMeans(c, rcvd, pieces, s);
    var h := HandleAll(ctl, c.log);
    SaidIsAnswered(ctl, c.log);
    SentBehindGreeting(c, ctl, h, Said(ctl, c.log));
  }

  lemma SaidIsAnswered(ctl: Control, log: seq<Message>)
    requires (forall m :: m in log ==> WellSized(m)) && ctl.status == WaitConnect
    ensures var h, talk := HandleAll(ctl, log), Said(ctl, log);
            |Bundles(h.outs)| == Asked(talk) - 1 && ServerBytes(h.outs) == Replies(ctl.ackSize, ctl.name, talk)
  {
    hide HandleAll, Kept, Accepted, Talk, Asked, Replies, Bundles, ServerBytes, WellSized, Answers;
    KeptIsAccepted(ctl, log);
    KeptIsHandled(ctl, log);
    AnswersBringBundles(ctl, log);
    AskedIsCount(ctl, Accepted(PhaseOf(ctl), log));
    RunReplies(ctl, Kept(ctl, log));
  }

  lemma StartedCtl(c: RtmpClient, s: State) returns (ctl: Control)
    requires Chunks.Valid(s) && s.ctl.name == c.rtmpStream
    ensures ctl == Started(s, WaitConnect).ctl && ctl.status == WaitConnect && ctl.name == c.rtmpStream
    ensures ctl.ackSize == s.ctl.ackSize
  {
    ctl := Started(s, WaitConnect).ctl;
  }

  lemma SentBehindGreeting(c: RtmpClient, ctl: Control, h: Handled, talk: seq<Message>)
    requires c.Linked() && c.outs == [HELLO] + c.Greeting() + h.outs && ctl.status == WaitConnect && ctl.name == c.rtmpStream
    requires |Bundles(h.outs)| == Asked(talk) - 1 && ServerBytes(h.outs) == Replies(ctl.ackSize, ctl.name, talk)
    ensures Offering(c, ctl.ackSize, talk)
  {
    hide HelloBytes, EchoBytes, Bundles, ServerBytes, Offered, ConnectBytes, CreateBundle, PlayBundle, Asked, AskedId,
      AskedWindow;
    GreetingSays(c);
    ServerBytesBoth([HELLO] + c.Greeting(), h.outs);
    BundlesBoth([HELLO] + c.Greeting(), h.outs);
  }
}
