/** When a handler ends well, for every message, both builds and every state of the client,
    told from the bytes of the message. */
module Outcomes {
  import opened Bytes
  import opened Protocol
  import opened Amf0
  import opened Audio
  import opened Video
  import opened MetaData
  import opened Flv
  import opened Commands
  import opened Handlers

  // ---------- what the bytes must be ----------

  /** A string value that leaves room for its NUL in 256 bytes. */
  predicate StartsWithText(d: seq<byte>) {
    |d| >= 3 && d[0] == 2 && Be16(d, 1) < 256 && |d| >= Be16(d, 1) + 3
  }

  /** What follows it. */
  function BehindText(d: seq<byte>): seq<byte>
    requires StartsWithText(d)
  {
    d[Be16(d, 1) + 3..]
  }

  /** A string value that C reads as this name: what stands behind a NUL does not matter. */
  predicate Names(d: seq<byte>, name: string) {
    && StartsWithText(d) && Be16(d, 1) >= |name|
    && (forall i :: 0 <= i < |name| ==> d[i + 3] == name[i] as int)
    && (Be16(d, 1) == |name| || d[|name| + 3] == 0)
  }

  /** A number, a null and a number. */
  predicate StartsWithStreamId(d: seq<byte>) {
    |d| >= 19 && d[0] == 0 && d[9] == 5 && d[10] == 0
  }

  /** An audio message has its tag byte; of AAC the packet type as well, and a configuration
      its two bytes. */
  predicate SoundFits(d: seq<byte>) {
    |d| >= 1 && (d[0] / 16 == 10 ==> |d| >= 2 && (d[1] == 0 ==> |d| >= 4))
  }

  /** A configuration record with parameter sets of at most 256 bytes. */
  predicate ConfigFits(d: seq<byte>) {
    && |d| >= 11 && Be16(d, 6) <= 256 && |d| >= Be16(d, 6) + 11
    && Be16(d, Be16(d, 6) + 9) <= 256 && |d| >= Be16(d, 6) + 11 + Be16(d, Be16(d, 6) + 9)
  }

  /** A length of at most 256 is read in front of bytes that are not there. */
  predicate ConfigOverreads(d: seq<byte>) {
    && |d| >= 8 && Be16(d, 6) <= 256
    && (|d| < Be16(d, 6) + 11 ||
        (Be16(d, Be16(d, 6) + 9) <= 256 && |d| < Be16(d, 6) + 11 + Be16(d, Be16(d, 6) + 9)))
  }

  /** AVC with a whole tag header, and behind it a configuration or units. */
  predicate PictureFits(d: seq<byte>) {
    && |d| >= 5 && d[0] % 16 == 7
    && if d[0] / 16 == 1 && d[1] == 0 then ConfigFits(d[5..]) else UnitsFit(d[5..])
  }

  predicate PictureOverreads(d: seq<byte>) {
    || d == []
    || (d[0] % 16 == 7 && (|d| < 5 || (d[0] / 16 == 1 && d[1] == 0 && ConfigOverreads(d[5..]))))
  }

  // ---------- what a handler asks for ----------

  /** The part of the client that decides. */
  datatype Phase = Phase(saveFlv: bool, fileOpens: bool, status: Status, flvOpen: bool)

  function PhaseOf(c: Control): Phase {
    Phase(c.saveFlv, c.fileOpens, c.status, c.flvOpen)
  }

  /** Control messages need their word; a file an open file for audio and video, and one
      that can be created for onMetaData; a writer of packets a well-formed message; a
      command its name, and the answer to createStream a number, a null and the stream id.
      Metadata in the other build, and all other types, are always taken. */
  predicate Accepts(p: Phase, m: Message) {
    if m.mtype == 1 || m.mtype == 5 || m.mtype == 6 then |m.payload| >= 4
    else if m.mtype == 8 then if p.saveFlv then p.flvOpen else SoundFits(m.payload)
    else if m.mtype == 9 then if p.saveFlv then p.flvOpen else PictureFits(m.payload)
    else if m.mtype == 0x12 then
      p.saveFlv ==> StartsWithText(m.payload) && (Names(m.payload, "onMetaData") ==> p.fileOpens)
    else if m.mtype == 0x14 then
      && StartsWithText(m.payload)
      && (p.status == WaitCreateStream && Names(m.payload, "_result") ==> StartsWithStreamId(BehindText(m.payload)))
    else true
  }

  /** Where bytes behind the message are read. */
  predicate Overreads(p: Phase, m: Message) {
    if m.mtype == 1 || m.mtype == 5 || m.mtype == 6 then |m.payload| < 4
    else if m.mtype == 8 then !p.saveFlv && !SoundFits(m.payload)
    else m.mtype == 9 && !p.saveFlv && PictureOverreads(m.payload)
  }

  lemma TextIsPopped(d: seq<byte>)
    ensures match PopString(d, 256)
            case None => !StartsWithText(d)
            case Some(p) => StartsWithText(d) && p.used == Be16(d, 1) + 3 && p.value == d[3..Be16(d, 1) + 3]
  {
  }

  lemma {:induction false} CStrLength(t: seq<byte>, n: nat)
    requires n <= |t| && (forall i :: 0 <= i < n ==> t[i] != 0) && (n == |t| || t[n] == 0)
    ensures CStr(t) == t[..n]
    decreases n
  {
    if n > 0 {
      CStrLength(t[1..], n - 1);
    }
  }

  /** A text is C's name exactly if it starts with it and ends there, or a NUL follows. */
  lemma CStrIs(t: seq<byte>, name: string)
    requires forall i :: 0 <= i < |name| ==> name[i] != '\0'
    ensures Is(CStr(t), name) <==>
            |name| <= |t| && (forall i :: 0 <= i < |name| ==> t[i] == name[i] as int) && (|t| == |name| || t[|name|] == 0)
  {
    hide CStr;
    if |name| <= |t| && (forall i :: 0 <= i < |name| ==> t[i] == name[i] as int) && (|t| == |name| || t[|name|] == 0) {
      CStrLength(t, |name|);
    }
  }

  lemma NamesIsPopped(d: seq<byte>, name: string)
    requires forall i :: 0 <= i < |name| ==> name[i] != '\0'
    ensures Names(d, name) <==> PopString(d, 256).Some? && Is(CStr(PopString(d, 256).value.value), name)
  {
    hide PopString, CStr;
    TextIsPopped(d);
    if StartsWithText(d) {
      CStrIs(d[3..Be16(d, 1) + 3], name);
    }
  }

  // ---------- exactly when ----------

  /** For every message and every state of the client: the handler ends well exactly if the
      message is accepted, and reads behind it exactly where that is said. */
  lemma EndsWellExactlyWhen(c: Control, m: Message)
    requires WellSized(m)
    ensures Handle(c, m).code == Done <==> Accepts(PhaseOf(c), m)
    ensures Handle(c, m).code == Overread <==> Overreads(PhaseOf(c), m)
  {
    hide HandleAudio, HandleVideo, HandleCommand, HandleMeta, SoundFits, PictureFits, PictureOverreads, Names,
      StartsWithText, StartsWithStreamId, BehindText;
    if m.mtype == 8 {
      SoundOutcome(c.audio, m.payload, m.timeStamp);
    } else if m.mtype == 9 {
      PictureOutcome(c.videoHead, m.payload, m.timeStamp);
    } else if m.mtype == 0x12 {
      MetaOutcome(c, m);
    } else if m.mtype == 0x14 {
      CommandOutcome(c, m.payload);
    }
  }

  lemma SoundOutcome(st: AudioState, d: seq<byte>, timeStamp: u32)
    requires |st.head| == 7
    ensures HandleAudio(st, d, timeStamp).code == if SoundFits(d) then Done else Overread
  {
    hide SavedHead, Patched, Restored;
  }

  lemma PictureOutcome(head: seq<byte>, d: seq<byte>, timeStamp: u32)
    ensures HandleVideo(head, d, timeStamp).code == Done <==> PictureFits(d)
    ensures HandleVideo(head, d, timeStamp).code == Overread <==> PictureOverreads(d)
  {
    hide RewriteNals, UnitsFit, Marked;
    if |d| >= 5 {
      RewriteMarksUnits(d[5..]);
    }
  }

  lemma MetaOutcome(c: Control, m: Message)
    requires |m.noted| == 12
    ensures HandleMeta(c, m).code == Done <==>
            StartsWithText(m.payload) && (Names(m.payload, "onMetaData") ==> c.fileOpens)
    ensures HandleMeta(c, m).code != Overread
  {
    hide PopString, CStr, Is, MetaTagBytes, ReadMeta, StartsWithText, Names;
    TextIsPopped(m.payload);
    NamesIsPopped(m.payload, "onMetaData");
  }

  lemma CommandOutcome(c: Control, d: seq<byte>)
    ensures HandleCommand(c, d).code == Done <==>
            && StartsWithText(d)
            && (c.status == WaitCreateStream && Names(d, "_result") ==> StartsWithStreamId(BehindText(d)))
    ensures HandleCommand(c, d).code != Overread
  {
    hide PopString, CStr, Is, CreateBundle, HandleStreamResult, Names, StartsWithStreamId;
    TextIsPopped(d);
    NamesIsPopped(d, "_result");
    if StartsWithText(d) {
      StreamOutcome(c, BehindText(d));
    }
  }

  lemma StreamOutcome(c: Control, d: seq<byte>)
    ensures HandleStreamResult(c, d).code == Done <==> StartsWithStreamId(d)
    ensures HandleStreamResult(c, d).code != Overread
  {
    hide PlayBundle, IdByte;
  }

  /** How an accepted message moves the session: onMetaData straight to its last status in
      the build that saves a file, and an awaited `_result` to the next one. */
  function Moved(p: Phase, m: Message): Phase {
    if p.saveFlv && m.mtype == 0x12 && Names(m.payload, "onMetaData") then p.(status := WaitData, flvOpen := true)
    else if m.mtype == 0x14 && Names(m.payload, "_result") then
      p.(status := if p.status == WaitConnect then WaitCreateStream
                   else if p.status == WaitCreateStream then WaitPlay else p.status)
    else p
  }

  lemma MovesAs(c: Control, m: Message)
    requires WellSized(m) && Handle(c, m).code == Done
    ensures PhaseOf(Handle(c, m).ctl) == Moved(PhaseOf(c), m)
  {
    hide HandleAudio, HandleVideo, PopString, CStr, Is, MetaTagBytes, ReadMeta, TagBytes, CreateBundle, PlayBundle,
      IdByte, Names;
    if m.mtype == 0x12 {
      NamesIsPopped(m.payload, "onMetaData");
    } else if m.mtype == 0x14 {
      NamesIsPopped(m.payload, "_result");
    }
  }

  lemma MetaIsNamed(m: Message)
    ensures IsMeta(m) <==> m.mtype == 0x12 && Names(m.payload, "onMetaData")
  {
    hide PopString, CStr, Is, Names;
    NamesIsPopped(m.payload, "onMetaData");
  }

  // ---------- what an accepted answer brings ----------

  lemma TextBytes(t: seq<byte>, rest: seq<byte>)
    requires |t| < 256
    ensures var d := StringBytes(t) + rest;
            StartsWithText(d) && BehindText(d) == rest && d[3..|t| + 3] == t && Be16(d, 1) == |t|
  {
    var d := StringBytes(t) + rest;
    assert d[1..3] == ToBe16(|t|);
  }

  lemma TextNames(name: string, rest: seq<byte>)
    requires |name| < 256 && forall i :: 0 <= i < |name| ==> '\0' < name[i] < 128 as char
    ensures Names(StringBytes(Ascii(name)) + rest, name)
  {
    hide StringBytes, StartsWithText, BehindText;
    var d := StringBytes(Ascii(name)) + rest;
    TextBytes(Ascii(name), rest);
    forall i | 0 <= i < |name|
      ensures d[i + 3] == name[i] as int
    {
      assert d[i + 3] == d[3..|name| + 3][i];
    }
  }

  /** A client that waits for connect to be answered takes every `_result`, whatever else it
      says, sends the createStream bundle and nothing else, and waits for the next answer. */
  lemma ConnectIsAnswered(c: Control, m: Message, rest: seq<byte>)
    requires WellSized(m) && m.mtype == 0x14 && m.payload == StringBytes(Ascii("_result")) + rest
    requires c.status == WaitConnect
    ensures Handle(c, m) == Handled(Done, c.(status := WaitCreateStream), [ToServer(CreateStream, CreateBundle(c.ackSize))])
  {
    hide StringBytes, PopString, CStr, Is, CreateBundle, Names;
    TextNames("_result", rest);
    NamesIsPopped(m.payload, "_result");
  }

  /** The next one is taken with a number, a null and the stream id, whatever follows: the
      client keeps the id and asks for its stream with that id's byte. */
  lemma StreamIsCreated(c: Control, m: Message, transaction: seq<byte>, id: seq<byte>, rest: seq<byte>)
    requires WellSized(m) && m.mtype == 0x14 && |transaction| == |id| == 8
    requires m.payload == StringBytes(Ascii("_result")) + (NumberBytes(transaction) + NULL + NumberBytes(id) + rest)
    requires c.status == WaitCreateStream
    ensures Handle(c, m) == Handled(Done, c.(status := WaitPlay, streamId := id),
                                    [ToServer(Play, PlayBundle(IdByte(id), c.name))])
  {
    hide StringBytes, PopString, CStr, Is, PlayBundle, Names, HandleStreamResult, StartsWithText, BehindText, NumberBytes,
      IdByte, Ascii;
    var d := NumberBytes(transaction) + NULL + NumberBytes(id) + rest;
    TextNames("_result", d);
    NamesIsPopped(m.payload, "_result");
    TextBytes(Ascii("_result"), d);
    TextIsPopped(m.payload);
    BehindIs(m.payload);
    ThirdValue(c, transaction, id, rest);
  }

  lemma BehindIs(d: seq<byte>)
    requires StartsWithText(d)
    ensures BehindText(d) == d[Be16(d, 1) + 3..]
  {
  }

  lemma ThirdValue(c: Control, transaction: seq<byte>, id: seq<byte>, rest: seq<byte>)
    requires |transaction| == |id| == 8
    ensures HandleStreamResult(c, NumberBytes(transaction) + NULL + NumberBytes(id) + rest) ==
            Handled(Done, c.(status := WaitPlay, streamId := id), [ToServer(Play, PlayBundle(IdByte(id), c.name))])
  {
    hide PlayBundle, IdByte, PopNumber;
    var d := NumberBytes(transaction) + NULL + NumberBytes(id) + rest;
    assert d == NumberBytes(transaction) + (NULL + NumberBytes(id) + rest);
    NumberInFront(transaction, NULL + NumberBytes(id) + rest);
    assert d[9..] == NULL + NumberBytes(id) + rest && d[10..] == NumberBytes(id) + rest;
    NumberInFront(id, rest);
  }
}
