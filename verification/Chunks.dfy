/** One call of the chunk parser, and the repeated call, as functions of the parser's
    state and the bytes at hand. */
module Chunks {
  import opened Bytes
  import opened Protocol
  import opened Handlers
  import opened Commands
  import opened Flv
  import opened MetaData
  import opened Video
  import opened Audio
  import opened Amf0

  // ---------- the chunk header (sections 5.3.1 and 5.3.1.2 of Adobe's RTMP specification 1.0) ----------

  /** len counts the bytes behind the first one, an extended time stamp included. */
  datatype Header = Header(fmt: nat, csid: nat, len: nat, stamp: u32, size: nat, mtype: byte, streamId: u32)

  datatype HeaderResult = Short | BadId | Whole(h: Header)

  function HeaderLen(fmt: nat): nat {
    if fmt == 0 then 11 else if fmt == 1 then 7 else if fmt == 2 then 3 else 0
  }

  /** Chunk stream ids 0 and 1 announce ids from 64 on, which are out of range. */
  function ReadHeader(d: seq<byte>): (r: HeaderResult)
    ensures r.Whole? ==> 1 + r.h.len <= |d| && 2 <= r.h.csid < MAX_CHUNK_ID && r.h.size < 0x100_0000
  {
    if |d| == 0 then Short
    else
      var fmt: nat, csid: nat := d[0] / 64, d[0] % 64;
      var len := HeaderLen(fmt);
      if csid < 2 then BadId
      else if |d| < len + 1 then Short
      else
        var stamp := if fmt < 3 then Be24(d, 1) else 0;
        var size := if fmt < 2 then Be24(d, 4) else 0;
        var mtype := if fmt < 2 then d[7] else 0;
        var streamId := if fmt == 0 then Be32(d, 8) else 0;
        if stamp != 0xFF_FFFF then Whole(Header(fmt, csid, len, stamp, size, mtype, streamId))
        else if |d| < len + 5 then Short
        else Whole(Header(fmt, csid, len + 4, Be32(d, len + 1), size, mtype, streamId))
  }

  /** Whether the parser gets as far as copying the header. */
  predicate CopiesHeader(d: seq<byte>) {
    |d| > 0 && d[0] % 64 >= 2 && d[0] / 64 < 2 && |d| >= HeaderLen(d[0] / 64) + 1
  }

  // ---------- the state ----------

  /** One chunk stream: the message in flight has `left` bytes to come and `got` so far;
      `noted` is the copy of the last long header. */
  datatype StreamRecord = Stream(size: nat, left: nat, streamId: u32, mtype: byte, timeStamp: u32,
                                 absolute: bool, noted: seq<byte>, got: seq<byte>)

  predicate StreamOk(s: StreamRecord) {
    && |s.noted| == 12
    && s.size < 0x100_0000
    && (if s.left == 0 then s.got == [] else |s.got| + s.left == s.size)
  }

  type Stream = s: StreamRecord | StreamOk(s)
    witness Stream(0, 0, 0, 0, 0, false, [0, 0, 0, 0, 0, 0, 0, 0, 0, 0, 0, 0], [])

  datatype State = State(streams: seq<Stream>, lastAudio: u32, lastVideo: u32, lastType: byte, ctl: Control)

  predicate Valid(s: State) {
    |s.streams| == MAX_CHUNK_ID
  }

  // ---------- one chunk ----------

  function CopyHeader(streams: seq<Stream>, d: seq<byte>): (r: seq<Stream>)
    requires |streams| == MAX_CHUNK_ID
    ensures |r| == MAX_CHUNK_ID
  {
    if CopiesHeader(d) then
      var csid, n := d[0] % 64, HeaderLen(d[0] / 64);
      streams[csid := streams[csid].(noted := d[1..n + 1] + streams[csid].noted[n..])]
    else streams
  }

  lemma NothingCopied(streams: seq<Stream>, d: seq<byte>)
    requires |streams| == MAX_CHUNK_ID && !CopiesHeader(d)
    ensures CopyHeader(streams, d) == streams
  {
  }

  /** The time stamp a header stands for: relative ones add to the last stamp of audio or
      of video; format 2 goes by the type of the last long header. */
  function StampOf(s: State, h: Header): u32 {
    var kind := if h.fmt == 2 then s.lastType else h.mtype;
    if h.fmt == 1 || h.fmt == 2 then
      if kind == 8 then Add32(h.stamp, s.lastAudio)
      else if kind == 9 then Add32(h.stamp, s.lastVideo)
      else h.stamp
    else h.stamp
  }

  /** Everything that happens before the parser knows whether the chunk is complete. */
  function Prepare(s: State, d: seq<byte>): (r: State)
    requires Valid(s)
    ensures Valid(r) && r.ctl == s.ctl
  {
    var noted := s.(streams := CopyHeader(s.streams, d));
    match ReadHeader(d)
    case Short => noted
    case BadId => noted
    case Whole(h) =>
      if h.fmt == 3 then noted
      else
        var kind := if h.fmt == 2 then s.lastType else h.mtype;
        var stamp := StampOf(s, h);
        noted.(lastAudio := if kind == 8 then stamp else s.lastAudio,
               lastVideo := if kind == 9 then stamp else s.lastVideo,
               lastType := kind)
  }

  /** What a header of format 0 or 1 is read as, and what it leaves, when nothing or only
      its extended time stamp is missing, and when it is there whole. */
  lemma LongHeader(s: State, d: seq<byte>)
    requires Valid(s) && |d| > 0 && d[0] / 64 < 2 && d[0] % 64 >= 2
    ensures var n := HeaderLen(d[0] / 64);
            && (|d| < n + 1 ==> ReadHeader(d) == Short && Prepare(s, d) == s)
            && (n + 1 <= |d| < n + 5 && Be24(d, 1) == 0xFF_FFFF ==>
                  ReadHeader(d) == Short && Prepare(s, d) == s.(streams := CopyHeader(s.streams, d)))
            && (|d| >= n + 1 && (Be24(d, 1) == 0xFF_FFFF ==> |d| >= n + 5) ==> ReadHeader(d) == Whole(LongForm(d)))
  {
    hide CopyHeader, Be24, Be32;
    if |d| < HeaderLen(d[0] / 64) + 1 {
      NothingCopied(s.streams, d);
    }
  }

  /** A whole header of format 0 or 1. */
  function LongForm(d: seq<byte>): (h: Header)
    requires |d| > 0 && d[0] / 64 < 2 && |d| >= HeaderLen(d[0] / 64) + 1
    requires Be24(d, 1) == 0xFF_FFFF ==> |d| >= HeaderLen(d[0] / 64) + 5
  {
    var fmt: nat := d[0] / 64;
    var n, extended := HeaderLen(fmt), Be24(d, 1) == 0xFF_FFFF;
    Header(fmt, d[0] % 64, if extended then n + 4 else n, if extended then Be32(d, n + 1) else Be24(d, 1), Be24(d, 4), d[7],
           if fmt == 0 then Be32(d, 8) else 0)
  }

  /** What a whole header leaves. */
  lemma WholePrepared(s: State, d: seq<byte>)
    requires Valid(s) && ReadHeader(d).Whole? && ReadHeader(d).h.fmt < 2
    ensures var h := ReadHeader(d).h; var stamp := StampOf(s, h);
            Prepare(s, d) == s.(streams := CopyHeader(s.streams, d),
                                lastAudio := if h.mtype == 8 then stamp else s.lastAudio,
                                lastVideo := if h.mtype == 9 then stamp else s.lastVideo,
                                lastType := h.mtype)
  {
    hide ReadHeader, CopyHeader, StampOf;
  }

  /** The payload length of a chunk on this chunk stream. */
  function ChunkLen(st: Stream, h: Header, maxChunk: u32): (n: nat)
    ensures n <= maxChunk && n <= (if st.left == 0 then h.size else st.left)
    ensures n == maxChunk || n == if st.left == 0 then h.size else st.left
  {
    var total := if st.left == 0 then h.size else st.left;
    if total >= maxChunk then maxChunk else total
  }

  /** The chunk stream at the start of a message. */
  function Opened(st: Stream, h: Header, stamp: u32): (r: StreamRecord)
    requires st.left == 0 && h.size < 0x100_0000
  {
    Stream(h.size, h.size, h.streamId, h.mtype, stamp, h.fmt == 0, st.noted, [])
  }

  /** The chunk stream after a piece of payload, and the message if that was the last. */
  function Gather(st: StreamRecord, csid: nat, piece: seq<byte>): (r: (Stream, seq<Message>))
    requires |st.noted| == 12 && st.size < 0x100_0000 && |st.got| + st.left == st.size && |piece| <= st.left
    ensures forall m :: m in r.1 ==> WellSized(m)
    ensures |r.1| <= 1
  {
    var got := st.got + piece;
    if |got| < st.size then (st.(got := got, left := st.left - |piece|), [])
    else (st.(got := [], left := 0),
          [Message(csid, st.mtype, st.streamId, st.timeStamp, st.absolute, st.noted, got)])
  }

  datatype StepResult = StepResult(code: Code, st: State, used: nat, msgs: seq<Message>, outs: seq<Output>)

  /** Handing a complete message, if there is one, to its handler. */
  function Deliver(s: State, used: nat, msgs: seq<Message>): (r: StepResult)
    requires Valid(s) && |msgs| <= 1 && forall m :: m in msgs ==> WellSized(m)
    ensures Valid(r.st) && r.st.streams == s.streams
  {
    if msgs == [] then StepResult(Done, s, used, [], [])
    else
      var r := Handle(s.ctl, msgs[0]);
      StepResult(r.code, s.(ctl := r.ctl), used, msgs, r.outs)
  }

  predicate IsComplete(p: State, h: Header, d: seq<byte>)
    requires Valid(p) && h.csid < MAX_CHUNK_ID
  {
    |d| >= 1 + h.len + ChunkLen(p.streams[h.csid], h, p.ctl.maxChunk)
  }

  /** Taking the complete chunk at the start of d, after Prepare. */
  function Complete(p: State, h: Header, stamp: u32, d: seq<byte>): (r: StepResult)
    requires Valid(p) && h.csid < MAX_CHUNK_ID && h.size < 0x100_0000 && IsComplete(p, h, d)
    ensures Valid(r.st)
  {
    var st := p.streams[h.csid];
    var n := ChunkLen(st, h, p.ctl.maxChunk);
    var begun := if st.left == 0 then Opened(st, h, stamp) else st;
    var gathered := Gather(begun, h.csid, d[1 + h.len..1 + h.len + n]);
    Deliver(p.(streams := p.streams[h.csid := gathered.0]), 1 + h.len + n, gathered.1)
  }

  /** One call of the parser on the bytes d. */
  function Step(s: State, d: seq<byte>): (r: StepResult)
    requires Valid(s)
    ensures Valid(r.st)
  {
    match ReadHeader(d)
    case Short => StepResult(More, Prepare(s, d), 0, [], [])
    case BadId => StepResult(Failed, s, 0, [], [])
    case Whole(h) =>
      var p := Prepare(s, d);
      if !IsComplete(p, h, d) then StepResult(More, p, 0, [], [])
      else Complete(p, h, StampOf(s, h), d)
  }

  lemma StepIsComplete(s: State, d: seq<byte>)
    requires Valid(s) && ReadHeader(d).Whole?
    ensures var h, p := ReadHeader(d).h, Prepare(s, d);
            Step(s, d) == if IsComplete(p, h, d) then Complete(p, h, StampOf(s, h), d)
                          else StepResult(More, p, 0, [], [])
  {
  }

  lemma StepWithoutHeader(s: State, d: seq<byte>)
    requires Valid(s) && !ReadHeader(d).Whole?
    ensures Step(s, d) == if ReadHeader(d).Short? then StepResult(More, Prepare(s, d), 0, [], [])
                          else StepResult(Failed, s, 0, [], [])
  {
  }

  /** Progress: missing data moves nothing; otherwise at least one byte and at most all
      bytes are used; and the state a call for more data leaves behind differs in time
      stamps and header copies only. */
  lemma StepProgress(s: State, d: seq<byte>)
    requires Valid(s)
    ensures var r := Step(s, d);
            && r.used <= |d|
            && |r.msgs| <= 1
            && (r.code == Done ==> r.used >= 1)
            && (r.code == More ==> r.used == 0 && r.msgs == [] && r.outs == [] && r.st == Prepare(s, d))
            && (r.msgs != [] ==> WellSized(r.msgs[0]))
  {
    hide Step, Prepare, StampOf, Complete;
    if ReadHeader(d).Whole? {
      StepIsComplete(s, d);
      var h, p := ReadHeader(d).h, Prepare(s, d);
      if IsComplete(p, h, d) {
        CompleteProgress(p, h, StampOf(s, h), d);
      }
    } else {
      StepWithoutHeader(s, d);
    }
  }

  lemma CompleteProgress(p: State, h: Header, stamp: u32, d: seq<byte>)
    requires Valid(p) && h.csid < MAX_CHUNK_ID && h.size < 0x100_0000 && IsComplete(p, h, d)
    ensures var r := Complete(p, h, stamp, d);
            && r.used == 1 + h.len + ChunkLen(p.streams[h.csid], h, p.ctl.maxChunk)
            && |r.msgs| <= 1 && r.code != More && (r.msgs != [] ==> WellSized(r.msgs[0]))
  {
    hide Handle;
    var r := Complete(p, h, stamp, d);
    if r.msgs != [] {
      assert r.msgs[0] in r.msgs;
      HandleNeverMore(p.ctl, r.msgs[0]);
    }
  }

  lemma PrepareKeeps(s: State, d: seq<byte>, i: nat)
    requires Valid(s) && i < MAX_CHUNK_ID
    ensures Prepare(s, d).streams[i] == s.streams[i].(noted := Prepare(s, d).streams[i].noted)
  {
  }

  // ---------- all chunks at hand ----------

  datatype Run = Run(code: Code, st: State, used: nat, log: seq<Message>, outs: seq<Output>, calls: nat)

  /** Calling the parser until it asks for more data or fails. */
  function ParseAll(s: State, d: seq<byte>): (r: Run)
    requires Valid(s)
    ensures Valid(r.st) && r.used <= |d| && r.code != Done && 1 <= r.calls <= |d| + 1
    decreases |d|
  {
    StepProgress(s, d);
    var r := Step(s, d);
    if r.code != Done then Run(r.code, r.st, r.used, r.msgs, r.outs, 1)
    else
      var rest := ParseAll(r.st, d[r.used..]);
      Run(rest.code, rest.st, r.used + rest.used, r.msgs + rest.log, r.outs + rest.outs, 1 + rest.calls)
  }

  lemma ParseStep(s: State, d: seq<byte>)
    requires Valid(s)
    ensures var q := Step(s, d);
            if q.code == Done then
              q.used <= |d| &&
              var rest := ParseAll(q.st, d[q.used..]);
              ParseAll(s, d) == Run(rest.code, rest.st, q.used + rest.used, q.msgs + rest.log, q.outs + rest.outs,
                                    1 + rest.calls)
            else ParseAll(s, d) == Run(q.code, q.st, q.used, q.msgs, q.outs, 1)
  {
    StepProgress(s, d);
  }

  /** The handlers over a list of messages, up to the first that does not end well. */
  function HandleAll(c: Control, log: seq<Message>): Handled
    requires forall m :: m in log ==> WellSized(m)
    decreases |log|
  {
    if log == [] then Handled(Done, c, [])
    else
      var r := Handle(c, log[0]);
      if r.code != Done then r
      else
        var rest := HandleAll(r.ctl, log[1..]);
        rest.(outs := r.outs + rest.outs)
  }

  /** What a run does to the client and to the world is what the handlers make of the
      messages it delivers; no message is delivered behind one that failed. */
  lemma {:induction false} RunIsHandled(s: State, d: seq<byte>)
    requires Valid(s)
    ensures var r := ParseAll(s, d);
            && (forall m :: m in r.log ==> WellSized(m))
            && HandleAll(s.ctl, r.log).ctl == r.st.ctl && HandleAll(s.ctl, r.log).outs == r.outs
            && (HandleAll(s.ctl, r.log).code == Done || HandleAll(s.ctl, r.log).code == r.code)
    decreases |d|
  {
    hide Step;
    StepProgress(s, d);
    StepIsHandled(s, d);
    var r := Step(s, d);
    if r.code == Done {
      RunIsHandled(r.st, d[r.used..]);
      var rest := ParseAll(r.st, d[r.used..]);
      FirstHandled(s.ctl, r, rest.log);
    }
  }

  lemma StepIsHandled(s: State, d: seq<byte>)
    requires Valid(s)
    ensures var r := Step(s, d);
            && (forall m :: m in r.msgs ==> WellSized(m))
            && HandleAll(s.ctl, r.msgs).ctl == r.st.ctl && HandleAll(s.ctl, r.msgs).outs == r.outs
            && (r.msgs == [] || HandleAll(s.ctl, r.msgs).code == r.code)
  {
    hide Handle, ReadHeader, CopyHeader, StampOf, Gather;
    StepProgress(s, d);
    if Step(s, d).msgs != [] {
      OneHandled(s.ctl, Step(s, d).msgs);
    }
  }

  lemma NothingHandled(c: Control)
    ensures HandleAll(c, []) == Handled(Done, c, [])
  {
  }

  lemma OneHandled(c: Control, msgs: seq<Message>)
    requires |msgs| == 1 && WellSized(msgs[0])
    ensures HandleAll(c, msgs) == Handle(c, msgs[0])
  {
    hide Handle;
    assert msgs[1..] == [];
  }

  lemma FirstHandled(c: Control, r: StepResult, log: seq<Message>)
    requires |r.msgs| <= 1 && (forall m :: m in r.msgs ==> WellSized(m)) && (forall m :: m in log ==> WellSized(m))
    requires HandleAll(c, r.msgs) == Handled(Done, r.st.ctl, r.outs)
    ensures HandleAll(c, r.msgs + log) == HandleAll(r.st.ctl, log).(outs := r.outs + HandleAll(r.st.ctl, log).outs)
  {
    hide Handle;
    if r.msgs == [] {
      assert r.msgs + log == log;
    } else {
      OneHandled(c, r.msgs);
      assert (r.msgs + log)[1..] == log;
    }
  }

  lemma {:induction false} HandleBoth(c: Control, a: seq<Message>, b: seq<Message>)
    requires (forall m :: m in a ==> WellSized(m)) && (forall m :: m in b ==> WellSized(m))
    requires HandleAll(c, a).code == Done
    ensures var mid := HandleAll(c, a); var end := HandleAll(mid.ctl, b);
            HandleAll(c, a + b) == end.(outs := mid.outs + end.outs)
    decreases |a|
  {
    hide Handle;
    if a == [] {
      assert a + b == b;
    } else {
      var r := Handle(c, a[0]);
      HandleBoth(r.ctl, a[1..], b);
      assert (a + b)[1..] == a[1..] + b;
    }
  }

  /** A list that is handled without failure is so in its front part. */
  lemma {:induction false} DoneParts(c: Control, a: seq<Message>, b: seq<Message>)
    requires (forall m :: m in a ==> WellSized(m)) && (forall m :: m in b ==> WellSized(m))
    requires HandleAll(c, a + b).code == Done
    ensures HandleAll(c, a).code == Done
    decreases |a|
  {
    hide Handle, WellSized;
    if a != [] {
      assert (a + b)[1..] == a[1..] + b;
      DoneParts(Handle(c, a[0]).ctl, a[1..], b);
    }
  }

  // ---------- runs that end with a failing handler ----------

  /** The messages in front of the first whose handler does not end well. */
  function Kept(c: Control, log: seq<Message>): (r: seq<Message>)
    requires forall m :: m in log ==> WellSized(m)
    ensures r <= log
    decreases |log|
  {
    if log == [] || Handle(c, log[0]).code != Done then []
    else [log[0]] + Kept(Handle(c, log[0]).ctl, log[1..])
  }

  /** A handler that does not end well has had no effect outside the client. */
  lemma FailedHasNoEffect(c: Control, m: Message)
    requires WellSized(m) && Handle(c, m).code != Done
    ensures Handle(c, m).outs == []
  {
    hide PopString, CStr, Is, CreateBundle, PlayBundle, IdByte, TagBytes, MetaTagBytes, ReadMeta, RewriteNals, SavedHead;
  }

  /** A run has the effects of the messages it keeps, all of which were handled well. */
  lemma {:induction false} KeptIsHandled(c: Control, log: seq<Message>)
    requires forall m :: m in log ==> WellSized(m)
    ensures forall m :: m in Kept(c, log) ==> WellSized(m)
    ensures HandleAll(c, Kept(c, log)).code == Done && HandleAll(c, Kept(c, log)).outs == HandleAll(c, log).outs
    ensures HandleAll(c, log).code == Done <==> Kept(c, log) == log
    decreases |log|
  {
    hide Handle, WellSized;
    if log != [] {
      var r := Handle(c, log[0]);
      if r.code == Done {
        KeptIsHandled(r.ctl, log[1..]);
        var kept := Kept(c, log);
        assert kept[1..] == Kept(r.ctl, log[1..]) && log == [log[0]] + log[1..];
      } else {
        FailedHasNoEffect(c, log[0]);
      }
    }
  }

  /** Nothing is delivered behind a message that failed: a run keeps all its messages, or
      all but the last. */
  lemma {:induction false} RunKept(s: State, d: seq<byte>)
    requires Valid(s)
    ensures forall m :: m in ParseAll(s, d).log ==> WellSized(m)
    ensures |Kept(s.ctl, ParseAll(s, d).log)| + 1 >= |ParseAll(s, d).log|
    decreases |d|
  {
    hide Step, Handle, HandleAll;
    RunIsHandled(s, d);
    StepProgress(s, d);
    StepIsHandled(s, d);
    ParseStep(s, d);
    NothingHandled(s.ctl);
    var q := Step(s, d);
    if q.code == Done {
      RunKept(q.st, d[q.used..]);
      KeptBehind(s.ctl, q.msgs, ParseAll(q.st, d[q.used..]).log);
    }
  }

  lemma {:induction false} KeptBehind(c: Control, a: seq<Message>, b: seq<Message>)
    requires (forall m :: m in a ==> WellSized(m)) && (forall m :: m in b ==> WellSized(m))
    requires HandleAll(c, a).code == Done
    ensures Kept(c, a + b) == a + Kept(HandleAll(c, a).ctl, b)
    decreases |a|
  {
    hide Handle, WellSized;
    if a == [] {
      assert a + b == b;
    } else {
      KeptBehind(Handle(c, a[0]).ctl, a[1..], b);
      assert (a + b)[1..] == a[1..] + b;
    }
  }
}
