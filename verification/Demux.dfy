/** A sender that interleaves chunks of messages on several chunk streams, and the proof
    that the parser takes them apart again. */
module Demux {
  import opened Bytes
  import opened Protocol
  import opened Handlers
  import opened Chunks

  // ---------- the sender (sections 5.3 and 5.4.1 of Adobe's RTMP specification 1.0) ----------

  /** A message to be sent; fmt is the format of its first chunk header.  With format 1
      the stamp is a difference and there is no stream id. */
  datatype OutMessage = OutMessage(fmt: nat, csid: nat, mtype: byte, stamp: u32, streamId: u32, payload: seq<byte>)

  predicate Sendable(m: OutMessage) {
    m.fmt < 2 && 2 <= m.csid < MAX_CHUNK_ID && |m.payload| < 0x100_0000 && (m.fmt == 1 ==> m.streamId == 0)
  }

  function ToLe32(n: u32): (d: seq<byte>)
    ensures |d| == 4
  {
    var b := ToBe32(n);
    [b[3], b[2], b[1], b[0]]
  }

  predicate Extended(m: OutMessage) {
    m.stamp >= 0xFF_FFFF
  }

  /** The long header of a message, the extended time stamp included. */
  function FirstHeader(m: OutMessage): (h: seq<byte>)
    requires Sendable(m)
    ensures |h| == 1 + HeaderLen(m.fmt) + if Extended(m) then 4 else 0
  {
    [m.fmt * 64 + m.csid] + ToBe24(if Extended(m) then 0xFF_FFFF else m.stamp) + ToBe24(|m.payload|) + [m.mtype]
    + (if m.fmt == 0 then ToLe32(m.streamId) else [])
    + (if Extended(m) then ToBe32(m.stamp) else [])
  }

  /** What is on its way on one chunk stream. */
  datatype Outgoing = Idle | Sending(m: OutMessage, sent: nat)

  datatype Sender = Sender(streams: seq<Outgoing>, chunk: u32)

  predicate SenderOk(snd: Sender) {
    && |snd.streams| == MAX_CHUNK_ID
    && forall i :: 0 <= i < MAX_CHUNK_ID && snd.streams[i].Sending? ==>
         Sendable(snd.streams[i].m) && snd.streams[i].m.csid == i && snd.streams[i].sent < |snd.streams[i].m.payload|
  }

  /** Starting a message, or sending the next chunk of one. */
  datatype Action = Start(m: OutMessage) | Go(csid: nat)

  /** An extended time stamp only goes with a message of one chunk. */
  predicate Allowed(snd: Sender, a: Action)
    requires |snd.streams| == MAX_CHUNK_ID
  {
    match a
    case Start(m) => Sendable(m) && snd.streams[m.csid].Idle? && (Extended(m) ==> |m.payload| <= snd.chunk)
    case Go(csid) => csid < MAX_CHUNK_ID && snd.streams[csid].Sending?
  }

  datatype Emitted = Emitted(bytes: seq<byte>, next: Sender, done: seq<OutMessage>)

  /** The piece of a message behind what has been sent. */
  function Piece(payload: seq<byte>, sent: nat, chunk: nat): seq<byte>
    requires sent <= |payload|
  {
    if |payload| - sent >= chunk then payload[sent..sent + chunk] else payload[sent..]
  }

  /** One chunk: its bytes, and the message if it is complete now.  Having sent a Set
      Chunk Size message the sender uses the new size. */
  function EmitPiece(snd: Sender, header: seq<byte>, m: OutMessage, sent: nat): Emitted
    requires |snd.streams| == MAX_CHUNK_ID && m.csid < MAX_CHUNK_ID && sent <= |m.payload|
  {
    var piece := Piece(m.payload, sent, snd.chunk);
    if sent + |piece| < |m.payload|
    then Emitted(header + piece, snd.(streams := snd.streams[m.csid := Sending(m, sent + |piece|)]), [])
    else
      var chunk := if m.mtype == 1 && |m.payload| >= 4 then Be32(m.payload, 0) else snd.chunk;
      Emitted(header + piece, Sender(snd.streams[m.csid := Idle], chunk), [m])
  }

  function Emit(snd: Sender, a: Action): (e: Emitted)
    requires SenderOk(snd) && Allowed(snd, a)
    ensures SenderOk(e.next)
  {
    match a
    case Start(m) => EmitPiece(snd, FirstHeader(m), m, 0)
    case Go(csid) => EmitPiece(snd, [0xC0 + csid], snd.streams[csid].m, snd.streams[csid].sent)
  }

  /** A schedule: every action is allowed where it comes. */
  predicate Schedule(snd: Sender, actions: seq<Action>)
    requires SenderOk(snd)
    decreases |actions|
  {
    actions == [] || (Allowed(snd, actions[0]) && Schedule(Emit(snd, actions[0]).next, actions[1..]))
  }

  function EmitAll(snd: Sender, actions: seq<Action>): (e: Emitted)
    requires SenderOk(snd) && Schedule(snd, actions)
    decreases |actions|
  {
    if actions == [] then Emitted([], snd, [])
    else
      var first := Emit(snd, actions[0]);
      var rest := EmitAll(first.next, actions[1..]);
      Emitted(first.bytes + rest.bytes, rest.next, first.done + rest.done)
  }

  // ---------- what the parser knows about it ----------

  /** The stream id as the parser sees it: sent low byte first, read high byte first. */
  function Seen(streamId: u32): u32 {
    Be32(ToLe32(streamId), 0)
  }

  /** The header copy holds size and type. */
  predicate Noted(noted: seq<byte>, m: OutMessage)
    requires |m.payload| < 0x100_0000
  {
    |noted| == 12 && noted[3..6] == ToBe24(|m.payload|) && noted[6] == m.mtype
  }

  predicate MirrorsStream(o: Outgoing, st: Stream) {
    match o
    case Idle => st.left == 0
    case Sending(m, sent) =>
      && |m.payload| < 0x100_0000 && sent < |m.payload|
      && st.left == |m.payload| - sent && st.size == |m.payload| && st.got == m.payload[..sent]
      && st.mtype == m.mtype && st.streamId == Seen(m.streamId) && st.absolute == (m.fmt == 0)
      && (m.fmt == 0 ==> st.timeStamp == m.stamp) && Noted(st.noted, m)
  }

  /** For every chunk stream the buffer prefix is what has been sent of its message. */
  ghost predicate Mirrors(snd: Sender, s: State) {
    && SenderOk(snd) && Valid(s) && s.ctl.maxChunk == snd.chunk
    && forall i :: 0 <= i < MAX_CHUNK_ID ==> MirrorsStream(snd.streams[i], s.streams[i])
  }

  /** A delivered message is the one that was sent. */
  predicate Carries(r: Message, m: OutMessage) {
    && |m.payload| < 0x100_0000
    && r.csid == m.csid && r.mtype == m.mtype && r.payload == m.payload
    && r.streamId == Seen(m.streamId) && r.absolute == (m.fmt == 0)
    && (m.fmt == 0 ==> r.timeStamp == m.stamp) && Noted(r.noted, m)
  }

  /** Stream ids come through exactly when their bytes read the same in both directions. */
  lemma SeenIsSame(n: u32)
    ensures Seen(n) == n <==> var b := ToBe32(n); b[0] == b[3] && b[1] == b[2]
  {
  }

  // ---------- one chunk ----------

  /** The header the parser is to find. */
  function Sent(m: OutMessage): Header
    requires Sendable(m)
  {
    Header(m.fmt, m.csid, HeaderLen(m.fmt) + if Extended(m) then 4 else 0, m.stamp, |m.payload|, m.mtype,
           if m.fmt == 0 then Seen(m.streamId) else 0)
  }

  lemma FirstHeaderReads(m: OutMessage, tail: seq<byte>)
    requires Sendable(m)
    ensures ReadHeader(FirstHeader(m) + tail) == Whole(Sent(m))
  {
    var d := FirstHeader(m) + tail;
    var n := HeaderLen(m.fmt);
    var first := m.fmt * 64 + m.csid;
    assert d[0] == first && first / 64 == m.fmt && first % 64 == m.csid;
    assert d[1..4] == ToBe24(if Extended(m) then 0xFF_FFFF else m.stamp);
    assert d[4..7] == ToBe24(|m.payload|);
    assert d[7] == m.mtype;
    if m.fmt == 0 {
      assert d[8..12] == ToLe32(m.streamId);
    }
    if Extended(m) {
      assert d[n + 1..n + 5] == ToBe32(m.stamp);
    }
  }

  /** The record of a chunk stream with `sent` bytes of m received. */
  predicate Holds(st: StreamRecord, m: OutMessage, sent: nat) {
    && |m.payload| < 0x100_0000 && sent <= |m.payload|
    && st.left == |m.payload| - sent && st.size == |m.payload| && st.got == m.payload[..sent]
    && st.mtype == m.mtype && st.streamId == Seen(m.streamId) && st.absolute == (m.fmt == 0)
    && (m.fmt == 0 ==> st.timeStamp == m.stamp) && Noted(st.noted, m)
  }

  lemma GatherPiece(st: StreamRecord, m: OutMessage, sent: nat, chunk: u32)
    requires Sendable(m) && Holds(st, m, sent)
    ensures var piece := Piece(m.payload, sent, chunk);
            var g := Gather(st, m.csid, piece);
            if sent + |piece| < |m.payload| then MirrorsStream(Sending(m, sent + |piece|), g.0) && g.1 == []
            else MirrorsStream(Idle, g.0) && |g.1| == 1 && Carries(g.1[0], m)
  {
    var piece := Piece(m.payload, sent, chunk);
    assert m.payload[..sent] + piece == m.payload[..sent + |piece|];
    if sent + |piece| >= |m.payload| {
      assert m.payload[..sent + |piece|] == m.payload;
    }
  }

  /** After a chunk the parser mirrors the sender again, unless a handler failed. */
  ghost predicate InStep(e: Emitted, r: StepResult) {
    && r.used == |e.bytes| && |r.msgs| == |e.done| <= 1
    && (e.done != [] ==> Carries(r.msgs[0], e.done[0]))
    && (r.code == Done ==> Mirrors(e.next, r.st))
    && (r.code == Done || (r.code != More && e.done != []))
  }

  lemma TakePiece(snd: Sender, header: seq<byte>, m: OutMessage, sent: nat, p: State, h: Header, stamp: u32, rest: seq<byte>)
    requires Mirrors(snd, p) && Sendable(m) && sent <= |m.payload|
    requires |header| == 1 + h.len && h.csid == m.csid && h.size < 0x100_0000
    requires var st := p.streams[m.csid]; Holds(if st.left == 0 then Opened(st, h, stamp) else st, m, sent)
    requires SenderOk(EmitPiece(snd, header, m, sent).next)
    ensures var e := EmitPiece(snd, header, m, sent);
            IsComplete(p, h, e.bytes + rest) && InStep(e, Complete(p, h, stamp, e.bytes + rest))
  {
    hide Gather, Handle, Complete, Mirrors, Deliver;
    MirrorsValid(snd, p);
    var e := EmitPiece(snd, header, m, sent);
    var begun := if p.streams[m.csid].left == 0 then Opened(p.streams[m.csid], h, stamp) else p.streams[m.csid];
    var piece := Piece(m.payload, sent, snd.chunk);
    PieceComplete(snd, header, m, sent, p, h, stamp, rest);
    GatherPiece(begun, m, sent, snd.chunk);
    var g := Gather(begun, m.csid, piece);
    if g.1 == [] {
      MirrorsUpdate(snd, p, m.csid, Sending(m, sent + |piece|), g.0);
      NothingDelivered(p.(streams := p.streams[m.csid := g.0]), |e.bytes|);
    } else {
      MirrorsUpdate(snd, p, m.csid, Idle, g.0);
      MessageDelivered(snd.(streams := snd.streams[m.csid := Idle]), p.(streams := p.streams[m.csid := g.0]),
                       |e.bytes|, g.1, m);
    }
  }

  lemma MirrorsValid(snd: Sender, s: State)
    requires Mirrors(snd, s)
    ensures Valid(s) && SenderOk(snd)
  {
  }

  /** The chunk at the start of what has been sent is the piece. */
  lemma PieceComplete(snd: Sender, header: seq<byte>, m: OutMessage, sent: nat, p: State, h: Header, stamp: u32, rest: seq<byte>)
    requires Mirrors(snd, p) && Sendable(m) && sent <= |m.payload|
    requires |header| == 1 + h.len && h.csid == m.csid && h.size < 0x100_0000
    requires var st := p.streams[m.csid]; Holds(if st.left == 0 then Opened(st, h, stamp) else st, m, sent)
    ensures var e := EmitPiece(snd, header, m, sent);
            var st := p.streams[m.csid];
            var piece := Piece(m.payload, sent, snd.chunk);
            var g := Gather(if st.left == 0 then Opened(st, h, stamp) else st, m.csid, piece);
            && |e.bytes| == |header| + |piece| && IsComplete(p, h, e.bytes + rest)
            && Complete(p, h, stamp, e.bytes + rest) ==
               Deliver(p.(streams := p.streams[m.csid := g.0]), |header| + |piece|, g.1)
  {
    hide Gather, Deliver, MirrorsStream;
    var e := EmitPiece(snd, header, m, sent);
    var piece := Piece(m.payload, sent, snd.chunk);
    assert (e.bytes + rest)[|header|..|header| + |piece|] == piece;
  }

  lemma NothingDelivered(p: State, used: nat)
    requires Valid(p)
    ensures Deliver(p, used, []) == StepResult(Done, p, used, [], [])
  {
  }

  lemma MessageDelivered(snd: Sender, p: State, used: nat, msgs: seq<Message>, m: OutMessage)
    requires Mirrors(snd, p) && |msgs| == 1 && WellSized(msgs[0]) && Carries(msgs[0], m)
    ensures forall r :: r in msgs ==> WellSized(r)
    ensures var r := Deliver(p, used, msgs); var chunk := if m.mtype == 1 && |m.payload| >= 4 then Be32(m.payload, 0) else snd.chunk;
            && r.used == used && r.msgs == msgs && r.code != More
            && (r.code == Done ==> Mirrors(snd.(chunk := chunk), r.st))
  {
    hide Handle, MirrorsStream;
    HandleNeverMore(p.ctl, msgs[0]);
    HandleChunkSize(p.ctl, msgs[0]);
    MirrorsControl(snd, p, if m.mtype == 1 && |m.payload| >= 4 then Be32(m.payload, 0) else snd.chunk,
                   Handle(p.ctl, msgs[0]).ctl);
  }

  lemma MirrorsUpdate(snd: Sender, p: State, csid: nat, o: Outgoing, st: Stream)
    requires Mirrors(snd, p) && csid < MAX_CHUNK_ID && MirrorsStream(o, st)
    requires SenderOk(snd.(streams := snd.streams[csid := o]))
    ensures Mirrors(snd.(streams := snd.streams[csid := o]), p.(streams := p.streams[csid := st]))
  {
  }

  lemma MirrorsControl(snd: Sender, p: State, chunk: u32, ctl: Control)
    requires Mirrors(snd, p) && ctl.maxChunk == chunk
    ensures Mirrors(snd.(chunk := chunk), p.(ctl := ctl))
  {
  }

  // ---------- the first chunk of a message ----------

  lemma FirstHeaderIsNoted(s: State, m: OutMessage, tail: seq<byte>)
    requires Valid(s) && Sendable(m)
    ensures var p := Prepare(s, FirstHeader(m) + tail); var noted := p.streams[m.csid].noted;
            p.streams == s.streams[m.csid := s.streams[m.csid].(noted := noted)] && Noted(noted, m)
  {
    hide StampOf, ReadHeader, FirstHeader, ToBe24;
    var d := FirstHeader(m) + tail;
    var n := HeaderLen(m.fmt);
    SizeAndType(m, tail);
    var first := m.fmt * 64 + m.csid;
    assert first / 64 == m.fmt && first % 64 == m.csid;
    var copy := d[1..n + 1];
    Sub(d, 1, n + 1, 3, 6);
    assert copy[6] == d[7];
    var noted := copy + s.streams[m.csid].noted[n..];
    assert noted[3..6] == copy[3..6];
  }

  lemma SizeAndType(m: OutMessage, tail: seq<byte>)
    requires Sendable(m)
    ensures var d := FirstHeader(m) + tail;
            && |d| >= 1 + HeaderLen(m.fmt) && d[0] == m.fmt * 64 + m.csid
            && d[4..7] == ToBe24(|m.payload|) && d[7] == m.mtype
  {
    hide ToBe24;
    var front := [m.fmt * 64 + m.csid] + ToBe24(if Extended(m) then 0xFF_FFFF else m.stamp);
    var behind := FirstHeader(m)[8..] + tail;
    assert FirstHeader(m) + tail == front + ToBe24(|m.payload|) + [m.mtype] + behind;
  }

  lemma StartStep(snd: Sender, s: State, m: OutMessage, rest: seq<byte>)
    requires Mirrors(snd, s) && Allowed(snd, Start(m))
    ensures var e := Emit(snd, Start(m)); InStep(e, Step(s, e.bytes + rest))
  {
    hide ReadHeader, Prepare, Complete, StampOf, Step;
    var e := Emit(snd, Start(m));
    var d := e.bytes + rest;
    var h := Sent(m);
    var piece := Piece(m.payload, 0, snd.chunk);
    assert d == FirstHeader(m) + (piece + rest);
    FirstHeaderReads(m, piece + rest);
    FirstHeaderIsNoted(s, m, piece + rest);
    var p := Prepare(s, d);
    assert MirrorsStream(snd.streams[m.csid], s.streams[m.csid]);
    MirrorsNoted(snd, s, p, m);
    FirstStamp(s, m);
    OpenedHolds(p.streams[m.csid], m, StampOf(s, h));
    TakePiece(snd, FirstHeader(m), m, 0, p, h, StampOf(s, h), rest);
    StepIsComplete(s, d);
  }

  lemma FirstStamp(s: State, m: OutMessage)
    requires Sendable(m)
    ensures m.fmt == 0 ==> StampOf(s, Sent(m)) == m.stamp
  {
  }

  lemma MirrorsNoted(snd: Sender, s: State, p: State, m: OutMessage)
    requires Mirrors(snd, s) && Sendable(m) && snd.streams[m.csid].Idle? && Valid(p) && p.ctl == s.ctl
    requires p.streams == s.streams[m.csid := s.streams[m.csid].(noted := p.streams[m.csid].noted)]
    ensures Mirrors(snd, p)
  {
  }

  lemma OpenedHolds(st: Stream, m: OutMessage, stamp: u32)
    requires Sendable(m) && st.left == 0 && Noted(st.noted, m) && (m.fmt == 0 ==> stamp == m.stamp)
    ensures Holds(Opened(st, Sent(m), stamp), m, 0)
  {
  }

  // ---------- the following chunks ----------

  lemma GoHeaderReads(s: State, csid: nat, tail: seq<byte>)
    requires Valid(s) && 2 <= csid < MAX_CHUNK_ID
    ensures var d := [0xC0 + csid] + tail;
            ReadHeader(d) == Whole(Header(3, csid, 0, 0, 0, 0, 0)) && Prepare(s, d) == s
  {
  }

  lemma GoStep(snd: Sender, s: State, csid: nat, rest: seq<byte>)
    requires Mirrors(snd, s) && Allowed(snd, Go(csid))
    ensures var e := Emit(snd, Go(csid)); InStep(e, Step(s, e.bytes + rest))
  {
    hide ReadHeader, Prepare, Complete, StampOf, Step;
    var e := Emit(snd, Go(csid));
    var d := e.bytes + rest;
    var o := snd.streams[csid];
    var h := Header(3, csid, 0, 0, 0, 0, 0);
    var piece := Piece(o.m.payload, o.sent, snd.chunk);
    assert d == [0xC0 + csid] + (piece + rest);
    GoHeaderReads(s, csid, piece + rest);
    assert MirrorsStream(o, s.streams[csid]);
    TakePiece(snd, [0xC0 + csid], o.m, o.sent, s, h, StampOf(s, h), rest);
    StepIsComplete(s, d);
  }

  /** The payload on a chunk stream after a call: that of the delivered message, or what has
      been gathered so far. */
  function GotAfter(r: StepResult, csid: nat): seq<byte>
    requires Valid(r.st) && csid < MAX_CHUNK_ID
  {
    if r.msgs != [] then r.msgs[0].payload else r.st.streams[csid].got
  }

  /** The standard repeats an extended time stamp behind the first byte of every following
      chunk; the parser takes that field for payload, and leaves the end of the chunk for
      the next header. */
  lemma ExtensionIsPayload(snd: Sender, s: State, csid: nat, ext: seq<byte>, rest: seq<byte>)
    requires Mirrors(snd, s) && Allowed(snd, Go(csid))
    ensures var o := snd.streams[csid]; var piece := Piece(o.m.payload, o.sent, snd.chunk);
            var r := Step(s, [0xC0 + csid] + ext + piece + rest);
            && r.used == 1 + |piece| && GotAfter(r, csid) == o.m.payload[..o.sent] + (ext + piece)[..|piece|]
  {
    hide ReadHeader, Prepare, Complete, StampOf, Step;
    var o := snd.streams[csid];
    var piece := Piece(o.m.payload, o.sent, snd.chunk);
    var d := [0xC0 + csid] + ext + piece + rest;
    var h := Header(3, csid, 0, 0, 0, 0, 0);
    assert d == [0xC0 + csid] + (ext + piece + rest);
    GoHeaderReads(s, csid, ext + piece + rest);
    assert MirrorsStream(o, s.streams[csid]);
    StepIsComplete(s, d);
    CompleteProgress(s, h, StampOf(s, h), d);
    CompleteGets(s, h, StampOf(s, h), d, |piece|);
    assert d[1..1 + |piece|] == (ext + piece)[..|piece|];
  }

  lemma CompleteGets(s: State, h: Header, stamp: u32, d: seq<byte>, n: nat)
    requires Valid(s) && h.csid < MAX_CHUNK_ID && h.size < 0x100_0000 && IsComplete(s, h, d)
    requires s.streams[h.csid].left > 0 && n == ChunkLen(s.streams[h.csid], h, s.ctl.maxChunk)
    ensures GotAfter(Complete(s, h, stamp, d), h.csid) == s.streams[h.csid].got + d[1 + h.len..1 + h.len + n]
  {
    hide Handle;
  }

  // ---------- all chunks ----------

  ghost predicate CarriesAll(log: seq<Message>, done: seq<OutMessage>) {
    |log| == |done| && forall i :: 0 <= i < |log| ==> Carries(log[i], done[i])
  }

  /** A run of the parser delivers exactly the messages that were completed, in that
      order, up to and including the first whose handler fails; if none fails it has used
      every byte and mirrors the sender. */
  ghost predicate Demuxed(c: Control, e: Emitted, r: Run)
    requires forall m :: m in r.log ==> WellSized(m)
  {
    && |r.log| <= |e.done| && CarriesAll(r.log, e.done[..|r.log|])
    && (r.code == More ==> r.used == |e.bytes| && |r.log| == |e.done| && Mirrors(e.next, r.st))
    && (r.code != More ==> r.log != [] && HandleAll(c, r.log).code == r.code)
  }

  lemma {:induction false} Demultiplex(snd: Sender, s: State, actions: seq<Action>)
    requires Mirrors(snd, s) && Schedule(snd, actions)
    ensures forall m :: m in ParseAll(s, EmitAll(snd, actions).bytes).log ==> WellSized(m)
    ensures Demuxed(s.ctl, EmitAll(snd, actions), ParseAll(s, EmitAll(snd, actions).bytes))
    decreases |actions|
  {
    hide Step, Emit, ParseAll, Demuxed, HandleAll;
    if actions == [] {
      ParseNothing(snd, s);
    } else {
      var first := Emit(snd, actions[0]);
      var rest := EmitAll(first.next, actions[1..]);
      var d := first.bytes + rest.bytes;
      OneAction(snd, s, actions[0], rest.bytes);
      var q := Step(s, d);
      StepIsHandled(s, d);
      ParseStep(s, d);
      if q.code == Done {
        assert d[q.used..] == rest.bytes;
        Demultiplex(first.next, q.st, actions[1..]);
        NothingHandled(s.ctl);
        FirstAction(s.ctl, first, rest, q, ParseAll(q.st, rest.bytes));
      } else {
        LastAction(s.ctl, first, rest, q);
      }
    }
  }

  lemma OneAction(snd: Sender, s: State, a: Action, rest: seq<byte>)
    requires Mirrors(snd, s) && Allowed(snd, a)
    ensures InStep(Emit(snd, a), Step(s, Emit(snd, a).bytes + rest))
  {
    hide Step, Emit;
    match a {
      case Start(m) => StartStep(snd, s, m, rest);
      case Go(csid) => GoStep(snd, s, csid, rest);
    }
  }

  lemma ParseNothing(snd: Sender, s: State)
    requires Mirrors(snd, s)
    ensures ParseAll(s, []) == Run(More, s, 0, [], [], 1)
    ensures Demuxed(s.ctl, Emitted([], snd, []), Run(More, s, 0, [], [], 1))
  {
  }

  lemma LastAction(c: Control, first: Emitted, rest: Emitted, q: StepResult)
    requires InStep(first, q) && q.code != Done && forall m :: m in q.msgs ==> WellSized(m)
    requires q.msgs == [] || HandleAll(c, q.msgs).code == q.code
    ensures Demuxed(c, Emitted(first.bytes + rest.bytes, rest.next, first.done + rest.done),
                    Run(q.code, q.st, q.used, q.msgs, q.outs, 1))
  {
    hide Mirrors, Carries, HandleAll;
    assert (first.done + rest.done)[..1] == first.done;
  }

  lemma FirstAction(c: Control, first: Emitted, rest: Emitted, q: StepResult, tail: Run)
    requires InStep(first, q) && q.code == Done && forall m :: m in q.msgs ==> WellSized(m)
    requires HandleAll(c, q.msgs) == Handled(Done, q.st.ctl, q.outs)
    requires (forall m :: m in tail.log ==> WellSized(m)) && Demuxed(q.st.ctl, rest, tail)
    ensures forall m :: m in q.msgs + tail.log ==> WellSized(m)
    ensures Demuxed(c, Emitted(first.bytes + rest.bytes, rest.next, first.done + rest.done),
                    Run(tail.code, tail.st, q.used + tail.used, q.msgs + tail.log, q.outs + tail.outs, 1 + tail.calls))
  {
    hide Mirrors, CarriesAll, HandleAll;
    CarriesOne(q.msgs, first.done);
    CarriesBoth(q.msgs, first.done, tail.log, rest.done);
    FirstHandled(c, q, tail.log);
  }

  lemma CarriesOne(msgs: seq<Message>, done: seq<OutMessage>)
    requires |msgs| == |done| <= 1 && (done != [] ==> Carries(msgs[0], done[0]))
    ensures CarriesAll(msgs, done)
  {
  }

  lemma CarriesBoth(a: seq<Message>, x: seq<OutMessage>, b: seq<Message>, y: seq<OutMessage>)
    requires CarriesAll(a, x) && |b| <= |y| && CarriesAll(b, y[..|b|])
    ensures CarriesAll(a + b, (x + y)[..|a| + |b|])
  {
    hide Carries;
    forall i | 0 <= i < |a + b|
      ensures Carries((a + b)[i], (x + y)[i])
    {
      if i >= |a| {
        assert Carries(b[i - |a|], y[..|b|][i - |a|]);
      }
    }
  }
}
