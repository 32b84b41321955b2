/** What the parser makes of chunks that no sender of this client's servers should send. */
module OtherChunks {
  import opened Bytes
  import opened Protocol
  import opened Handlers
  import opened Chunks

  /** A chunk stream id from 64 on, which takes two or three bytes, ends the parsing. */
  lemma LargeIdsFail(s: State, d: seq<byte>)
    requires Valid(s) && d != [] && d[0] % 64 < 2
    ensures Step(s, d) == StepResult(Failed, s, 0, [], [])
  {
  }

  /** A message of size and type 0, and the chunk stream behind it. */
  function EmptyMessage(csid: nat, stamp: u32, noted: seq<byte>): Message {
    Message(csid, 0, 0, stamp, false, noted, [])
  }

  function EmptyStream(stamp: u32, noted: seq<byte>): Stream
    requires |noted| == 12
  {
    Stream(0, 0, 0, 0, stamp, false, noted, [])
  }

  /** Without a message in flight a chunk of format 3 delivers one of size 0 and type 0:
      size and type of the message before are not taken over. */
  lemma Format3Opens(s: State, csid: nat, rest: seq<byte>)
    requires Valid(s) && 2 <= csid < MAX_CHUNK_ID && s.streams[csid].left == 0
    ensures var noted := s.streams[csid].noted;
            Step(s, [0xC0 + csid] + rest) ==
            StepResult(Done, s.(streams := s.streams[csid := EmptyStream(0, noted)]), 1, [EmptyMessage(csid, 0, noted)], [])
  {
    hide Handle;
    var d := [0xC0 + csid] + rest;
    assert d[0] / 64 == 3 && d[0] % 64 == csid;
    assert ReadHeader(d) == Whole(Header(3, csid, 0, 0, 0, 0, 0));
    assert Prepare(s, d) == s;
    EmptyChunk(s, Header(3, csid, 0, 0, 0, 0, 0), 0, d);
  }

  lemma EmptyChunk(p: State, h: Header, stamp: u32, d: seq<byte>)
    requires Valid(p) && 2 <= h.csid < MAX_CHUNK_ID && p.streams[h.csid].left == 0
    requires h.size == 0 && h.mtype == 0 && h.streamId == 0 && h.fmt != 0 && |d| >= 1 + h.len
    ensures IsComplete(p, h, d)
    ensures var noted := p.streams[h.csid].noted;
            Complete(p, h, stamp, d) ==
            StepResult(Done, p.(streams := p.streams[h.csid := EmptyStream(stamp, noted)]), 1 + h.len,
                       [EmptyMessage(h.csid, stamp, noted)], [])
  {
    EmptyIsHandled(p.ctl, EmptyMessage(h.csid, stamp, p.streams[h.csid].noted));
    hide Handle;
    assert d[1 + h.len..1 + h.len] == [];
  }

  lemma EmptyIsHandled(c: Control, m: Message)
    requires WellSized(m) && m.mtype == 0
    ensures Handle(c, m) == Handled(Done, c, [])
  {
  }

  /** What a difference alone does to the clocks: it goes to the kind of the last long
      header on any chunk stream, and to none if that was neither audio nor video. */
  function Ticked(s: State, delta: u32): State {
    if s.lastType == 8 then s.(lastAudio := Add32(delta, s.lastAudio))
    else if s.lastType == 9 then s.(lastVideo := Add32(delta, s.lastVideo))
    else s
  }

  function TickedStamp(s: State, delta: u32): u32 {
    if s.lastType == 8 then Add32(delta, s.lastAudio) else if s.lastType == 9 then Add32(delta, s.lastVideo) else delta
  }

  /** A header of format 2, with or without an extended time stamp. */
  function Header2(csid: nat, delta: u32): (d: seq<byte>)
    requires 2 <= csid < MAX_CHUNK_ID
    ensures |d| == if delta >= 0xFF_FFFF then 8 else 4
  {
    [0x80 + csid] + if delta >= 0xFF_FFFF then ToBe24(0xFF_FFFF) + ToBe32(delta) else ToBe24(delta)
  }

  lemma Header2Reads(csid: nat, delta: u32, rest: seq<byte>)
    requires 2 <= csid < MAX_CHUNK_ID
    ensures ReadHeader(Header2(csid, delta) + rest) ==
            Whole(Header(2, csid, |Header2(csid, delta)| - 1, delta, 0, 0, 0))
    ensures !CopiesHeader(Header2(csid, delta) + rest)
  {
    hide Be24, Be32, ToBe24, ToBe32;
    var d := Header2(csid, delta) + rest;
    assert d[0] == 0x80 + csid && d[0] / 64 == 2 && d[0] % 64 == csid;
    if delta >= 0xFF_FFFF {
      assert d[1..4] == ToBe24(0xFF_FFFF) && d[4..8] == ToBe32(delta);
      WordAt(d, 4);
    } else {
      assert d[1..4] == ToBe24(delta);
    }
    FieldAt(d, 1);
  }

  lemma Header2Prepares(s: State, csid: nat, delta: u32, rest: seq<byte>)
    requires Valid(s) && 2 <= csid < MAX_CHUNK_ID
    ensures Prepare(s, Header2(csid, delta) + rest) == Ticked(s, delta)
    ensures StampOf(s, Header(2, csid, |Header2(csid, delta)| - 1, delta, 0, 0, 0)) == TickedStamp(s, delta)
  {
    hide ReadHeader, CopyHeader, Header2;
    Header2Reads(csid, delta, rest);
    NothingCopied(s.streams, Header2(csid, delta) + rest);
  }

  /** Without a message in flight a chunk of format 2 delivers an empty message as well; its
      difference goes to a clock. */
  lemma Format2Opens(s: State, csid: nat, delta: u32, rest: seq<byte>)
    requires Valid(s) && 2 <= csid < MAX_CHUNK_ID && s.streams[csid].left == 0
    ensures var noted, stamp := s.streams[csid].noted, TickedStamp(s, delta);
            Step(s, Header2(csid, delta) + rest) ==
            StepResult(Done, Ticked(s, delta).(streams := s.streams[csid := EmptyStream(stamp, noted)]),
                       |Header2(csid, delta)|, [EmptyMessage(csid, stamp, noted)], [])
  {
    hide ReadHeader, Prepare, Complete, StampOf, Step, Header2, IsComplete;
    var d := Header2(csid, delta) + rest;
    var h := Header(2, csid, |Header2(csid, delta)| - 1, delta, 0, 0, 0);
    Header2Reads(csid, delta, rest);
    Header2Prepares(s, csid, delta, rest);
    EmptyChunk(Ticked(s, delta), h, TickedStamp(s, delta), d);
    StepIsComplete(s, d);
  }

  /** With a message in flight the format of a chunk does not matter: the payload behind its
      header goes on with the message, which keeps size, type, stream id and time stamp;
      what the header says goes to the header copy and the clocks only. */
  lemma AnyHeaderContinues(s: State, d: seq<byte>)
    requires Valid(s) && ReadHeader(d).Whole? && s.streams[ReadHeader(d).h.csid].left > 0
    requires IsComplete(Prepare(s, d), ReadHeader(d).h, d)
    ensures var h := ReadHeader(d).h; var st := s.streams[h.csid]; var noted := Prepare(s, d).streams[h.csid].noted;
            var n := if st.left < s.ctl.maxChunk then st.left else s.ctl.maxChunk;
            && 1 + h.len + n <= |d|
            && var r, got := Step(s, d), st.got + d[1 + h.len..1 + h.len + n];
               r.used == 1 + h.len + n &&
               if n < st.left then r == StepResult(Done, r.st, r.used, [], []) &&
                                   r.st.streams[h.csid] == st.(noted := noted, left := st.left - n, got := got)
               else r.msgs == [Message(h.csid, st.mtype, st.streamId, st.timeStamp, st.absolute, noted, got)]
  {
    hide ReadHeader, Prepare, StampOf, Handle, Step;
    StepIsComplete(s, d);
    PrepareKeeps(s, d, ReadHeader(d).h.csid);
  }
}
