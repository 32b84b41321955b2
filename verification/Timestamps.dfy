/** The clocks of audio and video, and what one chunk does to them. */
module Timestamps {
  import opened Bytes
  import opened Protocol
  import opened Handlers
  import opened Chunks
  import opened Demux

  // ---------- the clock of one kind ----------

  /** The messages of one type, in the order in which they are started. */
  function StartsOf(actions: seq<Action>, mtype: byte): seq<OutMessage> {
    if actions == [] then []
    else
      var front, last := StartsOf(actions[..|actions| - 1], mtype), actions[|actions| - 1];
      if last.Start? && last.m.mtype == mtype then front + [last.m] else front
  }

  /** The clock after these messages of one kind: format 0 sets it, format 1 advances it. */
  function Clock(before: u32, ms: seq<OutMessage>): u32 {
    if ms == [] then before
    else
      var m := ms[|ms| - 1];
      if m.fmt == 1 then Add32(m.stamp, Clock(before, ms[..|ms| - 1])) else m.stamp
  }

  function Sum(ms: seq<OutMessage>): nat {
    if ms == [] then 0 else Sum(ms[..|ms| - 1]) + ms[|ms| - 1].stamp
  }

  /** The clock is the last absolute stamp plus all differences since, in 32 bits. */
  lemma {:induction false} ClockIsSum(before: u32, front: seq<OutMessage>, start: OutMessage, deltas: seq<OutMessage>)
    requires start.fmt == 0 && forall m :: m in deltas ==> m.fmt == 1
    ensures Clock(before, front + [start] + deltas) == (start.stamp + Sum(deltas)) % 0x1_0000_0000
    decreases |deltas|
  {
    var ms := front + [start] + deltas;
    if deltas == [] {
      assert ms == front + [start];
    } else {
      var less, last := deltas[..|deltas| - 1], deltas[|deltas| - 1];
      ClockIsSum(before, front, start, less);
      assert ms == front + [start] + less + [last];
      LastDelta(before, front + [start] + less, last, start.stamp + Sum(less));
    }
  }

  lemma LastDelta(before: u32, ms: seq<OutMessage>, last: OutMessage, sum: nat)
    requires last.fmt == 1 && Clock(before, ms) == sum % 0x1_0000_0000
    ensures Clock(before, ms + [last]) == (sum + last.stamp) % 0x1_0000_0000
  {
    assert (ms + [last])[..|ms|] == ms;
  }

  /** The stamp of the message that actions[j] starts. */
  function ExpectedStamp(s: State, actions: seq<Action>, j: nat): u32
    requires j < |actions| && actions[j].Start?
  {
    var m := actions[j].m;
    if m.mtype == 8 then Clock(s.lastAudio, StartsOf(actions[..j + 1], 8))
    else if m.mtype == 9 then Clock(s.lastVideo, StartsOf(actions[..j + 1], 9))
    else m.stamp
  }

  // ---------- where a delivered message was started ----------

  function ChunkStreamOf(a: Action): nat {
    match a
    case Start(m) => m.csid
    case Go(csid) => csid
  }

  /** begun holds, for each chunk stream, the index of the action that started the
      message in flight there. */
  function Begin(begun: seq<nat>, a: Action, pos: nat): (r: seq<nat>)
    requires |begun| == MAX_CHUNK_ID
    ensures |r| == MAX_CHUNK_ID
  {
    if a.Start? && a.m.csid < MAX_CHUNK_ID then begun[a.m.csid := pos] else begun
  }

  /** For each message completed by actions[pos..], the index of the action that started it. */
  function Origins(snd: Sender, begun: seq<nat>, actions: seq<Action>, pos: nat): seq<nat>
    requires pos <= |actions| && SenderOk(snd) && Schedule(snd, actions[pos..]) && |begun| == MAX_CHUNK_ID
    decreases |actions| - pos
  {
    if pos == |actions| then []
    else
      NextAction(snd, actions, pos);
      var now := Begin(begun, actions[pos], pos);
      var e := Emit(snd, actions[pos]);
      (if e.done == [] then [] else [now[ChunkStreamOf(actions[pos])]]) + Origins(e.next, now, actions, pos + 1)
  }

  lemma NextAction(snd: Sender, actions: seq<Action>, pos: nat)
    requires pos < |actions| && SenderOk(snd) && Schedule(snd, actions[pos..])
    ensures Allowed(snd, actions[pos]) && ChunkStreamOf(actions[pos]) < MAX_CHUNK_ID
    ensures Schedule(Emit(snd, actions[pos]).next, actions[pos + 1..])
    ensures var e, rest := Emit(snd, actions[pos]), EmitAll(Emit(snd, actions[pos]).next, actions[pos + 1..]);
            EmitAll(snd, actions[pos..]) == Emitted(e.bytes + rest.bytes, rest.next, e.done + rest.done)
  {
    assert actions[pos..][1..] == actions[pos + 1..];
  }

  // ---------- what one chunk does to the clocks ----------

  function Next(before: u32, m: OutMessage): u32 {
    if m.fmt == 1 then Add32(m.stamp, before) else m.stamp
  }

  /** The stamp after a call: that of the delivered message, or of the one in flight. */
  function StampAfter(r: StepResult, csid: nat): u32
    requires Valid(r.st) && csid < MAX_CHUNK_ID
  {
    if r.msgs != [] then r.msgs[0].timeStamp else r.st.streams[csid].timeStamp
  }

  /** A complete chunk leaves the clocks as Prepare has set them, opens a message with the
      stamp it is given and continues one with the stamp it has. */
  lemma CompleteStamp(p: State, h: Header, stamp: u32, d: seq<byte>)
    requires Valid(p) && h.csid < MAX_CHUNK_ID && h.size < 0x100_0000 && IsComplete(p, h, d)
    ensures var r := Complete(p, h, stamp, d);
            && r.st.lastAudio == p.lastAudio && r.st.lastVideo == p.lastVideo
            && StampAfter(r, h.csid) == (if p.streams[h.csid].left == 0 then stamp else p.streams[h.csid].timeStamp)
            && forall i :: 0 <= i < MAX_CHUNK_ID && i != h.csid ==> r.st.streams[i] == p.streams[i]
  {
    hide Handle;
  }

  function StampFor(s: State, m: OutMessage): u32 {
    if m.mtype == 8 then Next(s.lastAudio, m)
    else if m.mtype == 9 then Next(s.lastVideo, m)
    else m.stamp
  }

  /** The clocks of audio and video. */
  predicate ClocksAre(s: State, audio: u32, video: u32) {
    s.lastAudio == audio && s.lastVideo == video
  }

  predicate OthersKeepStamps(s: State, r: State, csid: nat)
    requires Valid(s) && Valid(r)
  {
    forall i :: 0 <= i < MAX_CHUNK_ID && i != csid ==> r.streams[i].timeStamp == s.streams[i].timeStamp
  }

  lemma PreparedClocks(s: State, m: OutMessage, tail: seq<byte>)
    requires Valid(s) && Sendable(m)
    ensures var p := Prepare(s, FirstHeader(m) + tail);
            && StampOf(s, Sent(m)) == StampFor(s, m)
            && ClocksAre(p, if m.mtype == 8 then StampFor(s, m) else s.lastAudio,
                         if m.mtype == 9 then StampFor(s, m) else s.lastVideo)
  {
    hide ReadHeader, FirstHeader, CopyHeader;
    FirstHeaderReads(m, tail);
  }

  /** The first chunk of a message sets or advances the clock of its kind, and no other,
      and gives the message the new time. */
  lemma StartTick(snd: Sender, s: State, m: OutMessage, rest: seq<byte>)
    requires Mirrors(snd, s) && Allowed(snd, Start(m))
    ensures var r := Step(s, Emit(snd, Start(m)).bytes + rest);
            && ClocksAre(r.st, if m.mtype == 8 then StampFor(s, m) else s.lastAudio,
                         if m.mtype == 9 then StampFor(s, m) else s.lastVideo)
            && StampAfter(r, m.csid) == StampFor(s, m) && OthersKeepStamps(s, r.st, m.csid)
  {
    hide ReadHeader, Prepare, Complete, StampOf, Step, FirstHeader, Noted, StampFor;
    var e := Emit(snd, Start(m));
    var d := e.bytes + rest;
    var h := Sent(m);
    var tail := Piece(m.payload, 0, snd.chunk) + rest;
    assert d == FirstHeader(m) + tail;
    FirstHeaderReads(m, tail);
    FirstHeaderIsNoted(s, m, tail);
    PreparedClocks(s, m, tail);
    StartStep(snd, s, m, rest);
    StepIsComplete(s, d);
    var p := Prepare(s, d);
    assert MirrorsStream(snd.streams[m.csid], s.streams[m.csid]);
    CompleteStamp(p, h, StampOf(s, h), d);
  }

  /** A following chunk leaves both clocks and all stamps as they are. */
  lemma GoTick(snd: Sender, s: State, csid: nat, rest: seq<byte>)
    requires Mirrors(snd, s) && Allowed(snd, Go(csid))
    ensures var r := Step(s, Emit(snd, Go(csid)).bytes + rest);
            && ClocksAre(r.st, s.lastAudio, s.lastVideo)
            && StampAfter(r, csid) == s.streams[csid].timeStamp && OthersKeepStamps(s, r.st, csid)
  {
    hide ReadHeader, Prepare, Complete, StampOf, Step;
    var e := Emit(snd, Go(csid));
    var d := e.bytes + rest;
    var o := snd.streams[csid];
    var h := Header(3, csid, 0, 0, 0, 0, 0);
    var tail := Piece(o.m.payload, o.sent, snd.chunk) + rest;
    assert d == [0xC0 + csid] + tail;
    GoHeaderReads(s, csid, tail);
    GoStep(snd, s, csid, rest);
    StepIsComplete(s, d);
    assert MirrorsStream(o, s.streams[csid]);
    CompleteStamp(s, h, StampOf(s, h), d);
  }

  // ---------- whole runs ----------

  lemma StartsNext(actions: seq<Action>, pos: nat, mtype: byte)
    requires pos < |actions|
    ensures var front, a := StartsOf(actions[..pos], mtype), actions[pos];
            StartsOf(actions[..pos + 1], mtype) == if a.Start? && a.m.mtype == mtype then front + [a.m] else front
  {
    assert actions[..pos + 1][..pos] == actions[..pos];
  }

  lemma ClockNext(before: u32, ms: seq<OutMessage>, m: OutMessage)
    ensures Clock(before, ms + [m]) == Next(Clock(before, ms), m)
  {
    assert (ms + [m])[..|ms|] == ms;
  }

  /** The clock of one kind over one more action. */
  lemma ClockStep(before: u32, actions: seq<Action>, pos: nat, mtype: byte)
    requires pos < |actions|
    ensures var was, a := Clock(before, StartsOf(actions[..pos], mtype)), actions[pos];
            Clock(before, StartsOf(actions[..pos + 1], mtype)) ==
            if a.Start? && a.m.mtype == mtype then Next(was, a.m) else was
  {
    hide StartsOf, Clock, Next;
    StartsNext(actions, pos, mtype);
    if actions[pos].Start? {
      ClockNext(before, StartsOf(actions[..pos], mtype), actions[pos].m);
    }
  }

  /** One action sends on one chunk stream only. */
  lemma EmitOne(snd: Sender, a: Action)
    requires SenderOk(snd) && Allowed(snd, a)
    ensures var e, csid := Emit(snd, a), ChunkStreamOf(a);
            var m := if a.Start? then a.m else snd.streams[csid].m;
            && csid < MAX_CHUNK_ID
            && (forall i :: 0 <= i < MAX_CHUNK_ID && i != csid ==> e.next.streams[i] == snd.streams[i])
            && (if e.done == [] then e.next.streams[csid].Sending? && e.next.streams[csid].m == m
                else e.next.streams[csid].Idle? && e.done == [m])
  {
    hide FirstHeader;
  }

  lemma {:induction false} OriginsLength(snd: Sender, begun: seq<nat>, actions: seq<Action>, pos: nat)
    requires pos <= |actions| && SenderOk(snd) && Schedule(snd, actions[pos..]) && |begun| == MAX_CHUNK_ID
    ensures |Origins(snd, begun, actions, pos)| == |EmitAll(snd, actions[pos..]).done|
    decreases |actions| - pos
  {
    hide Emit, EmitAll, Schedule, SenderOk;
    if pos == |actions| {
      assert actions[pos..] == [];
      NothingSent(snd);
    } else {
      NextAction(snd, actions, pos);
      EmitOne(snd, actions[pos]);
      OriginsLength(Emit(snd, actions[pos]).next, Begin(begun, actions[pos], pos), actions, pos + 1);
    }
  }

  lemma NothingSent(snd: Sender)
    requires SenderOk(snd)
    ensures Schedule(snd, []) && EmitAll(snd, []) == Emitted([], snd, [])
  {
  }
}
