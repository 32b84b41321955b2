/** The time stamps of whole runs over any network: a relative stamp is added once for
    every call of the parser that sees its header whole, and only the last of these calls
    sees the whole chunk. */
module Retries {
  import opened Bytes
  import opened Protocol
  import opened Handlers
  import opened Chunks
  import opened Fragmentation
  import opened Demux
  import opened Timestamps

  // ---------- the receive loop, call by call ----------

  /** The receive loop with buf at hand and the pieces still to come, one call at a time. */
  function Work(s: State, buf: seq<byte>, pieces: seq<seq<byte>>): (f: Fed)
    requires Valid(s)
    ensures Valid(f.st) && f.code != Done
    decreases |pieces|, |buf|
  {
    StepProgress(s, buf);
    var q := Step(s, buf);
    if q.code == More then
      if pieces == [] then Fed(More, q.st, buf, []) else Work(q.st, buf + pieces[0], pieces[1..])
    else if q.code == Done then
      var r := Work(q.st, buf[q.used..], pieces);
      r.(log := q.msgs + r.log)
    else Fed(q.code, q.st, buf[q.used..], q.msgs)
  }

  lemma WorkStep(s: State, buf: seq<byte>, pieces: seq<seq<byte>>)
    requires Valid(s)
    ensures var q := Step(s, buf);
            q.used <= |buf| &&
            Work(s, buf, pieces) ==
            if q.code == More then
              if pieces == [] then Fed(More, q.st, buf, []) else Work(q.st, buf + pieces[0], pieces[1..])
            else if q.code == Done then
              Work(q.st, buf[q.used..], pieces).(log := q.msgs + Work(q.st, buf[q.used..], pieces).log)
            else Fed(q.code, q.st, buf[q.used..], q.msgs)
  {
    hide Step;
    StepProgress(s, buf);
  }

  /** With nothing to come the loop is one parse. */
  lemma {:induction false} WorkIsParse(s: State, buf: seq<byte>)
    requires Valid(s)
    ensures var r := ParseAll(s, buf); Work(s, buf, []) == Fed(r.code, r.st, buf[r.used..], r.log)
    decreases |buf|
  {
    hide Step, Work, ParseAll;
    WorkStep(s, buf, []);
    ParseStep(s, buf);
    StepProgress(s, buf);
    var q := Step(s, buf);
    if q.code == Done {
      WorkIsParse(q.st, buf[q.used..]);
      var rest := ParseAll(q.st, buf[q.used..]);
      assert buf[q.used..][rest.used..] == buf[q.used + rest.used..];
    }
  }

  ghost function OneMore(w: Fed, last: seq<byte>): (f: Fed)
    requires Valid(w.st)
  {
    if w.code != More then w
    else
      var r := ParseAll(w.st, w.pending + last);
      Fed(r.code, r.st, (w.pending + last)[r.used..], w.log + r.log)
  }

  /** One more piece at the end. */
  lemma {:induction false} WorkOneMore(s: State, buf: seq<byte>, pieces: seq<seq<byte>>, last: seq<byte>)
    requires Valid(s)
    ensures Work(s, buf, pieces + [last]) == OneMore(Work(s, buf, pieces), last)
    decreases |pieces|, |buf|
  {
    hide Step, Work, ParseAll;
    var more := pieces + [last];
    WorkStep(s, buf, pieces);
    WorkStep(s, buf, more);
    StepProgress(s, buf);
    var q := Step(s, buf);
    if q.code == More {
      if pieces == [] {
        assert more[0] == last && more[1..] == [];
        WorkIsParse(q.st, buf + last);
      } else {
        assert more[1..] == pieces[1..] + [last];
        WorkOneMore(q.st, buf + pieces[0], pieces[1..], last);
      }
    } else if q.code == Done {
      WorkOneMore(q.st, buf[q.used..], pieces, last);
      LaterLog(q.msgs, Work(q.st, buf[q.used..], pieces), last);
    }
  }

  lemma LaterLog(msgs: seq<Message>, w: Fed, last: seq<byte>)
    requires Valid(w.st)
    ensures OneMore(w.(log := msgs + w.log), last) == OneMore(w, last).(log := msgs + OneMore(w, last).log)
  {
    hide ParseAll;
    if w.code == More {
      var r := ParseAll(w.st, w.pending + last);
      assert msgs + w.log + r.log == msgs + (w.log + r.log);
    }
  }

  /** It is the receive loop. */
  lemma {:induction false} FeedIsWork(s: State, pieces: seq<seq<byte>>)
    requires Valid(s)
    ensures Feed(s, pieces) == Work(s, [], pieces)
    decreases |pieces|
  {
    hide Work, ParseAll;
    if pieces == [] {
      WorkStep(s, [], []);
      PrepareNothing(s);
    } else {
      var front, last := pieces[..|pieces| - 1], pieces[|pieces| - 1];
      FeedIsWork(s, front);
      assert pieces == front + [last];
      WorkOneMore(s, [], front, last);
    }
  }

  // ---------- how often a header is parsed in vain ----------

  function HeaderBytes(a: Action): nat {
    if a.Start? && Sendable(a.m) then |FirstHeader(a.m)| else 1
  }

  /** For each of actions[pos..] the number of calls that see the header of its chunk whole
      but not the chunk; n bytes are at hand, and pieces of these lengths are to come. */
  function Retried(snd: Sender, actions: seq<Action>, pos: nat, n: nat, lens: seq<nat>): (ks: seq<nat>)
    requires pos <= |actions| && SenderOk(snd) && Schedule(snd, actions[pos..])
    ensures |ks| == |actions| - pos
    decreases |actions| - pos + |lens|
  {
    if pos == |actions| then []
    else
      NextAction(snd, actions, pos);
      var e := Emit(snd, actions[pos]);
      if n >= |e.bytes| then [0] + Retried(e.next, actions, pos + 1, n - |e.bytes|, lens)
      else
        var now := if n >= HeaderBytes(actions[pos]) then 1 else 0;
        if lens == [] then [now] + seq(|actions| - pos - 1, _ => 0)
        else
          var ks := Retried(snd, actions, pos, n + lens[0], lens[1..]);
          [now + ks[0]] + ks[1..]
  }

  /** How many of the ends of the receives, the first at n, fall into [lo, hi). */
  function EndsIn(n: nat, lens: seq<nat>, lo: nat, hi: nat): nat
    decreases |lens|
  {
    (if lo <= n < hi then 1 else 0) + if lens == [] then 0 else EndsIn(n + lens[0], lens[1..], lo, hi)
  }

  /** For each of actions[pos..], whose chunks begin at `at`, the receives that end behind
      its header or at its end, and in front of the end of its chunk. */
  function CutsBehindHeaders(snd: Sender, actions: seq<Action>, pos: nat, at: nat, n: nat, lens: seq<nat>): (ks: seq<nat>)
    requires pos <= |actions| && SenderOk(snd) && Schedule(snd, actions[pos..])
    ensures |ks| == |actions| - pos
    decreases |actions| - pos
  {
    if pos == |actions| then []
    else
      NextAction(snd, actions, pos);
      var e := Emit(snd, actions[pos]);
      [EndsIn(n, lens, at + HeaderBytes(actions[pos]), at + |e.bytes|)]
      + CutsBehindHeaders(e.next, actions, pos + 1, at + |e.bytes|, n, lens)
  }

  lemma {:induction false} NoEndsBefore(n: nat, lens: seq<nat>, lo: nat, hi: nat)
    requires hi <= n || (lens == [] && n < lo)
    ensures EndsIn(n, lens, lo, hi) == 0
    decreases |lens|
  {
    if lens != [] {
      NoEndsBefore(n + lens[0], lens[1..], lo, hi);
    }
  }

  lemma CutsStep(snd: Sender, actions: seq<Action>, pos: nat, at: nat, n: nat, lens: seq<nat>)
    requires pos < |actions| && SenderOk(snd) && Schedule(snd, actions[pos..]) && Allowed(snd, actions[pos])
    requires Schedule(Emit(snd, actions[pos]).next, actions[pos + 1..])
    ensures var e := Emit(snd, actions[pos]);
            CutsBehindHeaders(snd, actions, pos, at, n, lens) ==
            [EndsIn(n, lens, at + HeaderBytes(actions[pos]), at + |e.bytes|)]
            + CutsBehindHeaders(e.next, actions, pos + 1, at + |e.bytes|, n, lens)
  {
    hide Emit, Schedule, HeaderBytes, EndsIn, SenderOk;
  }

  /** Nothing of what is still to be sent ends in front of the next receive. */
  lemma {:induction false} LaterCuts(snd: Sender, actions: seq<Action>, pos: nat, at: nat, n: nat, lens: seq<nat>)
    requires pos <= |actions| && SenderOk(snd) && Schedule(snd, actions[pos..]) && n < at && lens != []
    ensures CutsBehindHeaders(snd, actions, pos, at, n, lens) ==
            CutsBehindHeaders(snd, actions, pos, at, n + lens[0], lens[1..])
    decreases |actions| - pos
  {
    if pos < |actions| {
      hide Emit, Schedule, HeaderBytes, CutsBehindHeaders, SenderOk, EndsIn;
      NextAction(snd, actions, pos);
      var e := Emit(snd, actions[pos]);
      LaterCuts(e.next, actions, pos + 1, at + |e.bytes|, n, lens);
      CutsStep(snd, actions, pos, at, n, lens);
      CutsStep(snd, actions, pos, at, n + lens[0], lens[1..]);
      NotAtEnd(n, lens, at + HeaderBytes(actions[pos]), at + |e.bytes|);
    }
  }

  lemma {:induction false} NoLaterCuts(snd: Sender, actions: seq<Action>, pos: nat, at: nat, n: nat)
    requires pos <= |actions| && SenderOk(snd) && Schedule(snd, actions[pos..]) && n < at
    ensures CutsBehindHeaders(snd, actions, pos, at, n, []) == seq(|actions| - pos, _ => 0)
    decreases |actions| - pos
  {
    if pos < |actions| {
      hide Emit, Schedule, HeaderBytes, CutsBehindHeaders, SenderOk, EndsIn;
      NextAction(snd, actions, pos);
      var e := Emit(snd, actions[pos]);
      NoLaterCuts(e.next, actions, pos + 1, at + |e.bytes|, n);
      CutsStep(snd, actions, pos, at, n, []);
      NotAtEnd(n, [], at + HeaderBytes(actions[pos]), at + |e.bytes|);
      assert [0] + seq(|actions| - pos - 1, _ => 0) == seq(|actions| - pos, _ => 0);
    }
  }

  lemma NotAtEnd(n: nat, lens: seq<nat>, lo: nat, hi: nat)
    requires n < lo
    ensures EndsIn(n, lens, lo, hi) == if lens == [] then 0 else EndsIn(n + lens[0], lens[1..], lo, hi)
  {
  }

  lemma RetriedWhole(snd: Sender, actions: seq<Action>, pos: nat, n: nat, lens: seq<nat>)
    requires pos < |actions| && SenderOk(snd) && Schedule(snd, actions[pos..]) && Allowed(snd, actions[pos])
    requires Schedule(Emit(snd, actions[pos]).next, actions[pos + 1..]) && n >= |Emit(snd, actions[pos]).bytes|
    ensures var e := Emit(snd, actions[pos]);
            Retried(snd, actions, pos, n, lens) == [0] + Retried(e.next, actions, pos + 1, n - |e.bytes|, lens)
  {
    hide Emit, Schedule, HeaderBytes, SenderOk;
  }

  lemma RetriedLast(snd: Sender, actions: seq<Action>, pos: nat, n: nat)
    requires pos < |actions| && SenderOk(snd) && Schedule(snd, actions[pos..]) && Allowed(snd, actions[pos])
    requires n < |Emit(snd, actions[pos]).bytes|
    ensures Retried(snd, actions, pos, n, []) ==
            [if n >= HeaderBytes(actions[pos]) then 1 else 0] + seq(|actions| - pos - 1, _ => 0)
  {
    hide Emit, Schedule, HeaderBytes, SenderOk;
  }

  lemma RetriedMore(snd: Sender, actions: seq<Action>, pos: nat, n: nat, lens: seq<nat>)
    requires pos < |actions| && SenderOk(snd) && Schedule(snd, actions[pos..]) && Allowed(snd, actions[pos])
    requires lens != [] && n < |Emit(snd, actions[pos]).bytes|
    ensures var now, later := Retried(snd, actions, pos, n, lens), Retried(snd, actions, pos, n + lens[0], lens[1..]);
            now == [(if n >= HeaderBytes(actions[pos]) then 1 else 0) + later[0]] + later[1..]
  {
    hide Emit, Schedule, HeaderBytes, SenderOk;
  }

  /** The calls in vain are the receives that end between the end of a header, with its
      extended stamp, and the end of its chunk. */
  lemma {:induction false} RetriedAreCuts(snd: Sender, actions: seq<Action>, pos: nat, at: nat, n: nat, lens: seq<nat>)
    requires pos <= |actions| && SenderOk(snd) && Schedule(snd, actions[pos..])
    ensures Retried(snd, actions, pos, n, lens) == CutsBehindHeaders(snd, actions, pos, at, at + n, lens)
    decreases |actions| - pos + |lens|
  {
    hide *;
    if pos == |actions| {
      NothingToCut(snd, actions, at, n, lens);
    } else {
      NextAction(snd, actions, pos);
      var e := Emit(snd, actions[pos]);
      if n >= |e.bytes| {
        RetriedAreCuts(e.next, actions, pos + 1, at + |e.bytes|, n - |e.bytes|, lens);
        CutsOfWhole(snd, actions, pos, at, n, lens);
      } else {
        if lens != [] {
          RetriedAreCuts(snd, actions, pos, at, n + lens[0], lens[1..]);
        }
        CutsOfPart(snd, actions, pos, at, n, lens);
      }
    }
  }

  lemma NothingToCut(snd: Sender, actions: seq<Action>, at: nat, n: nat, lens: seq<nat>)
    requires SenderOk(snd) && Schedule(snd, actions[|actions|..])
    ensures Retried(snd, actions, |actions|, n, lens) == CutsBehindHeaders(snd, actions, |actions|, at, at + n, lens)
  {
  }

  lemma CutsOfWhole(snd: Sender, actions: seq<Action>, pos: nat, at: nat, n: nat, lens: seq<nat>)
    requires pos < |actions| && SenderOk(snd) && Schedule(snd, actions[pos..]) && Allowed(snd, actions[pos])
    requires Schedule(Emit(snd, actions[pos]).next, actions[pos + 1..]) && n >= |Emit(snd, actions[pos]).bytes|
    requires var e := Emit(snd, actions[pos]);
             Retried(e.next, actions, pos + 1, n - |e.bytes|, lens) ==
             CutsBehindHeaders(e.next, actions, pos + 1, at + |e.bytes|, at + n, lens)
    ensures Retried(snd, actions, pos, n, lens) == CutsBehindHeaders(snd, actions, pos, at, at + n, lens)
  {
    hide Emit, Schedule, HeaderBytes, Retried, CutsBehindHeaders, SenderOk, EndsIn;
    RetriedWhole(snd, actions, pos, n, lens);
    CutsStep(snd, actions, pos, at, at + n, lens);
    NoEndsBefore(at + n, lens, at + HeaderBytes(actions[pos]), at + |Emit(snd, actions[pos]).bytes|);
  }

  lemma CutsOfPart(snd: Sender, actions: seq<Action>, pos: nat, at: nat, n: nat, lens: seq<nat>)
    requires pos < |actions| && SenderOk(snd) && Schedule(snd, actions[pos..]) && Allowed(snd, actions[pos])
    requires Schedule(Emit(snd, actions[pos]).next, actions[pos + 1..]) && n < |Emit(snd, actions[pos]).bytes|
    requires lens != [] ==> Retried(snd, actions, pos, n + lens[0], lens[1..]) ==
                            CutsBehindHeaders(snd, actions, pos, at, at + n + lens[0], lens[1..])
    ensures Retried(snd, actions, pos, n, lens) == CutsBehindHeaders(snd, actions, pos, at, at + n, lens)
  {
    hide Emit, Schedule, HeaderBytes, Retried, CutsBehindHeaders, SenderOk, EndsIn;
    var e := Emit(snd, actions[pos]);
    CutsStep(snd, actions, pos, at, at + n, lens);
    AtEnd(n, at, lens, HeaderBytes(actions[pos]), |e.bytes|);
    if lens == [] {
      RetriedLast(snd, actions, pos, n);
      NoLaterCuts(e.next, actions, pos + 1, at + |e.bytes|, at + n);
    } else {
      LaterCuts(e.next, actions, pos + 1, at + |e.bytes|, at + n, lens);
      RetriedMore(snd, actions, pos, n, lens);
      CutsStep(snd, actions, pos, at, at + n + lens[0], lens[1..]);
    }
  }

  lemma AtEnd(n: nat, at: nat, lens: seq<nat>, lo: nat, hi: nat)
    requires n < hi
    ensures EndsIn(at + n, lens, at + lo, at + hi) ==
            (if n >= lo then 1 else 0) + if lens == [] then 0 else EndsIn(at + n + lens[0], lens[1..], at + lo, at + hi)
  {
  }

  function Lens(pieces: seq<seq<byte>>): (r: seq<nat>)
    ensures |r| == |pieces|
  {
    if pieces == [] then [] else [|pieces[0]|] + Lens(pieces[1..])
  }

  // ---------- the clock with retries ----------

  predicate Starts(a: Action, mtype: byte) {
    a.Start? && a.m.mtype == mtype
  }

  /** One action moves the clock with k retries, and the excess. */
  function RetryNext(a: Action, was: u32, k: nat, mtype: byte): u32 {
    if !Starts(a, mtype) then was
    else if a.m.fmt == 1 then (was + (a.m.stamp + k * a.m.stamp)) % 0x1_0000_0000
    else a.m.stamp
  }

  function ExcessNext(a: Action, late: nat, k: nat, mtype: byte): nat {
    if !Starts(a, mtype) then late else if a.m.fmt == 1 then late + k * a.m.stamp else 0
  }

  /** The clock of one kind behind actions[..n], when the header of actions[i] is parsed in
      vain ks[i] times. */
  function RetryClock(before: u32, actions: seq<Action>, ks: seq<nat>, n: nat, mtype: byte): u32
    requires n <= |actions| == |ks|
  {
    if n == 0 then before
    else RetryNext(actions[n - 1], RetryClock(before, actions, ks, n - 1, mtype), ks[n - 1], mtype)
  }

  /** What has been added in vain since the last absolute stamp. */
  function Excess(actions: seq<Action>, ks: seq<nat>, n: nat, mtype: byte): nat
    requires n <= |actions| == |ks|
  {
    if n == 0 then 0
    else ExcessNext(actions[n - 1], Excess(actions, ks, n - 1, mtype), ks[n - 1], mtype)
  }

  lemma AddMod(a: nat, b: nat, c: nat)
    ensures (a % 0x1_0000_0000 + b) % 0x1_0000_0000 == (a + b) % 0x1_0000_0000
    ensures ((a + b) % 0x1_0000_0000 + c) % 0x1_0000_0000 == (a + b + c) % 0x1_0000_0000
  {
  }

  /** The clock with retries is ahead by the excess. */
  lemma {:induction false} RetryClockIsAhead(before: u32, actions: seq<Action>, ks: seq<nat>, n: nat, mtype: byte)
    requires n <= |actions| == |ks|
    ensures RetryClock(before, actions, ks, n, mtype) ==
            (Clock(before, StartsOf(actions[..n], mtype)) + Excess(actions, ks, n, mtype)) % 0x1_0000_0000
    decreases n
  {
    hide Clock, StartsOf, RetryNext, ExcessNext, Next;
    if n == 0 {
      assert actions[..0] == [];
      NoStarts(before, mtype);
    } else {
      RetryClockIsAhead(before, actions, ks, n - 1, mtype);
      ClockStep(before, actions, n - 1, mtype);
      AheadStep(actions[n - 1], Clock(before, StartsOf(actions[..n - 1], mtype)), Excess(actions, ks, n - 1, mtype),
                ks[n - 1], mtype);
    }
  }

  lemma AheadStep(a: Action, was: u32, late: nat, k: nat, mtype: byte)
    ensures RetryNext(a, (was + late) % 0x1_0000_0000, k, mtype) ==
            ((if Starts(a, mtype) then Next(was, a.m) else was) + ExcessNext(a, late, k, mtype)) % 0x1_0000_0000
  {
    if Starts(a, mtype) && a.m.fmt == 1 {
      Ahead(was, late, k * a.m.stamp, a.m.stamp);
    }
  }

  lemma NoStarts(before: u32, mtype: byte)
    ensures Clock(before, StartsOf([], mtype)) == before
  {
  }

  lemma Ahead(was: nat, late: nat, again: nat, d: nat)
    ensures ((was + late) % 0x1_0000_0000 + (d + again)) % 0x1_0000_0000 ==
            ((d + was) % 0x1_0000_0000 + (late + again)) % 0x1_0000_0000
  {
    AddMod(was + late, d + again, 0);
    AddMod(d + was, late + again, 0);
  }

  /** The stamp with which the message that actions[j] starts is delivered. */
  function RetryStamp(s: State, actions: seq<Action>, ks: seq<nat>, j: nat): u32
    requires j < |actions| == |ks| && actions[j].Start?
  {
    var m := actions[j].m;
    if m.mtype == 8 then RetryClock(s.lastAudio, actions, ks, j + 1, 8)
    else if m.mtype == 9 then RetryClock(s.lastVideo, actions, ks, j + 1, 9)
    else m.stamp
  }

  /** How far it is ahead of the right one. */
  function Lateness(actions: seq<Action>, ks: seq<nat>, j: nat): nat
    requires j < |actions| == |ks| && actions[j].Start?
  {
    var mtype := actions[j].m.mtype;
    if mtype == 8 || mtype == 9 then Excess(actions, ks, j + 1, mtype) else 0
  }

  /** A stamp is right exactly when what was added in vain is a multiple of 2^32. */
  lemma RightExactlyWhen(s: State, actions: seq<Action>, ks: seq<nat>, j: nat)
    requires j < |actions| == |ks| && actions[j].Start?
    ensures RetryStamp(s, actions, ks, j) == (ExpectedStamp(s, actions, j) + Lateness(actions, ks, j)) % 0x1_0000_0000
    ensures RetryStamp(s, actions, ks, j) == ExpectedStamp(s, actions, j) <==> Lateness(actions, ks, j) % 0x1_0000_0000 == 0
  {
    hide Clock, StartsOf, RetryClock, Excess;
    RetryClockIsAhead(s.lastAudio, actions, ks, j + 1, 8);
    RetryClockIsAhead(s.lastVideo, actions, ks, j + 1, 9);
    SameRemainder(ExpectedStamp(s, actions, j), Lateness(actions, ks, j));
  }

  lemma SameRemainder(a: u32, b: nat)
    ensures (a + b) % 0x1_0000_0000 == a <==> b % 0x1_0000_0000 == 0
  {
    AddMod(b, a, 0);
  }

  // ---------- a chunk that is not complete yet ----------

  /** A part of a chunk is asked for again. */
  lemma PartIncomplete(snd: Sender, s: State, a: Action, buf: seq<byte>)
    requires Mirrors(snd, s) && Allowed(snd, a) && buf < Emit(snd, a).bytes
    ensures Step(s, buf) == StepResult(More, Prepare(s, buf), 0, [], [])
  {
    hide Step, Emit, Prepare, Mirrors;
    MirrorsValid(snd, s);
    StepProgress(s, buf);
    var bytes := Emit(snd, a).bytes;
    if Step(s, buf).code != More {
      StepGrows(s, buf, bytes[|buf|..]);
      assert buf + bytes[|buf|..] == bytes + [];
      OneAction(snd, s, a, []);
    }
  }

  /** What is seen of a header that is not there whole. */
  lemma PartOfHeader(m: OutMessage, buf: seq<byte>)
    requires Sendable(m) && buf < FirstHeader(m)
    ensures ReadHeader(buf) == Short && (buf != [] ==> buf[0] == m.fmt * 64 + m.csid)
  {
    hide ReadHeader, FirstHeader;
    var rest := FirstHeader(m)[|buf|..];
    assert buf + rest == FirstHeader(m) + [];
    HeaderGrows(buf, rest);
    FirstHeaderReads(m, []);
    SizeAndType(m, []);
    assert (FirstHeader(m) + [])[0] == FirstHeader(m)[0];
  }

  predicate SameStamps(s: State, r: State)
    requires Valid(s) && Valid(r)
  {
    forall i :: 0 <= i < MAX_CHUNK_ID ==> r.streams[i].timeStamp == s.streams[i].timeStamp
  }

  /** The first chunk of a message, seen in part: its clock moves if the header is whole. */
  lemma PartOfStart(snd: Sender, s: State, m: OutMessage, buf: seq<byte>)
    requires Mirrors(snd, s) && Allowed(snd, Start(m)) && buf < Emit(snd, Start(m)).bytes
    ensures var p := Prepare(s, buf); var whole := |buf| >= |FirstHeader(m)|;
            && Mirrors(snd, p) && SameStamps(s, p)
            && ClocksAre(p, if whole && m.mtype == 8 then StampFor(s, m) else s.lastAudio,
                         if whole && m.mtype == 9 then StampFor(s, m) else s.lastVideo)
  {
    hide Prepare, StampFor, FirstHeader, Mirrors, Noted;
    MirrorsValid(snd, s);
    var h := FirstHeader(m);
    var bytes := Emit(snd, Start(m)).bytes;
    assert h <= bytes;
    forall i | 0 <= i < MAX_CHUNK_ID
      ensures Prepare(s, buf).streams[i].timeStamp == s.streams[i].timeStamp
    {
      PrepareKeeps(s, buf, i);
    }
    if |buf| >= |h| {
      var tail := buf[|h|..];
      assert buf == h + tail;
      PreparedClocks(s, m, tail);
      FirstHeaderIsNoted(s, m, tail);
      MirrorsNoted(snd, s, Prepare(s, buf), m);
    } else {
      assert buf < h;
      PartOfHeader(m, buf);
      ShortPrepared(snd, s, m, buf);
    }
  }

  lemma ShortPrepared(snd: Sender, s: State, m: OutMessage, buf: seq<byte>)
    requires Mirrors(snd, s) && Allowed(snd, Start(m))
    requires ReadHeader(buf) == Short && (buf != [] ==> buf[0] == m.fmt * 64 + m.csid)
    ensures var p := Prepare(s, buf); Mirrors(snd, p) && ClocksAre(p, s.lastAudio, s.lastVideo)
  {
    hide ReadHeader, Mirrors, Noted;
    MirrorsValid(snd, s);
    var p := Prepare(s, buf);
    if buf != [] {
      var first := m.fmt * 64 + m.csid;
      assert first % 64 == m.csid;
      OneCopied(s.streams, buf, m.csid);
      MirrorsNoted(snd, s, p, m);
    }
  }

  lemma OneCopied(streams: seq<Stream>, d: seq<byte>, csid: nat)
    requires |streams| == MAX_CHUNK_ID && d != [] && csid < MAX_CHUNK_ID && d[0] % 64 == csid
    ensures CopyHeader(streams, d) == streams[csid := streams[csid].(noted := CopyHeader(streams, d)[csid].noted)]
  {
    if !CopiesHeader(d) {
      assert streams[csid := streams[csid]] == streams;
    }
  }

  /** A following chunk, seen in part, changes nothing. */
  lemma PartOfGo(snd: Sender, s: State, csid: nat, buf: seq<byte>)
    requires Mirrors(snd, s) && Allowed(snd, Go(csid)) && buf < Emit(snd, Go(csid)).bytes
    ensures Prepare(s, buf) == s
  {
    hide Prepare, ReadHeader;
    if buf == [] {
      PrepareNothing(s);
    } else {
      assert buf[0] == 0xC0 + csid;
      assert buf == [0xC0 + csid] + buf[1..];
      assert MirrorsStream(snd.streams[csid], s.streams[csid]);
      GoHeaderReads(s, csid, buf[1..]);
    }
  }

  // ---------- a header that is parsed again ----------

  lemma PreparedAgain(s: State, a: seq<byte>)
    requires Valid(s) && ReadHeader(a).Whole?
    ensures var h, p := ReadHeader(a).h, Prepare(s, a); var kind := if h.fmt == 2 then s.lastType else h.mtype;
            && (h.fmt == 1 || h.fmt == 2) && (kind == 8 || kind == 9)
               ==> StampOf(p, h) == Add32(h.stamp, StampOf(s, h))
  {
    hide ReadHeader, CopyHeader;
  }

  /** The header holds a difference that goes on a clock. */
  predicate AddsTo(s: State, h: Header) {
    (h.fmt == 1 && (h.mtype == 8 || h.mtype == 9)) || (h.fmt == 2 && (s.lastType == 8 || s.lastType == 9))
  }

  /** The state after these calls of the parser. */
  function AfterCalls(s: State, calls: seq<seq<byte>>): (r: State)
    requires Valid(s)
    ensures Valid(r)
    decreases |calls|
  {
    if calls == [] then s else Step(AfterCalls(s, calls[..|calls| - 1]), calls[|calls| - 1]).st
  }

  /** Calls that see the same header whole, but not its chunk. */
  predicate InVain(s: State, h: Header, calls: seq<seq<byte>>)
    requires Valid(s)
  {
    forall i :: 0 <= i < |calls| ==>
      ReadHeader(calls[i]) == Whole(h) && Step(AfterCalls(s, calls[..i]), calls[i]).code == More
  }

  lemma {:induction false} CallsAdd(s: State, h: Header, calls: seq<seq<byte>>)
    requires Valid(s) && AddsTo(s, h) && InVain(s, h, calls) && h.csid < MAX_CHUNK_ID
    ensures var t := AfterCalls(s, calls);
            && StampOf(t, h) == (StampOf(s, h) + |calls| * h.stamp) % 0x1_0000_0000
            && AddsTo(t, h) && t.streams[h.csid].left == s.streams[h.csid].left
    decreases |calls|
  {
    hide Step, StampOf, ReadHeader, Add32, InVain, AddsTo;
    if calls != [] {
      var front, last := calls[..|calls| - 1], calls[|calls| - 1];
      FrontInVain(s, h, calls);
      CallsAdd(s, h, front);
      OneCallAdds(AfterCalls(s, front), h, last);
      CallsSum(StampOf(s, h), |front|, h.stamp);
    }
  }

  lemma FrontInVain(s: State, h: Header, calls: seq<seq<byte>>)
    requires Valid(s) && calls != [] && InVain(s, h, calls)
    ensures var front, last := calls[..|calls| - 1], calls[|calls| - 1];
            InVain(s, h, front) && ReadHeader(last) == Whole(h) && Step(AfterCalls(s, front), last).code == More
  {
    hide Step, ReadHeader, AfterCalls;
    var front := calls[..|calls| - 1];
    forall i | 0 <= i < |front|
      ensures ReadHeader(front[i]) == Whole(h) && Step(AfterCalls(s, front[..i]), front[i]).code == More
    {
      assert front[..i] == calls[..i] && front[i] == calls[i];
    }
  }

  lemma OneCallAdds(s: State, h: Header, d: seq<byte>)
    requires Valid(s) && AddsTo(s, h) && ReadHeader(d) == Whole(h) && h.csid < MAX_CHUNK_ID && Step(s, d).code == More
    ensures var t := Step(s, d).st;
            && StampOf(t, h) == Add32(h.stamp, StampOf(s, h)) && AddsTo(t, h)
            && t.streams[h.csid].left == s.streams[h.csid].left
  {
    hide Step, Prepare, StampOf, ReadHeader, Add32;
    StepProgress(s, d);
    PreparedAgain(s, d);
    PreparedKind(s, d);
    PrepareKeeps(s, d, h.csid);
  }

  lemma PreparedKind(s: State, a: seq<byte>)
    requires Valid(s) && ReadHeader(a).Whole? && AddsTo(s, ReadHeader(a).h)
    ensures AddsTo(Prepare(s, a), ReadHeader(a).h)
  {
    hide ReadHeader, CopyHeader;
  }

  lemma CallsSum(stamp: u32, n: nat, d: u32)
    ensures Add32(d, (stamp + n * d) % 0x1_0000_0000) == (stamp + (n + 1) * d) % 0x1_0000_0000
  {
    assert (n + 1) * d == n * d + d;
    SumAgain(stamp, n * d, d);
  }

  /** From any state and on any bytes: a chunk that opens a message and whose header, with a
      difference for the clock of audio or video, has been seen k times in vain, gives the
      message a stamp that is ahead by k times the difference; it is right exactly if that
      is a multiple of 2^32. */
  lemma RetryAddsAgain(s: State, h: Header, calls: seq<seq<byte>>, d: seq<byte>)
    requires Valid(s) && AddsTo(s, h) && InVain(s, h, calls) && ReadHeader(d) == Whole(h)
    requires s.streams[h.csid].left == 0 && Step(s, d).code != More && Step(AfterCalls(s, calls), d).code != More
    ensures var once, again := StampAfter(Step(s, d), h.csid), StampAfter(Step(AfterCalls(s, calls), d), h.csid);
            && again == (once + |calls| * h.stamp) % 0x1_0000_0000
            && (again == once <==> |calls| * h.stamp % 0x1_0000_0000 == 0)
  {
    hide *;
    RetryIsAhead(s, h, calls, d, |calls| * h.stamp);
  }

  lemma RetryIsAhead(s: State, h: Header, calls: seq<seq<byte>>, d: seq<byte>, added: nat)
    requires Valid(s) && AddsTo(s, h) && InVain(s, h, calls) && ReadHeader(d) == Whole(h) && added == |calls| * h.stamp
    requires s.streams[h.csid].left == 0 && Step(s, d).code != More && Step(AfterCalls(s, calls), d).code != More
    ensures var once, again := StampAfter(Step(s, d), h.csid), StampAfter(Step(AfterCalls(s, calls), d), h.csid);
            again == (once + added) % 0x1_0000_0000 && (again == once <==> added % 0x1_0000_0000 == 0)
  {
    hide ReadHeader, Step, StampOf, StampAfter, AfterCalls, InVain, AddsTo;
    CallsAdd(s, h, calls);
    OnceStamp(s, d);
    OnceStamp(AfterCalls(s, calls), d);
    SameRemainder(StampOf(s, h), added);
  }

  /** An AAC frame of two bytes, 5 milliseconds behind the last, cut behind its header: its
      stamp is 10 milliseconds behind instead. */
  lemma CutFrame(s: State)
    requires Valid(s) && s.streams[4].left == 0 && s.ctl.maxChunk >= 2
    ensures var header, frame := [0x44, 0, 0, 5, 0, 0, 2, 8], [0xAF, 1];
            && Step(s, header).code == More
            && StampAfter(Step(s, header + frame), 4) == Add32(5, s.lastAudio)
            && StampAfter(Step(Step(s, header).st, header + frame), 4) == Add32(10, s.lastAudio) != Add32(5, s.lastAudio)
  {
    hide StampAfter, Handle, Prepare, StampOf, Complete, CopyHeader;
    var header, frame := [0x44, 0, 0, 5, 0, 0, 2, 8], [0xAF, 1];
    var h := Header(1, 4, 7, 5, 2, 8, 0);
    assert ReadHeader(header) == Whole(h) && ReadHeader(header + frame) == Whole(h);
    StepIsComplete(s, header);
    PrepareKeeps(s, header, 4);
    PrepareKeeps(s, header + frame, 4);
    PrepareKeeps(Prepare(s, header), header + frame, 4);
    TakesFrame(s, header + frame, h);
    TakesFrame(Prepare(s, header), header + frame, h);
    PreparedAgain(s, header);
    OnceStamp(s, header + frame);
    OnceStamp(Prepare(s, header), header + frame);
    FrameStamp(s, h);
  }

  lemma TakesFrame(s: State, d: seq<byte>, h: Header)
    requires Valid(s) && ReadHeader(d) == Whole(h) && h == Header(1, 4, 7, 5, 2, 8, 0) && |d| == 10
    requires s.streams[4].left == 0 && s.ctl.maxChunk >= 2
    ensures Step(s, d).code != More
  {
    hide Prepare, StampOf, Complete, ReadHeader;
    StepIsComplete(s, d);
    PrepareKeeps(s, d, 4);
    CompleteProgress(Prepare(s, d), h, StampOf(s, h), d);
  }

  lemma FrameStamp(s: State, h: Header)
    requires h == Header(1, 4, 7, 5, 2, 8, 0)
    ensures StampOf(s, h) == Add32(5, s.lastAudio)
    ensures Add32(5, StampOf(s, h)) == Add32(10, s.lastAudio) != Add32(5, s.lastAudio)
  {
  }

  lemma OnceStamp(s: State, d: seq<byte>)
    requires Valid(s) && ReadHeader(d).Whole? && s.streams[ReadHeader(d).h.csid].left == 0 && Step(s, d).code != More
    ensures var h := ReadHeader(d).h; StampAfter(Step(s, d), h.csid) == StampOf(s, h)
  {
    hide ReadHeader, Prepare, Step, StampOf, Complete;
    var h, p := ReadHeader(d).h, Prepare(s, d);
    StepIsComplete(s, d);
    PrepareKeeps(s, d, h.csid);
    CompleteStamp(p, h, StampOf(s, h), d);
  }

  // ---------- whole runs ----------

  /** The clock while the header of actions[pos] has been parsed in vain k times. */
  function Pending(was: u32, actions: seq<Action>, pos: nat, k: nat, mtype: byte): u32
    requires pos <= |actions|
  {
    if k == 0 || pos == |actions| || !Starts(actions[pos], mtype) then was
    else if actions[pos].m.fmt == 1 then (was + k * actions[pos].m.stamp) % 0x1_0000_0000
    else actions[pos].m.stamp
  }

  /** The action at j has started m, and this is its stamp after retries. */
  predicate StartedAt(s0: State, actions: seq<Action>, ks: seq<nat>, j: nat, m: OutMessage, stamp: u32) {
    j < |actions| == |ks| && actions[j] == Start(m) && stamp == RetryStamp(s0, actions, ks, j)
  }

  /** Before actions[pos] is complete: both clocks have seen every message of their kind,
      with its retries, and every message in flight has the time it was started at. */
  ghost predicate Clocked(s0: State, actions: seq<Action>, ks: seq<nat>, pos: nat, snd: Sender, begun: seq<nat>,
                          s: State, k: nat)
    requires pos <= |actions| == |ks| && |begun| == MAX_CHUNK_ID && |snd.streams| == MAX_CHUNK_ID && Valid(s)
  {
    && ClocksAre(s, Pending(RetryClock(s0.lastAudio, actions, ks, pos, 8), actions, pos, k, 8),
                 Pending(RetryClock(s0.lastVideo, actions, ks, pos, 9), actions, pos, k, 9))
    && forall i :: 0 <= i < MAX_CHUNK_ID && snd.streams[i].Sending? ==>
         StartedAt(s0, actions, ks, begun[i], snd.streams[i].m, s.streams[i].timeStamp)
  }

  /** One more call in vain. */
  lemma PendingAgain(was: u32, actions: seq<Action>, pos: nat, k: nat, mtype: byte)
    requires pos < |actions| && Starts(actions[pos], mtype)
    ensures Pending(was, actions, pos, k + 1, mtype) == Next(Pending(was, actions, pos, k, mtype), actions[pos].m)
  {
    hide Add32;
    if actions[pos].m.fmt == 1 {
      OnceMore(was, k, actions[pos].m.stamp);
    }
  }

  lemma OnceMore(was: u32, k: nat, d: u32)
    ensures var now := if k == 0 then was else (was + k * d) % 0x1_0000_0000;
            && (was + (k + 1) * d) % 0x1_0000_0000 == Add32(d, now)
            && (was + (d + k * d)) % 0x1_0000_0000 == Add32(d, now)
  {
    var more := k * d;
    assert (k + 1) * d == more + d;
    SumAgain(was, more, d);
    if k == 0 {
      assert more == 0;
    }
  }

  lemma SumAgain(was: u32, more: nat, d: u32)
    ensures (was + (more + d)) % 0x1_0000_0000 == Add32(d, (was + more) % 0x1_0000_0000)
  {
    AddMod(was + more, d, 0);
  }

  /** The call that sees the whole chunk. */
  lemma PendingDone(before: u32, actions: seq<Action>, ks: seq<nat>, pos: nat, mtype: byte)
    requires pos < |actions| == |ks|
    ensures var was := RetryClock(before, actions, ks, pos, mtype);
            RetryClock(before, actions, ks, pos + 1, mtype) ==
            if Starts(actions[pos], mtype) then Next(Pending(was, actions, pos, ks[pos], mtype), actions[pos].m) else was
  {
    hide RetryClock, Add32;
    var was := RetryClock(before, actions, ks, pos, mtype);
    RetryClockStep(before, actions, ks, pos, mtype);
    if Starts(actions[pos], mtype) && actions[pos].m.fmt == 1 {
      OnceMore(was, ks[pos], actions[pos].m.stamp);
    }
  }

  lemma RetryClockStep(before: u32, actions: seq<Action>, ks: seq<nat>, pos: nat, mtype: byte)
    requires pos < |actions| == |ks|
    ensures RetryClock(before, actions, ks, pos + 1, mtype) ==
            RetryNext(actions[pos], RetryClock(before, actions, ks, pos, mtype), ks[pos], mtype)
  {
  }

  lemma NotPending(was: u32, actions: seq<Action>, pos: nat, k: nat, mtype: byte)
    requires pos <= |actions| && (k == 0 || pos == |actions| || !Starts(actions[pos], mtype))
    ensures Pending(was, actions, pos, k, mtype) == was
  {
  }

  /** A complete chunk: the message it starts or continues has the stamp of its start, and
      the clocks are right again behind it. */
  ghost predicate Ticked(s0: State, actions: seq<Action>, ks: seq<nat>, pos: nat, begun: seq<nat>, e: Emitted, q: StepResult)
    requires pos < |actions| == |ks| && |begun| == MAX_CHUNK_ID && SenderOk(e.next) && Valid(q.st)
  {
    var now, csid := Begin(begun, actions[pos], pos), ChunkStreamOf(actions[pos]);
    && csid < MAX_CHUNK_ID
    && (e.done != [] ==> StartedAt(s0, actions, ks, now[csid], e.done[0], StampAfter(q, csid)))
    && (q.code == Done ==> Clocked(s0, actions, ks, pos + 1, e.next, now, q.st, 0))
  }

  lemma StartTicked(s0: State, actions: seq<Action>, ks: seq<nat>, pos: nat, snd: Sender, begun: seq<nat>, s: State,
                    rest: seq<byte>)
    requires pos < |actions| == |ks| && |begun| == MAX_CHUNK_ID && Mirrors(snd, s) && Allowed(snd, actions[pos])
    requires Clocked(s0, actions, ks, pos, snd, begun, s, ks[pos]) && actions[pos].Start?
    ensures var e := Emit(snd, actions[pos]); Ticked(s0, actions, ks, pos, begun, e, Step(s, e.bytes + rest))
  {
    hide Step, Emit, RetryClock, Pending, Next, MirrorsStream;
    var m := actions[pos].m;
    ClocksDone(s0, actions, ks, pos);
    EmitOne(snd, actions[pos]);
    StartTick(snd, s, m, rest);
    StartStep(snd, s, m, rest);
    assert StartedAt(s0, actions, ks, pos, m, StampFor(s, m));
  }

  /** Both clocks over a complete chunk. */
  lemma ClocksDone(s0: State, actions: seq<Action>, ks: seq<nat>, pos: nat)
    requires pos < |actions| == |ks|
    ensures var was, a := RetryClock(s0.lastAudio, actions, ks, pos, 8), actions[pos];
            && RetryClock(s0.lastAudio, actions, ks, pos + 1, 8) ==
               (if Starts(a, 8) then Next(Pending(was, actions, pos, ks[pos], 8), a.m) else was)
            && (!Starts(a, 8) ==> Pending(was, actions, pos, ks[pos], 8) == was)
    ensures var was, a := RetryClock(s0.lastVideo, actions, ks, pos, 9), actions[pos];
            && RetryClock(s0.lastVideo, actions, ks, pos + 1, 9) ==
               (if Starts(a, 9) then Next(Pending(was, actions, pos, ks[pos], 9), a.m) else was)
            && (!Starts(a, 9) ==> Pending(was, actions, pos, ks[pos], 9) == was)
    ensures Pending(RetryClock(s0.lastAudio, actions, ks, pos + 1, 8), actions, pos + 1, 0, 8) ==
            RetryClock(s0.lastAudio, actions, ks, pos + 1, 8)
    ensures Pending(RetryClock(s0.lastVideo, actions, ks, pos + 1, 9), actions, pos + 1, 0, 9) ==
            RetryClock(s0.lastVideo, actions, ks, pos + 1, 9)
  {
    hide RetryClock, Next;
    PendingDone(s0.lastAudio, actions, ks, pos, 8);
    PendingDone(s0.lastVideo, actions, ks, pos, 9);
  }

  lemma GoTicked(s0: State, actions: seq<Action>, ks: seq<nat>, pos: nat, snd: Sender, begun: seq<nat>, s: State,
                 rest: seq<byte>)
    requires pos < |actions| == |ks| && |begun| == MAX_CHUNK_ID && Mirrors(snd, s) && Allowed(snd, actions[pos])
    requires Clocked(s0, actions, ks, pos, snd, begun, s, ks[pos]) && actions[pos].Go?
    ensures var e := Emit(snd, actions[pos]); Ticked(s0, actions, ks, pos, begun, e, Step(s, e.bytes + rest))
  {
    hide Step, Emit, RetryClock, Pending, Next, MirrorsStream;
    ClocksDone(s0, actions, ks, pos);
    EmitOne(snd, actions[pos]);
    GoTick(snd, s, actions[pos].csid, rest);
    GoStep(snd, s, actions[pos].csid, rest);
  }

  /** A call that sees the header but not the chunk: one more retry. */
  lemma Missed(s0: State, actions: seq<Action>, ks: seq<nat>, pos: nat, snd: Sender, begun: seq<nat>, s: State, k: nat,
               buf: seq<byte>)
    requires pos < |actions| == |ks| && |begun| == MAX_CHUNK_ID && Mirrors(snd, s) && Allowed(snd, actions[pos])
    requires Clocked(s0, actions, ks, pos, snd, begun, s, k) && buf < Emit(snd, actions[pos]).bytes
    ensures var p := Prepare(s, buf);
            && Mirrors(snd, p)
            && Clocked(s0, actions, ks, pos, snd, begun, p, if |buf| >= HeaderBytes(actions[pos]) then k + 1 else k)
  {
    hide Prepare, Emit, RetryClock, Pending, Next, Mirrors, FirstHeader;
    MirrorsValid(snd, s);
    var a := actions[pos];
    var audio, video := RetryClock(s0.lastAudio, actions, ks, pos, 8), RetryClock(s0.lastVideo, actions, ks, pos, 9);
    if a.Start? {
      PartOfStart(snd, s, a.m, buf);
      PendingKinds(audio, video, actions, pos, k);
    } else {
      PartOfGo(snd, s, a.csid, buf);
      PendingKinds(audio, video, actions, pos, k);
    }
  }

  lemma PendingKinds(audio: u32, video: u32, actions: seq<Action>, pos: nat, k: nat)
    requires pos < |actions|
    ensures Pending(audio, actions, pos, k + 1, 8) ==
            if Starts(actions[pos], 8) then Next(Pending(audio, actions, pos, k, 8), actions[pos].m)
            else Pending(audio, actions, pos, k, 8)
    ensures Pending(video, actions, pos, k + 1, 9) ==
            if Starts(actions[pos], 9) then Next(Pending(video, actions, pos, k, 9), actions[pos].m)
            else Pending(video, actions, pos, k, 9)
  {
    if Starts(actions[pos], 8) {
      hide Pending, Next;
      PendingAgain(audio, actions, pos, k, 8);
      NotPending(video, actions, pos, k, 9);
      NotPending(video, actions, pos, k + 1, 9);
    } else if Starts(actions[pos], 9) {
      hide Pending, Next;
      PendingAgain(video, actions, pos, k, 9);
      NotPending(audio, actions, pos, k, 8);
      NotPending(audio, actions, pos, k + 1, 8);
    }
  }

  /** Every delivered message has the time of its start, retries included. */
  ghost predicate Stamped(s0: State, actions: seq<Action>, ks: seq<nat>, origins: seq<nat>, log: seq<Message>,
                          done: seq<OutMessage>)
  {
    && |log| <= |done| == |origins|
    && forall i :: 0 <= i < |log| ==> StartedAt(s0, actions, ks, origins[i], done[i], log[i].timeStamp)
  }

  /** The retries of the actions from pos on, k of them so far for the first. */
  ghost predicate RetriesAre(snd: Sender, actions: seq<Action>, ks: seq<nat>, pos: nat, n: nat, lens: seq<nat>, k: nat)
    requires pos <= |actions| == |ks| && SenderOk(snd) && Schedule(snd, actions[pos..])
  {
    pos < |actions| ==>
      var rest := Retried(snd, actions, pos, n, lens);
      ks[pos] == k + rest[0] && ks[pos + 1..] == rest[1..]
  }

  lemma {:induction false} FlattenFirst(pieces: seq<seq<byte>>)
    requires pieces != []
    ensures Flatten(pieces) == pieces[0] + Flatten(pieces[1..])
    decreases |pieces|
  {
    var front, last := pieces[..|pieces| - 1], pieces[|pieces| - 1];
    if front == [] {
      assert pieces[1..] == [];
    } else {
      FlattenFirst(front);
      assert front[1..] == pieces[1..][..|pieces| - 2];
      Regroup(front[0], Flatten(front[1..]), last);
    }
  }

  /** Nothing comes of nothing. */
  lemma {:induction false} WorkNothing(s: State, pieces: seq<seq<byte>>)
    requires Valid(s) && Flatten(pieces) == []
    ensures Work(s, [], pieces).log == []
    decreases |pieces|
  {
    hide Work;
    WorkStep(s, [], pieces);
    PrepareNothing(s);
    if pieces != [] {
      FlattenFirst(pieces);
      assert [] + pieces[0] == [];
      WorkNothing(s, pieces[1..]);
    }
  }

  /** The bytes at hand hold the next chunk whole, or are a part of it. */
  lemma NextChunk(buf: seq<byte>, more: seq<byte>, chunk: seq<byte>, rest: seq<byte>)
    requires buf + more == chunk + rest
    ensures if |buf| >= |chunk| then buf == chunk + buf[|chunk|..] && buf[|chunk|..] + more == rest else buf < chunk
  {
    var all := buf + more;
    if |buf| >= |chunk| {
      assert buf[..|chunk|] == all[..|chunk|] == chunk;
      assert buf[|chunk|..] + more == all[|chunk|..];
      assert (chunk + rest)[|chunk|..] == rest;
    } else {
      assert buf == all[..|buf|] == chunk[..|buf|];
    }
  }

  /** For every schedule of chunks and however it is cut: every delivered message carries
      the time of its start on the clock of its kind, with every retry added. */
  lemma {:induction false} WorkStamps(s0: State, actions: seq<Action>, ks: seq<nat>, pos: nat, snd: Sender, begun: seq<nat>,
                                      s: State, buf: seq<byte>, pieces: seq<seq<byte>>, later: seq<byte>, k: nat)
    requires pos <= |actions| == |ks| && |begun| == MAX_CHUNK_ID && Mirrors(snd, s) && Schedule(snd, actions[pos..])
    requires buf + (Flatten(pieces) + later) == EmitAll(snd, actions[pos..]).bytes
    requires Clocked(s0, actions, ks, pos, snd, begun, s, k)
    requires RetriesAre(snd, actions, ks, pos, |buf|, Lens(pieces), k)
    ensures Stamped(s0, actions, ks, Origins(snd, begun, actions, pos), Work(s, buf, pieces).log,
                    EmitAll(snd, actions[pos..]).done)
    decreases |actions| - pos + |pieces|
  {
    hide Step, Emit, Work, Clocked, Mirrors, EmitAll, Schedule, Origins, Prepare, Flatten, Stamped, RetriesAre;
    MirrorsValid(snd, s);
    OriginsLength(snd, begun, actions, pos);
    if pos == |actions| {
      assert actions[pos..] == [];
      NothingSent(snd);
      WorkNothing(s, pieces);
      NothingStamped(s0, actions, ks, Origins(snd, begun, actions, pos), []);
    } else {
      NextAction(snd, actions, pos);
      var e := Emit(snd, actions[pos]);
      NextChunk(buf, Flatten(pieces) + later, e.bytes, EmitAll(e.next, actions[pos + 1..]).bytes);
      if |buf| >= |e.bytes| {
        WholeStamped(s0, actions, ks, pos, snd, begun, s, buf, pieces, later, k);
        var now, q := Begin(begun, actions[pos], pos), Step(s, buf);
        if q.code == Done {
          WorkStamps(s0, actions, ks, pos + 1, e.next, now, q.st, buf[|e.bytes|..], pieces, later, 0);
        }
        FirstStamped(s0, actions, ks, pos, snd, begun, s, buf, pieces);
      } else {
        PartIncomplete(snd, s, actions[pos], buf);
        WorkStep(s, buf, pieces);
        if pieces == [] {
          NothingStamped(s0, actions, ks, Origins(snd, begun, actions, pos), EmitAll(snd, actions[pos..]).done);
        } else {
          Missed(s0, actions, ks, pos, snd, begun, s, k, buf);
          RetriesMore(snd, actions, ks, pos, |buf|, pieces, k);
          FlattenFirst(pieces);
          assert buf + pieces[0] + (Flatten(pieces[1..]) + later) == buf + (Flatten(pieces) + later);
          WorkStamps(s0, actions, ks, pos, snd, begun, Prepare(s, buf), buf + pieces[0], pieces[1..], later,
                     if |buf| >= HeaderBytes(actions[pos]) then k + 1 else k);
        }
      }
    }
  }

  lemma NothingStamped(s0: State, actions: seq<Action>, ks: seq<nat>, origins: seq<nat>, done: seq<OutMessage>)
    requires |origins| == |done|
    ensures Stamped(s0, actions, ks, origins, [], done)
  {
  }

  /** The step of the induction over a call that is given more bytes. */
  lemma RetriesMore(snd: Sender, actions: seq<Action>, ks: seq<nat>, pos: nat, n: nat, pieces: seq<seq<byte>>, k: nat)
    requires pos < |actions| == |ks| && SenderOk(snd) && Schedule(snd, actions[pos..]) && Allowed(snd, actions[pos])
    requires pieces != [] && n < |Emit(snd, actions[pos]).bytes| && RetriesAre(snd, actions, ks, pos, n, Lens(pieces), k)
    ensures RetriesAre(snd, actions, ks, pos, n + |pieces[0]|, Lens(pieces[1..]),
                       if n >= HeaderBytes(actions[pos]) then k + 1 else k)
  {
    hide Emit, Schedule, HeaderBytes, SenderOk, Retried;
    RetriedMore(snd, actions, pos, n, Lens(pieces));
    assert Lens(pieces)[0] == |pieces[0]| && Lens(pieces)[1..] == Lens(pieces[1..]);
  }

  /** The step of the induction over a complete chunk. */
  lemma WholeStamped(s0: State, actions: seq<Action>, ks: seq<nat>, pos: nat, snd: Sender, begun: seq<nat>, s: State,
                     buf: seq<byte>, pieces: seq<seq<byte>>, later: seq<byte>, k: nat)
    requires pos < |actions| == |ks| && |begun| == MAX_CHUNK_ID && Mirrors(snd, s) && Schedule(snd, actions[pos..])
    requires Allowed(snd, actions[pos]) && Emit(snd, actions[pos]).bytes <= buf
    requires Clocked(s0, actions, ks, pos, snd, begun, s, k)
    requires RetriesAre(snd, actions, ks, pos, |buf|, Lens(pieces), k)
    ensures var e, q := Emit(snd, actions[pos]), Step(s, buf);
            && Ticked(s0, actions, ks, pos, begun, e, q) && InStep(e, q) && Schedule(e.next, actions[pos + 1..])
            && RetriesAre(e.next, actions, ks, pos + 1, |buf| - |e.bytes|, Lens(pieces), 0)
  {
    hide Step, Emit, Clocked, Mirrors, Schedule, Ticked, InStep, RetriesAre;
    MirrorsValid(snd, s);
    var a := actions[pos];
    var e := Emit(snd, a);
    var tail := buf[|e.bytes|..];
    assert buf == e.bytes + tail;
    NextAction(snd, actions, pos);
    RetriesNext(snd, actions, ks, pos, |buf|, Lens(pieces), k);
    OneAction(snd, s, a, tail);
    if a.Start? {
      StartTicked(s0, actions, ks, pos, snd, begun, s, tail);
    } else {
      GoTicked(s0, actions, ks, pos, snd, begun, s, tail);
    }
  }

  lemma RetriesNext(snd: Sender, actions: seq<Action>, ks: seq<nat>, pos: nat, n: nat, lens: seq<nat>, k: nat)
    requires pos < |actions| == |ks| && SenderOk(snd) && Schedule(snd, actions[pos..]) && Allowed(snd, actions[pos])
    requires n >= |Emit(snd, actions[pos]).bytes| && RetriesAre(snd, actions, ks, pos, n, lens, k)
    requires Schedule(Emit(snd, actions[pos]).next, actions[pos + 1..])
    ensures ks[pos] == k
    ensures RetriesAre(Emit(snd, actions[pos]).next, actions, ks, pos + 1, n - |Emit(snd, actions[pos]).bytes|, lens, 0)
  {
    hide Emit, Schedule, HeaderBytes;
    var e := Emit(snd, actions[pos]);
    var rest := Retried(e.next, actions, pos + 1, n - |e.bytes|, lens);
    assert Retried(snd, actions, pos, n, lens) == [0] + rest;
    assert ([0] + rest)[1..] == rest;
    if pos + 1 < |actions| {
      assert ks[pos + 1..][0] == ks[pos + 1] && ks[pos + 1..][1..] == ks[pos + 2..];
    }
  }

  lemma FirstStamped(s0: State, actions: seq<Action>, ks: seq<nat>, pos: nat, snd: Sender, begun: seq<nat>, s: State,
                     buf: seq<byte>, pieces: seq<seq<byte>>)
    requires pos < |actions| == |ks| && |begun| == MAX_CHUNK_ID && Valid(s) && SenderOk(snd)
    requires Schedule(snd, actions[pos..]) && Allowed(snd, actions[pos]) && Emit(snd, actions[pos]).bytes <= buf
    requires var e, q := Emit(snd, actions[pos]), Step(s, buf);
             && Ticked(s0, actions, ks, pos, begun, e, q) && InStep(e, q) && Schedule(e.next, actions[pos + 1..])
             && (q.code == Done ==>
                   Stamped(s0, actions, ks, Origins(e.next, Begin(begun, actions[pos], pos), actions, pos + 1),
                           Work(q.st, buf[|e.bytes|..], pieces).log, EmitAll(e.next, actions[pos + 1..]).done))
    ensures Stamped(s0, actions, ks, Origins(snd, begun, actions, pos), Work(s, buf, pieces).log,
                    EmitAll(snd, actions[pos..]).done)
  {
    hide Step, Emit, Work, Clocked, Mirrors, EmitAll, Schedule, StartedAt, Carries;
    NextAction(snd, actions, pos);
    WorkStep(s, buf, pieces);
    var e, q, now := Emit(snd, actions[pos]), Step(s, buf), Begin(begun, actions[pos], pos);
    var origins, done := Origins(e.next, now, actions, pos + 1), EmitAll(e.next, actions[pos + 1..]).done;
    OriginsLength(e.next, now, actions, pos + 1);
    EmitOne(snd, actions[pos]);
    if q.code == Done {
      StampedFirst(s0, actions, ks, now[ChunkStreamOf(actions[pos])], origins, q.msgs,
                   Work(q.st, buf[|e.bytes|..], pieces).log, e.done, done);
    } else {
      NothingStamped(s0, actions, ks, origins, done);
      StampedFirst(s0, actions, ks, now[ChunkStreamOf(actions[pos])], origins, q.msgs, [], e.done, done);
      assert q.msgs + [] == q.msgs;
    }
  }

  lemma StampedFirst(s0: State, actions: seq<Action>, ks: seq<nat>, origin: nat, origins: seq<nat>,
                     msgs: seq<Message>, log: seq<Message>, done: seq<OutMessage>, later: seq<OutMessage>)
    requires |msgs| == |done| <= 1 && Stamped(s0, actions, ks, origins, log, later)
    requires done != [] ==> StartedAt(s0, actions, ks, origin, done[0], msgs[0].timeStamp)
    ensures Stamped(s0, actions, ks, (if done == [] then [] else [origin]) + origins, msgs + log, done + later)
  {
    hide StartedAt;
    if done == [] {
      assert msgs + log == log && done + later == later && [] + origins == origins;
    }
  }

  /** The retries of a schedule that arrives in these pieces. */
  function AllRetried(snd: Sender, actions: seq<Action>, pieces: seq<seq<byte>>): (ks: seq<nat>)
    requires SenderOk(snd) && Schedule(snd, actions)
    ensures |ks| == |actions|
  {
    assert actions[0..] == actions;
    Retried(snd, actions, 0, 0, Lens(pieces))
  }

  /** Where these pieces end: for each chunk, how many of them end at or behind the end of
      its header and in front of its own end. */
  function Cuts(snd: Sender, actions: seq<Action>, pieces: seq<seq<byte>>): (ks: seq<nat>)
    requires SenderOk(snd) && Schedule(snd, actions)
    ensures |ks| == |actions|
  {
    assert actions[0..] == actions;
    CutsBehindHeaders(snd, actions, 0, 0, 0, Lens(pieces))
  }

  /** The retries are exactly these. */
  lemma RetriedWhere(snd: Sender, actions: seq<Action>, pieces: seq<seq<byte>>)
    requires SenderOk(snd) && Schedule(snd, actions)
    ensures AllRetried(snd, actions, pieces) == Cuts(snd, actions, pieces)
  {
    hide Retried, CutsBehindHeaders, Schedule;
    assert actions[0..] == actions;
    RetriedAreCuts(snd, actions, 0, 0, 0, Lens(pieces));
  }

  /** The actions that started the completed messages. */
  function AllOrigins(snd: Sender, actions: seq<Action>): seq<nat>
    requires SenderOk(snd) && Schedule(snd, actions)
  {
    assert actions[0..] == actions;
    Origins(snd, seq(MAX_CHUNK_ID, _ => 0), actions, 0)
  }

  /** Every message of a log carries the time of its start, and is late by exactly what
      retries have added to the clock of its kind since the last absolute stamp. */
  ghost predicate Late(s: State, actions: seq<Action>, ks: seq<nat>, origins: seq<nat>, log: seq<Message>,
                       done: seq<OutMessage>)
    requires |ks| == |actions|
  {
    && |log| <= |done| == |origins|
    && forall i :: 0 <= i < |log| ==> LateAt(s, actions, ks, origins[i], done[i], log[i].timeStamp)
  }

  predicate LateAt(s: State, actions: seq<Action>, ks: seq<nat>, j: nat, m: OutMessage, stamp: u32)
    requires |ks| == |actions|
  {
    && j < |actions| && actions[j] == Start(m)
    && stamp == (ExpectedStamp(s, actions, j) + Lateness(actions, ks, j)) % 0x1_0000_0000
    && (stamp == ExpectedStamp(s, actions, j) <==> Lateness(actions, ks, j) % 0x1_0000_0000 == 0)
  }

  /** For every schedule, every way the network cuts it, and everything that has arrived of
      it: the stamp of each delivered audio message is that of the clock of the audio
      messages started so far, of each video message that of the video messages, plus all
      differences that were added again since the last absolute stamp of that kind; it is
      right exactly if these are a multiple of 2^32. */
  lemma FeedStamps(snd: Sender, s: State, actions: seq<Action>, pieces: seq<seq<byte>>, later: seq<byte>)
    requires Mirrors(snd, s) && Schedule(snd, actions) && (forall i :: 0 <= i < MAX_CHUNK_ID ==> snd.streams[i].Idle?)
    requires Flatten(pieces) + later == EmitAll(snd, actions).bytes
    ensures Late(s, actions, AllRetried(snd, actions, pieces), AllOrigins(snd, actions), Feed(s, pieces).log,
                 EmitAll(snd, actions).done)
  {
    hide Origins, Stamped, Work, Feed, EmitAll, Schedule, Mirrors, Retried, Flatten, Late;
    MirrorsValid(snd, s);
    assert actions[0..] == actions;
    var ks, origins := AllRetried(snd, actions, pieces), AllOrigins(snd, actions);
    var begun := seq(MAX_CHUNK_ID, _ => 0);
    FeedIsWork(s, pieces);
    assert [] + (Flatten(pieces) + later) == EmitAll(snd, actions[0..]).bytes;
    FromStart(snd, s, actions, ks, begun, Lens(pieces));
    WorkStamps(s, actions, ks, 0, snd, begun, s, [], pieces, later, 0);
    StampedIsLate(s, actions, ks, origins, Feed(s, pieces).log, EmitAll(snd, actions).done);
  }

  lemma FromStart(snd: Sender, s: State, actions: seq<Action>, ks: seq<nat>, begun: seq<nat>, lens: seq<nat>)
    requires SenderOk(snd) && Valid(s) && |begun| == MAX_CHUNK_ID && |ks| == |actions| && Schedule(snd, actions[0..])
    requires forall i :: 0 <= i < MAX_CHUNK_ID ==> snd.streams[i].Idle?
    requires ks == Retried(snd, actions, 0, 0, lens)
    ensures Clocked(s, actions, ks, 0, snd, begun, s, 0) && RetriesAre(snd, actions, ks, 0, 0, lens, 0)
  {
    hide Retried, Schedule;
  }

  lemma StampedIsLate(s: State, actions: seq<Action>, ks: seq<nat>, origins: seq<nat>, log: seq<Message>,
                      done: seq<OutMessage>)
    requires |ks| == |actions| && Stamped(s, actions, ks, origins, log, done)
    ensures Late(s, actions, ks, origins, log, done)
  {
    hide RetryStamp, ExpectedStamp, Lateness;
    forall i | 0 <= i < |log|
      ensures LateAt(s, actions, ks, origins[i], done[i], log[i].timeStamp)
    {
      assert StartedAt(s, actions, ks, origins[i], done[i], log[i].timeStamp);
      RightExactlyWhen(s, actions, ks, origins[i]);
    }
  }

  // ---------- runs whose cuts do no harm ----------

  /** No piece ends between the end of an audio or video header with a difference and the end
      of its chunk, or the difference is zero, or so many do that it comes around again. */
  predicate Harmless(actions: seq<Action>, ks: seq<nat>)
    requires |ks| == |actions|
  {
    forall j :: 0 <= j < |actions| && (Starts(actions[j], 8) || Starts(actions[j], 9)) && actions[j].m.fmt == 1 ==>
      ks[j] * actions[j].m.stamp % 0x1_0000_0000 == 0
  }

  lemma {:induction false} HarmlessExcess(actions: seq<Action>, ks: seq<nat>, n: nat, mtype: byte)
    requires n <= |actions| == |ks| && Harmless(actions, ks) && (mtype == 8 || mtype == 9)
    ensures Excess(actions, ks, n, mtype) % 0x1_0000_0000 == 0
    decreases n
  {
    if n > 0 {
      HarmlessExcess(actions, ks, n - 1, mtype);
      var late := Excess(actions, ks, n - 1, mtype);
      if Starts(actions[n - 1], mtype) && actions[n - 1].m.fmt == 1 {
        AddMod(late, ks[n - 1] * actions[n - 1].m.stamp, 0);
      }
    }
  }

  /** Then all stamps are right, over any number of receives. */
  lemma HarmlessCuts(snd: Sender, s: State, actions: seq<Action>, pieces: seq<seq<byte>>, later: seq<byte>, i: nat)
    requires Mirrors(snd, s) && Schedule(snd, actions) && (forall i :: 0 <= i < MAX_CHUNK_ID ==> snd.streams[i].Idle?)
    requires Flatten(pieces) + later == EmitAll(snd, actions).bytes
    requires Harmless(actions, Cuts(snd, actions, pieces)) && i < |Feed(s, pieces).log|
    ensures var origins, done := AllOrigins(snd, actions), EmitAll(snd, actions).done;
            && i < |done| == |origins| && origins[i] < |actions| && actions[origins[i]] == Start(done[i])
            && Feed(s, pieces).log[i].timeStamp == ExpectedStamp(s, actions, origins[i])
  {
    hide Mirrors, Schedule, EmitAll, Feed, AllRetried, Cuts, AllOrigins, ExpectedStamp, Excess, Flatten, Harmless;
    MirrorsValid(snd, s);
    FeedStamps(snd, s, actions, pieces, later);
    RetriedWhere(snd, actions, pieces);
    var ks, j := AllRetried(snd, actions, pieces), AllOrigins(snd, actions)[i];
    assert LateAt(s, actions, ks, j, EmitAll(snd, actions).done[i], Feed(s, pieces).log[i].timeStamp);
    HarmlessExcess(actions, ks, j + 1, 8);
    HarmlessExcess(actions, ks, j + 1, 9);
  }

  // ---------- the same for any bytes ----------

  /** Nothing at hand that has been added and will be added again. */
  predicate CleanStop(s: State, pending: seq<byte>) {
    ReadHeader(pending).Whole? && AddsTo(s, ReadHeader(pending).h) ==> ReadHeader(pending).h.stamp == 0
  }

  lemma SamePrepared(s: State, t: State, d: seq<byte>)
    requires Valid(s) && Valid(t) && Prepare(s, d) == Prepare(t, d) && ReadHeader(d) != BadId
    requires ReadHeader(d).Whole? ==> StampOf(s, ReadHeader(d).h) == StampOf(t, ReadHeader(d).h)
    ensures Step(s, d) == Step(t, d)
  {
    hide Prepare, StampOf, Step, ReadHeader, Complete;
    if ReadHeader(d).Whole? {
      StepIsComplete(s, d);
      StepIsComplete(t, d);
    } else {
      StepWithoutHeader(s, d);
      StepWithoutHeader(t, d);
    }
  }

  lemma CleanPrepared(s: State, a: seq<byte>, b: seq<byte>)
    requires Valid(s) && ReadHeader(a) != BadId && CleanStop(Prepare(s, a), a)
    ensures Prepare(Prepare(s, a), a + b) == Prepare(s, a + b)
    ensures ReadHeader(a + b).Whole? ==>
              StampOf(Prepare(s, a), ReadHeader(a + b).h) == StampOf(s, ReadHeader(a + b).h)
  {
    hide ReadHeader, CopyHeader;
    CopyTwice(s.streams, a, b);
    HeaderGrows(a, b);
  }

  /** Then asking again with more bytes is asking once with all of them. */
  lemma CleanRetry(s: State, a: seq<byte>, b: seq<byte>)
    requires Valid(s) && Step(s, a).code == More && CleanStop(Step(s, a).st, a)
    ensures Step(Step(s, a).st, a + b) == Step(s, a + b)
  {
    hide ReadHeader, Step, Prepare, StampOf, CleanStop;
    StepProgress(s, a);
    if a == [] {
      PrepareNothing(s);
    } else {
      if ReadHeader(a) == BadId {
        StepWithoutHeader(s, a);
      }
      HeaderGrows(a, b);
      CleanPrepared(s, a, b);
      SamePrepared(Prepare(s, a), s, a + b);
    }
  }

  lemma {:induction false} CleanGrows(s: State, a: seq<byte>, b: seq<byte>)
    requires Valid(s)
    ensures var r, whole := ParseAll(s, a), ParseAll(s, a + b);
            if r.code != More then whole == r
            else CleanStop(r.st, a[r.used..]) ==>
              var rest := ParseAll(r.st, a[r.used..] + b);
              && whole.code == rest.code && whole.st == rest.st && whole.used == r.used + rest.used
              && whole.log == r.log + rest.log
    decreases |a|
  {
    hide Step, CleanStop, ParseAll;
    StepProgress(s, a);
    ParseStep(s, a);
    ParseStep(s, a + b);
    var q := Step(s, a);
    if q.code == More {
      assert a[0..] == a;
      if CleanStop(q.st, a) {
        CleanRetry(s, a, b);
        ParseStep(q.st, a + b);
      }
    } else {
      StepGrows(s, a, b);
      if q.code == Done {
        var tail := a[q.used..];
        CleanGrows(q.st, tail, b);
        assert (a + b)[q.used..] == tail + b;
        var r := ParseAll(q.st, tail);
        assert a[q.used + r.used..] == tail[r.used..];
        var rest := ParseAll(r.st, tail[r.used..] + b);
        assert q.msgs + (r.log + rest.log) == q.msgs + r.log + rest.log;
      }
    }
  }

  /** However any stream is cut: if no cut leaves a difference that has been added already,
      the loop ends in exactly the state of one parse, with exactly the same messages. */
  lemma {:induction false} CleanFeed(s: State, pieces: seq<seq<byte>>)
    requires Valid(s)
    requires forall i :: 0 <= i < |pieces| ==>
               var f := Feed(s, pieces[..i]); f.code == More ==> CleanStop(f.st, f.pending)
    ensures var f, r := Feed(s, pieces), ParseAll(s, Flatten(pieces));
            && f.code == r.code && f.st == r.st && f.log == r.log
            && (f.code == More ==> f.pending == Flatten(pieces)[r.used..])
    decreases |pieces|
  {
    hide ParseAll, CleanStop, Step;
    if pieces == [] {
      ParseStep(s, []);
      StepWithoutHeader(s, []);
      PrepareNothing(s);
    } else {
      var front, last := pieces[..|pieces| - 1], pieces[|pieces| - 1];
      forall i | 0 <= i < |front|
        ensures var f := Feed(s, front[..i]); f.code == More ==> CleanStop(f.st, f.pending)
      {
        assert front[..i] == pieces[..i];
      }
      CleanFeed(s, front);
      var f, d := Feed(s, front), Flatten(front);
      CleanGrows(s, d, last);
      if f.code == More {
        var r := ParseAll(s, d);
        var rest := ParseAll(f.st, f.pending + last);
        assert (f.pending + last)[rest.used..] == (d + last)[r.used + rest.used..];
      }
    }
  }
}
