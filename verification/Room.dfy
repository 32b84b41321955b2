/** When the receive buffer fills up. */
module Room {
  import opened Bytes
  import opened Protocol
  import opened Handlers
  import opened Chunks
  import opened Fragmentation
  import opened Demux
  import opened Timestamps
  import opened Retries

  /** The chunk at the start of d, whose header is there whole, does not fit the buffer. */
  predicate ChunkTooLong(s: State, d: seq<byte>)
    requires Valid(s)
  {
    && ReadHeader(d).Whole?
    && var h := ReadHeader(d).h; 1 + h.len + ChunkLen(s.streams[h.csid], h, s.ctl.maxChunk) > MAX_BUF_LEN
  }

  lemma SameLength(s: State, d: seq<byte>)
    requires Valid(s)
    ensures ChunkTooLong(Prepare(s, d), d) <==> ChunkTooLong(s, d)
  {
    hide ReadHeader, Prepare;
    if ReadHeader(d).Whole? {
      PrepareKeeps(s, d, ReadHeader(d).h.csid);
    }
  }

  /** A full buffer is not enough exactly if the chunk it starts with does not fit it. */
  lemma StuckExactlyWhen(s: State, d: seq<byte>)
    requires Valid(s) && |d| == MAX_BUF_LEN
    ensures Step(s, d).code == More <==> ChunkTooLong(s, d)
  {
    hide Prepare, Complete, StampOf, Step, ReadHeader;
    HeaderIsShort(d);
    if ReadHeader(d).Whole? {
      StepIsComplete(s, d);
      var p, h := Prepare(s, d), ReadHeader(d).h;
      PrepareKeeps(s, d, h.csid);
      if IsComplete(p, h, d) {
        CompleteProgress(p, h, StampOf(s, h), d);
      }
    } else {
      StepWithoutHeader(s, d);
    }
  }

  lemma HeaderIsShort(d: seq<byte>)
    ensures |d| >= 16 ==> ReadHeader(d) != Short
    ensures ReadHeader(d).Whole? ==> 1 + ReadHeader(d).h.len <= 16
  {
  }

  /** The loop fills the buffer only with a chunk that does not fit it. */
  lemma {:induction false} FullIsTooLong(s: State, pieces: seq<seq<byte>>)
    requires Valid(s) && Feed(s, pieces).code == More && |Feed(s, pieces).pending| >= MAX_BUF_LEN
    ensures ChunkTooLong(Feed(s, pieces).st, Feed(s, pieces).pending)
    decreases |pieces|
  {
    if pieces != [] {
      hide ParseAll, ChunkTooLong;
      var f := Feed(s, pieces[..|pieces| - 1]);
      RestTooLong(f.st, f.pending + pieces[|pieces| - 1]);
    }
  }

  lemma {:induction false} RestTooLong(s: State, d: seq<byte>)
    requires Valid(s) && ParseAll(s, d).code == More && |d| - ParseAll(s, d).used >= MAX_BUF_LEN
    ensures ChunkTooLong(ParseAll(s, d).st, d[ParseAll(s, d).used..])
    decreases |d|
  {
    hide Step, ChunkTooLong, ParseAll;
    StepProgress(s, d);
    ParseStep(s, d);
    var q := Step(s, d);
    if q.code == Done {
      RestTooLong(q.st, d[q.used..]);
      var r := ParseAll(q.st, d[q.used..]);
      assert d[q.used..][r.used..] == d[q.used + r.used..];
    } else {
      assert d[0..] == d;
      IncompleteTooLong(s, d);
      SameLength(s, d);
    }
  }

  lemma IncompleteTooLong(s: State, d: seq<byte>)
    requires Valid(s) && Step(s, d).code == More && |d| >= MAX_BUF_LEN
    ensures ChunkTooLong(s, d)
  {
    hide Prepare, Complete, StampOf, Step, ReadHeader;
    HeaderIsShort(d);
    if ReadHeader(d).Whole? {
      StepIsComplete(s, d);
      var p, h := Prepare(s, d), ReadHeader(d).h;
      PrepareKeeps(s, d, h.csid);
      if IsComplete(p, h, d) {
        CompleteProgress(p, h, StampOf(s, h), d);
      }
    } else {
      StepWithoutHeader(s, d);
    }
  }

  /** When the header of the next chunk is there and the buffer is then filled up, the parser
      takes nothing out of it, so that no more can be received, exactly if that chunk does
      not fit the buffer. */
  lemma StallsExactlyWhen(s: State, pending: seq<byte>, more: seq<byte>)
    requires Valid(s) && ReadHeader(pending).Whole? && |pending + more| == MAX_BUF_LEN
    ensures var r := ParseAll(s, pending + more); r.code == More && r.used == 0 <==> ChunkTooLong(s, pending)
  {
    hide ReadHeader, Step, ParseAll;
    HeaderGrows(pending, more);
    StuckExactlyWhen(s, pending + more);
    StepProgress(s, pending + more);
    ParseStep(s, pending + more);
  }

  /** Chunk sizes up to 65520 always leave room, so that no cut of the stream can fill the
      buffer with an incomplete chunk. */
  lemma RoomLeft(s: State, pieces: seq<seq<byte>>)
    requires Valid(s) && Feed(s, pieces).code == More && Feed(s, pieces).st.ctl.maxChunk <= 65520
    ensures |Feed(s, pieces).pending| < MAX_BUF_LEN
  {
    hide Feed, ReadHeader;
    if |Feed(s, pieces).pending| >= MAX_BUF_LEN {
      FullIsTooLong(s, pieces);
      HeaderIsShort(Feed(s, pieces).pending);
    }
  }

  // ---------- schedules of chunks that fit ----------

  /** No chunk of the schedule is longer than the buffer, whatever sizes are announced. */
  predicate ChunksFit(snd: Sender, actions: seq<Action>)
    requires SenderOk(snd) && Schedule(snd, actions)
    decreases |actions|
  {
    actions == [] ||
    (|Emit(snd, actions[0]).bytes| <= MAX_BUF_LEN && ChunksFit(Emit(snd, actions[0]).next, actions[1..]))
  }

  /** The loop over such a schedule, call by call, never fills the buffer. */
  lemma {:induction false} WorkFits(snd: Sender, s: State, actions: seq<Action>, buf: seq<byte>, pieces: seq<seq<byte>>,
                                    later: seq<byte>)
    requires Mirrors(snd, s) && Schedule(snd, actions) && ChunksFit(snd, actions)
    requires buf + (Flatten(pieces) + later) == EmitAll(snd, actions).bytes
    ensures Work(s, buf, pieces).code == More ==> |Work(s, buf, pieces).pending| < MAX_BUF_LEN
    decreases |actions| + |pieces|
  {
    hide Step, Emit, Work, Mirrors, Flatten, Prepare, InStep;
    MirrorsValid(snd, s);
    WorkStep(s, buf, pieces);
    if actions == [] {
      NothingPending(s, pieces);
    } else {
      var e := Emit(snd, actions[0]);
      NextChunk(buf, Flatten(pieces) + later, e.bytes, EmitAll(e.next, actions[1..]).bytes);
      if |buf| >= |e.bytes| {
        var tail := buf[|e.bytes|..];
        OneAction(snd, s, actions[0], tail);
        InStepMeans(e, Step(s, buf));
        if Step(s, buf).code == Done {
          WorkFits(e.next, Step(s, buf).st, actions[1..], tail, pieces, later);
        }
      } else {
        PartIncomplete(snd, s, actions[0], buf);
        if pieces != [] {
          PartMirrors(snd, s, actions[0], buf);
          FlattenFirst(pieces);
          assert buf + pieces[0] + (Flatten(pieces[1..]) + later) == buf + (Flatten(pieces) + later);
          WorkFits(snd, Prepare(s, buf), actions, buf + pieces[0], pieces[1..], later);
        }
      }
    }
  }

  lemma InStepMeans(e: Emitted, q: StepResult)
    requires InStep(e, q)
    ensures q.used == |e.bytes| && q.code != More && (q.code == Done ==> Mirrors(e.next, q.st))
  {
  }

  lemma PartMirrors(snd: Sender, s: State, a: Action, buf: seq<byte>)
    requires Mirrors(snd, s) && Allowed(snd, a) && buf < Emit(snd, a).bytes
    ensures Mirrors(snd, Prepare(s, buf))
  {
    hide Emit, Mirrors, Prepare, FirstHeader;
    match a {
      case Start(m) => PartOfStart(snd, s, m, buf);
      case Go(csid) => PartOfGo(snd, s, csid, buf);
    }
  }

  lemma {:induction false} NothingPending(s: State, pieces: seq<seq<byte>>)
    requires Valid(s) && Flatten(pieces) == []
    ensures Work(s, [], pieces).pending == []
    decreases |pieces|
  {
    hide Work;
    WorkStep(s, [], pieces);
    PrepareNothing(s);
    if pieces != [] {
      FlattenFirst(pieces);
      assert [] + pieces[0] == [];
      NothingPending(s, pieces[1..]);
    }
  }

  /** So no cut of it stalls the client. */
  lemma FittingChunksLeaveRoom(snd: Sender, s: State, actions: seq<Action>, pieces: seq<seq<byte>>, later: seq<byte>)
    requires Mirrors(snd, s) && Schedule(snd, actions) && ChunksFit(snd, actions)
    requires Flatten(pieces) + later == EmitAll(snd, actions).bytes
    ensures Feed(s, pieces).code == More ==> |Feed(s, pieces).pending| < MAX_BUF_LEN
  {
    hide Work, Feed, Mirrors, Schedule, EmitAll, ChunksFit;
    MirrorsValid(snd, s);
    FeedIsWork(s, pieces);
    assert [] + (Flatten(pieces) + later) == EmitAll(snd, actions).bytes;
    WorkFits(snd, s, actions, [], pieces, later);
  }
}
