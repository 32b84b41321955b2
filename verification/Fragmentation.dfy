/** However the stream is cut, the same messages come out. */
module Fragmentation {
  import opened Bytes
  import opened Protocol
  import opened Handlers
  import opened Chunks

  // ---------- equality up to relative time stamps ----------

  predicate AlikeStream(s: StreamRecord, t: StreamRecord) {
    && s == t.(timeStamp := s.timeStamp)
    && (s.absolute ==> s.timeStamp == t.timeStamp)
  }

  /** States that differ at most in relative time stamps. */
  ghost predicate Alike(s: State, t: State)
    requires Valid(s) && Valid(t)
  {
    && s.ctl == t.ctl
    && forall i :: 0 <= i < MAX_CHUNK_ID ==> AlikeStream(s.streams[i], t.streams[i])
  }

  ghost predicate AlikeLog(a: seq<Message>, b: seq<Message>) {
    |a| == |b| && forall i :: 0 <= i < |a| ==> AlikeMessage(a[i], b[i])
  }

  lemma AlikeTransitive(s: State, t: State, u: State)
    requires Valid(s) && Valid(t) && Valid(u) && Alike(s, t) && Alike(t, u)
    ensures Alike(s, u)
  {
    forall i | 0 <= i < MAX_CHUNK_ID
      ensures AlikeStream(s.streams[i], u.streams[i])
    {
      assert AlikeStream(s.streams[i], t.streams[i]) && AlikeStream(t.streams[i], u.streams[i]);
    }
  }

  lemma AlikeLogTransitive(a: seq<Message>, b: seq<Message>, c: seq<Message>)
    requires AlikeLog(a, b) && AlikeLog(b, c)
    ensures AlikeLog(a, c)
  {
    forall i | 0 <= i < |a|
      ensures AlikeMessage(a[i], c[i])
    {
      assert AlikeMessage(a[i], b[i]) && AlikeMessage(b[i], c[i]);
    }
  }

  lemma AlikeLogAppend(a: seq<Message>, b: seq<Message>, c: seq<Message>, d: seq<Message>)
    requires AlikeLog(a, b) && AlikeLog(c, d)
    ensures AlikeLog(a + c, b + d)
  {
  }

  /** Results of a call that differ at most in relative time stamps. */
  ghost predicate AlikeStep(r: StepResult, q: StepResult)
    requires Valid(r.st) && Valid(q.st)
  {
    r.code == q.code && r.used == q.used && Alike(r.st, q.st) && AlikeLog(r.msgs, q.msgs)
  }

  ghost predicate AlikeRun(r: Run, q: Run)
    requires Valid(r.st) && Valid(q.st)
  {
    r.code == q.code && r.used == q.used && Alike(r.st, q.st) && AlikeLog(r.log, q.log)
  }

  // ---------- alike states stay alike ----------

  lemma AlikePrepare(s: State, t: State, d: seq<byte>)
    requires Valid(s) && Valid(t) && Alike(s, t)
    ensures Alike(Prepare(s, d), Prepare(t, d))
  {
    forall i | 0 <= i < MAX_CHUNK_ID
      ensures AlikeStream(Prepare(s, d).streams[i], Prepare(t, d).streams[i])
    {
      assert AlikeStream(s.streams[i], t.streams[i]);
    }
  }

  ghost predicate Gatherable(s: StreamRecord, piece: seq<byte>) {
    |s.noted| == 12 && s.size < 0x100_0000 && |s.got| + s.left == s.size && |piece| <= s.left
  }

  lemma AlikeGather(s: StreamRecord, t: StreamRecord, csid: nat, piece: seq<byte>)
    requires AlikeStream(s, t) && Gatherable(s, piece) && Gatherable(t, piece)
    ensures var a, b := Gather(s, csid, piece), Gather(t, csid, piece);
            AlikeStream(a.0, b.0) && AlikeLog(a.1, b.1)
  {
  }

  lemma AlikeDeliver(s: State, t: State, used: nat, a: seq<Message>, b: seq<Message>)
    requires Valid(s) && Valid(t) && Alike(s, t) && AlikeLog(a, b) && |a| <= 1
    requires (forall m :: m in a ==> WellSized(m)) && (forall m :: m in b ==> WellSized(m))
    ensures AlikeStep(Deliver(s, used, a), Deliver(t, used, b))
  {
    hide Handle;
    if a != [] {
      assert AlikeMessage(a[0], b[0]);
      HandleIgnoresStamp(s.ctl, a[0], b[0]);
    }
  }

  lemma AlikeComplete(p: State, q: State, h: Header, a: u32, b: u32, d: seq<byte>)
    requires Valid(p) && Valid(q) && Alike(p, q) && h.csid < MAX_CHUNK_ID && h.size < 0x100_0000
    requires IsComplete(p, h, d) && (h.fmt == 0 ==> a == b)
    ensures IsComplete(q, h, d)
    ensures AlikeStep(Complete(p, h, a, d), Complete(q, h, b, d))
  {
    hide Gather, Deliver;
    var s, t := p.streams[h.csid], q.streams[h.csid];
    assert AlikeStream(s, t);
    var n := ChunkLen(s, h, p.ctl.maxChunk);
    var piece := d[1 + h.len..1 + h.len + n];
    var x := if s.left == 0 then Opened(s, h, a) else s;
    var y := if t.left == 0 then Opened(t, h, b) else t;
    AlikeGather(x, y, h.csid, piece);
    var gx, gy := Gather(x, h.csid, piece), Gather(y, h.csid, piece);
    AlikeUpdate(p, q, h.csid, gx.0, gy.0);
    AlikeDeliver(p.(streams := p.streams[h.csid := gx.0]), q.(streams := q.streams[h.csid := gy.0]),
                 1 + h.len + n, gx.1, gy.1);
  }

  lemma AlikeUpdate(p: State, q: State, csid: nat, s: Stream, t: Stream)
    requires Valid(p) && Valid(q) && Alike(p, q) && csid < MAX_CHUNK_ID && AlikeStream(s, t)
    ensures Alike(p.(streams := p.streams[csid := s]), q.(streams := q.streams[csid := t]))
  {
    var u, v := p.(streams := p.streams[csid := s]), q.(streams := q.streams[csid := t]);
    forall i | 0 <= i < MAX_CHUNK_ID
      ensures AlikeStream(u.streams[i], v.streams[i])
    {
      assert AlikeStream(p.streams[i], q.streams[i]);
    }
  }

  lemma AbsoluteStamp(s: State, t: State, h: Header)
    ensures h.fmt == 0 ==> StampOf(s, h) == StampOf(t, h) == h.stamp
  {
  }

  /** A call depends on its state only through what Prepare makes of it. */
  lemma AlikePrepared(s: State, t: State, d: seq<byte>)
    requires Valid(s) && Valid(t) && Alike(Prepare(s, d), Prepare(t, d)) && ReadHeader(d) != BadId
    ensures AlikeStep(Step(s, d), Step(t, d))
  {
    hide Prepare, StampOf, Step;
    if ReadHeader(d).Whole? {
      StepIsComplete(s, d);
      StepIsComplete(t, d);
      var h := ReadHeader(d).h;
      var p, q := Prepare(s, d), Prepare(t, d);
      assert AlikeStream(p.streams[h.csid], q.streams[h.csid]);
      AbsoluteStamp(s, t, h);
      if IsComplete(p, h, d) {
        AlikeComplete(p, q, h, StampOf(s, h), StampOf(t, h), d);
      }
    } else {
      StepWithoutHeader(s, d);
      StepWithoutHeader(t, d);
    }
  }

  lemma AlikeStates(s: State, t: State, d: seq<byte>)
    requires Valid(s) && Valid(t) && Alike(s, t)
    ensures AlikeStep(Step(s, d), Step(t, d))
  {
    hide Prepare, Step;
    if ReadHeader(d) == BadId {
      StepWithoutHeader(s, d);
      StepWithoutHeader(t, d);
    } else {
      AlikePrepare(s, t, d);
      AlikePrepared(s, t, d);
    }
  }

  // ---------- more bytes behind the same bytes ----------

  lemma HeaderGrows(a: seq<byte>, b: seq<byte>)
    ensures ReadHeader(a) != Short ==> ReadHeader(a + b) == ReadHeader(a)
    ensures a != [] && ReadHeader(a) == Short ==> ReadHeader(a + b) != BadId
    ensures CopiesHeader(a) ==> CopiesHeader(a + b)
    ensures ReadHeader(a) != Short && !CopiesHeader(a) ==> !CopiesHeader(a + b)
  {
    if a != [] {
      assert (a + b)[0] == a[0];
    }
  }

  lemma CopyGrows(streams: seq<Stream>, a: seq<byte>, b: seq<byte>)
    requires |streams| == MAX_CHUNK_ID && CopiesHeader(a)
    ensures CopyHeader(streams, a + b) == CopyHeader(streams, a)
  {
    var n := HeaderLen(a[0] / 64);
    assert (a + b)[1..n + 1] == a[1..n + 1];
  }

  /** Copying a header again has no further effect. */
  lemma CopyTwice(streams: seq<Stream>, a: seq<byte>, b: seq<byte>)
    requires |streams| == MAX_CHUNK_ID
    ensures CopyHeader(CopyHeader(streams, a), a + b) == CopyHeader(streams, a + b)
  {
    if CopiesHeader(a) {
      HeaderGrows(a, b);
      CopyGrows(streams, a, b);
      CopyGrows(CopyHeader(streams, a), a, b);
      CopyAgain(streams, a);
    }
  }

  lemma CopyAgain(streams: seq<Stream>, a: seq<byte>)
    requires |streams| == MAX_CHUNK_ID
    ensures CopyHeader(CopyHeader(streams, a), a) == CopyHeader(streams, a)
  {
    if CopiesHeader(a) {
      var csid, n := a[0] % 64, HeaderLen(a[0] / 64);
      var once := CopyHeader(streams, a)[csid];
      assert once.noted[n..] == streams[csid].noted[n..];
    }
  }

  lemma PrepareGrows(s: State, a: seq<byte>, b: seq<byte>)
    requires Valid(s) && ReadHeader(a) != Short
    ensures Prepare(s, a + b) == Prepare(s, a)
  {
    hide ReadHeader, StampOf, CopyHeader, CopiesHeader;
    HeaderGrows(a, b);
    if CopiesHeader(a) {
      CopyGrows(s.streams, a, b);
    } else {
      NothingCopied(s.streams, a);
      NothingCopied(s.streams, a + b);
    }
  }

  /** A call that does not ask for more does not look further either. */
  lemma StepGrows(s: State, a: seq<byte>, b: seq<byte>)
    requires Valid(s) && Step(s, a).code != More
    ensures Step(s, a + b) == Step(s, a)
  {
    hide ReadHeader, Prepare, Step;
    HeaderGrows(a, b);
    if ReadHeader(a).Whole? {
      StepIsComplete(s, a);
      StepIsComplete(s, a + b);
      PrepareGrows(s, a, b);
      var h, p := ReadHeader(a).h, Prepare(s, a);
      CompleteGrows(p, h, StampOf(s, h), a, b);
    } else {
      StepWithoutHeader(s, a);
      StepWithoutHeader(s, a + b);
    }
  }

  lemma CompleteGrows(p: State, h: Header, stamp: u32, a: seq<byte>, b: seq<byte>)
    requires Valid(p) && h.csid < MAX_CHUNK_ID && h.size < 0x100_0000 && IsComplete(p, h, a)
    ensures Complete(p, h, stamp, a + b) == Complete(p, h, stamp, a)
  {
    hide Gather, Deliver, ChunkLen;
    var n := ChunkLen(p.streams[h.csid], h, p.ctl.maxChunk);
    assert (a + b)[1 + h.len..1 + h.len + n] == a[1 + h.len..1 + h.len + n];
  }

  /** Asking again with more bytes is as good as asking once with all of them. */
  lemma StepRetry(s: State, a: seq<byte>, b: seq<byte>)
    requires Valid(s) && Step(s, a).code == More
    ensures AlikeStep(Step(Step(s, a).st, a + b), Step(s, a + b))
  {
    hide Prepare, Step;
    StepProgress(s, a);
    var t := Prepare(s, a);
    PrepareTwice(s, a, b);
    if ReadHeader(a + b) == BadId {
      HeaderGrows(a, b);
      if a == [] {
        PrepareNothing(s);
        AlikeStates(s, s, a + b);
      } else {
        StepWithoutHeader(s, a);
        assert false;
      }
    } else {
      AlikePrepared(t, s, a + b);
    }
  }

  lemma PrepareNothing(s: State)
    requires Valid(s)
    ensures Prepare(s, []) == s
  {
  }

  lemma PrepareTwice(s: State, a: seq<byte>, b: seq<byte>)
    requires Valid(s)
    ensures Alike(Prepare(Prepare(s, a), a + b), Prepare(s, a + b))
  {
    hide CopyHeader, ReadHeader, StampOf;
    CopyTwice(s.streams, a, b);
  }

  // ---------- whole runs ----------

  lemma {:induction false} ParseAlike(s: State, t: State, d: seq<byte>)
    requires Valid(s) && Valid(t) && AlikeStep(Step(s, d), Step(t, d))
    ensures AlikeRun(ParseAll(s, d), ParseAll(t, d))
    decreases |d|
  {
    hide Step;
    StepProgress(s, d);
    var r, q := Step(s, d), Step(t, d);
    if r.code == Done {
      AlikeStates(r.st, q.st, d[r.used..]);
      ParseAlike(r.st, q.st, d[r.used..]);
      AlikeLogAppend(r.msgs, q.msgs, ParseAll(r.st, d[r.used..]).log, ParseAll(q.st, d[q.used..]).log);
    }
  }

  /** Parsing what has arrived and going on later is as good as parsing everything. */
  lemma {:induction false} ParseGrows(s: State, a: seq<byte>, b: seq<byte>)
    requires Valid(s)
    ensures var r := ParseAll(s, a); var whole := ParseAll(s, a + b);
            if r.code == More then
              var rest := ParseAll(r.st, a[r.used..] + b);
              AlikeRun(whole, Run(rest.code, rest.st, r.used + rest.used, r.log + rest.log, [], 0))
            else
              AlikeRun(whole, r)
    decreases |a|
  {
    hide Step;
    StepProgress(s, a);
    var r := Step(s, a);
    if r.code == More {
      StepRetry(s, a, b);
      ParseAlike(r.st, s, a + b);
      AlikeRunSymmetric(ParseAll(r.st, a + b), ParseAll(s, a + b));
      assert a[0..] == a;
    } else {
      StepGrows(s, a, b);
      if r.code == Done {
        ParseGrows(r.st, a[r.used..], b);
        FirstChunk(s, a, b);
      } else {
        AlikeReflexive(r.st);
      }
    }
  }

  lemma AlikeReflexive(s: State)
    requires Valid(s)
    ensures Alike(s, s)
  {
  }

  lemma AlikeRunSymmetric(r: Run, q: Run)
    requires Valid(r.st) && Valid(q.st) && AlikeRun(r, q)
    ensures AlikeRun(q, r)
  {
    forall i | 0 <= i < MAX_CHUNK_ID
      ensures AlikeStream(q.st.streams[i], r.st.streams[i])
    {
      assert AlikeStream(r.st.streams[i], q.st.streams[i]);
    }
    forall i | 0 <= i < |r.log|
      ensures AlikeMessage(q.log[i], r.log[i])
    {
      assert AlikeMessage(r.log[i], q.log[i]);
    }
  }

  /** The step of ParseGrows over a first complete chunk. */
  lemma FirstChunk(s: State, a: seq<byte>, b: seq<byte>)
    requires Valid(s) && Step(s, a).code == Done && Step(s, a + b) == Step(s, a) && 1 <= Step(s, a).used <= |a|
    requires var f := Step(s, a); var tail := a[f.used..];
             var r := ParseAll(f.st, tail); var whole := ParseAll(f.st, tail + b);
             if r.code == More then
               var rest := ParseAll(r.st, tail[r.used..] + b);
               AlikeRun(whole, Run(rest.code, rest.st, r.used + rest.used, r.log + rest.log, [], 0))
             else
               AlikeRun(whole, r)
    ensures var r := ParseAll(s, a); var whole := ParseAll(s, a + b);
            if r.code == More then
              var rest := ParseAll(r.st, a[r.used..] + b);
              AlikeRun(whole, Run(rest.code, rest.st, r.used + rest.used, r.log + rest.log, [], 0))
            else
              AlikeRun(whole, r)
  {
    hide Step, ParseAll, AlikeLog;
    ParseStep(s, a);
    ParseStep(s, a + b);
    var f := Step(s, a);
    var tail := a[f.used..];
    assert (a + b)[f.used..] == tail + b;
    var r, whole := ParseAll(f.st, tail), ParseAll(f.st, tail + b);
    assert a[f.used + r.used..] == tail[r.used..];
    if r.code == More {
      var rest := ParseAll(r.st, tail[r.used..] + b);
      AlikeLogPrepend(f.msgs, whole.log, r.log + rest.log);
      assert f.msgs + (r.log + rest.log) == (f.msgs + r.log) + rest.log;
    } else {
      AlikeLogPrepend(f.msgs, whole.log, r.log);
    }
  }

  lemma AlikeLogPrepend(a: seq<Message>, b: seq<Message>, c: seq<Message>)
    requires AlikeLog(b, c)
    ensures AlikeLog(a + b, a + c)
  {
  }

  // ---------- pieces ----------

  function Flatten(pieces: seq<seq<byte>>): seq<byte> {
    if pieces == [] then [] else Flatten(pieces[..|pieces| - 1]) + pieces[|pieces| - 1]
  }

  datatype Fed = Fed(code: Code, st: State, pending: seq<byte>, log: seq<Message>)

  /** The receive loop: every piece is put behind what is still pending, and as much as
      possible is parsed. */
  function Feed(s: State, pieces: seq<seq<byte>>): (f: Fed)
    requires Valid(s)
    ensures Valid(f.st) && f.code != Done
  {
    if pieces == [] then Fed(More, s, [], [])
    else
      var f := Feed(s, pieces[..|pieces| - 1]);
      if f.code != More then f
      else
        var d := f.pending + pieces[|pieces| - 1];
        var r := ParseAll(f.st, d);
        Fed(r.code, r.st, d[r.used..], f.log + r.log)
  }

  /** What the loop has done to the client and to the world is what the handlers make of
      the messages it has delivered. */
  lemma {:induction false} FeedIsHandled(s: State, pieces: seq<seq<byte>>)
    requires Valid(s)
    ensures var f := Feed(s, pieces);
            && (forall m :: m in f.log ==> WellSized(m))
            && HandleAll(s.ctl, f.log).ctl == f.st.ctl
            && (HandleAll(s.ctl, f.log).code == Done || HandleAll(s.ctl, f.log).code == f.code)
    decreases |pieces|
  {
    if pieces != [] {
      hide ParseAll, HandleAll;
      var f := Feed(s, pieces[..|pieces| - 1]);
      FeedIsHandled(s, pieces[..|pieces| - 1]);
      if f.code == More {
        var d := f.pending + pieces[|pieces| - 1];
        RunIsHandled(f.st, d);
        HandleBothUnlessMore(s.ctl, f.log);
        HandleBoth(s.ctl, f.log, ParseAll(f.st, d).log);
      }
    }
  }

  lemma {:induction false} HandleBothUnlessMore(c: Control, log: seq<Message>)
    requires forall m :: m in log ==> WellSized(m)
    ensures HandleAll(c, log).code != More
    decreases |log|
  {
    hide Handle;
    if log != [] {
      HandleNeverMore(c, log[0]);
      HandleBothUnlessMore(Handle(c, log[0]).ctl, log[1..]);
    }
  }

  /** The loop, too, keeps all messages it delivers, or all but the last. */
  lemma {:induction false} FeedKept(s: State, pieces: seq<seq<byte>>)
    requires Valid(s)
    ensures forall m :: m in Feed(s, pieces).log ==> WellSized(m)
    ensures |Kept(s.ctl, Feed(s, pieces).log)| + 1 >= |Feed(s, pieces).log|
    ensures Feed(s, pieces).code == More ==> Kept(s.ctl, Feed(s, pieces).log) == Feed(s, pieces).log
    decreases |pieces|
  {
    hide ParseAll, HandleAll, Kept;
    FeedIsHandled(s, pieces);
    HandleBothUnlessMore(s.ctl, Feed(s, pieces).log);
    KeptIsHandled(s.ctl, Feed(s, pieces).log);
    if pieces != [] {
      var f := Feed(s, pieces[..|pieces| - 1]);
      FeedKept(s, pieces[..|pieces| - 1]);
      if f.code == More {
        var d := f.pending + pieces[|pieces| - 1];
        FeedIsHandled(s, pieces[..|pieces| - 1]);
        HandleBothUnlessMore(s.ctl, f.log);
        RunKept(f.st, d);
        KeptBehind(s.ctl, f.log, ParseAll(f.st, d).log);
      }
    }
  }

  /** What is pending is less than a chunk: 16 bytes of header at most, and a payload no
      longer than the chunk size. */
  lemma {:induction false} PendingBounded(s: State, pieces: seq<seq<byte>>)
    requires Valid(s) && Feed(s, pieces).code == More
    ensures |Feed(s, pieces).pending| <= 15 + Feed(s, pieces).st.ctl.maxChunk
    decreases |pieces|
  {
    if pieces != [] {
      hide ParseAll;
      var f := Feed(s, pieces[..|pieces| - 1]);
      UnusedBounded(f.st, f.pending + pieces[|pieces| - 1]);
    }
  }

  lemma {:induction false} UnusedBounded(s: State, d: seq<byte>)
    requires Valid(s) && ParseAll(s, d).code == More
    ensures |d| - ParseAll(s, d).used <= 15 + ParseAll(s, d).st.ctl.maxChunk
    decreases |d|
  {
    hide Step;
    StepProgress(s, d);
    if Step(s, d).code == Done {
      UnusedBounded(Step(s, d).st, d[Step(s, d).used..]);
    } else {
      IncompleteBounded(s, d);
    }
  }

  lemma IncompleteBounded(s: State, d: seq<byte>)
    requires Valid(s) && Step(s, d).code == More
    ensures |d| <= 15 + s.ctl.maxChunk && Step(s, d).st.ctl == s.ctl
  {
    hide Step, Prepare, Complete, StampOf;
    StepProgress(s, d);
    if ReadHeader(d).Whole? {
      StepIsComplete(s, d);
      var p, h := Prepare(s, d), ReadHeader(d).h;
      if IsComplete(p, h, d) {
        CompleteProgress(p, h, StampOf(s, h), d);
      }
    } else {
      StepWithoutHeader(s, d);
    }
  }

  /** The loop has come as far as one parse of all the bytes d. */
  ghost predicate FedAs(f: Fed, whole: Run, d: seq<byte>)
    requires Valid(f.st) && Valid(whole.st) && whole.used <= |d|
  {
    && f.code == whole.code && Alike(f.st, whole.st) && AlikeLog(f.log, whole.log)
    && (f.code == More ==> f.pending == d[whole.used..])
  }

  /** The loop delivers what one parse of the whole stream delivers, however the stream
      was cut, and keeps exactly the bytes that parse has not used. */
  lemma {:induction false} FragmentationIndependence(s: State, pieces: seq<seq<byte>>)
    requires Valid(s)
    ensures FedAs(Feed(s, pieces), ParseAll(s, Flatten(pieces)), Flatten(pieces))
    decreases |pieces|
  {
    if pieces == [] {
      PrepareNothing(s);
    } else {
      hide ParseAll, FedAs;
      var front, last := pieces[..|pieces| - 1], pieces[|pieces| - 1];
      FragmentationIndependence(s, front);
      if Feed(s, front).code == More {
        NextPiece(s, Flatten(front), Feed(s, front), last);
      } else {
        PieceTooLate(s, Flatten(front), Feed(s, front), last);
      }
    }
  }

  lemma NextPiece(s: State, d: seq<byte>, f: Fed, last: seq<byte>)
    requires Valid(s) && Valid(f.st) && FedAs(f, ParseAll(s, d), d) && f.code == More
    ensures var r := ParseAll(f.st, f.pending + last);
            FedAs(Fed(r.code, r.st, (f.pending + last)[r.used..], f.log + r.log), ParseAll(s, d + last), d + last)
  {
    hide ParseAll, Step, Alike, AlikeLog;
    var r, whole := ParseAll(s, d), ParseAll(s, d + last);
    var now := f.pending + last;
    ParseGrows(s, d, last);
    AlikeStates(f.st, r.st, now);
    ParseAlike(f.st, r.st, now);
    var rest, fed := ParseAll(r.st, now), ParseAll(f.st, now);
    Joined(r, rest, whole, f, fed);
    assert now[rest.used..] == (d + last)[r.used + rest.used..];
  }

  lemma Joined(r: Run, rest: Run, whole: Run, f: Fed, fed: Run)
    requires Valid(r.st) && Valid(rest.st) && Valid(whole.st) && Valid(f.st) && Valid(fed.st)
    requires AlikeRun(whole, Run(rest.code, rest.st, r.used + rest.used, r.log + rest.log, [], 0))
    requires AlikeRun(fed, rest) && AlikeLog(f.log, r.log)
    ensures Alike(fed.st, whole.st) && AlikeLog(f.log + fed.log, whole.log)
  {
    hide Alike, AlikeLog;
    var joined := Run(rest.code, rest.st, r.used + rest.used, r.log + rest.log, [], 0);
    AlikeRunSymmetric(whole, joined);
    AlikeTransitive(fed.st, rest.st, whole.st);
    AlikeLogAppend(f.log, r.log, fed.log, rest.log);
    AlikeLogTransitive(f.log + fed.log, joined.log, whole.log);
  }

  lemma PieceTooLate(s: State, d: seq<byte>, f: Fed, last: seq<byte>)
    requires Valid(s) && Valid(f.st) && FedAs(f, ParseAll(s, d), d) && f.code != More
    ensures FedAs(f, ParseAll(s, d + last), d + last)
  {
    hide ParseAll, Step, Alike, AlikeLog;
    var r, whole := ParseAll(s, d), ParseAll(s, d + last);
    ParseGrows(s, d, last);
    AlikeRunSymmetric(whole, r);
    AlikeTransitive(f.st, r.st, whole.st);
    AlikeLogTransitive(f.log, r.log, whole.log);
  }

  /** Two ways of cutting the same stream. */
  lemma TwoCuts(s: State, one: seq<seq<byte>>, two: seq<seq<byte>>)
    requires Valid(s) && Flatten(one) == Flatten(two)
    ensures var f, g := Feed(s, one), Feed(s, two);
            f.code == g.code && Alike(f.st, g.st) && AlikeLog(f.log, g.log) &&
            (f.code == More ==> f.pending == g.pending)
  {
    hide ParseAll, Feed, Alike, AlikeLog;
    FragmentationIndependence(s, one);
    FragmentationIndependence(s, two);
    var f, g, whole := Feed(s, one), Feed(s, two), ParseAll(s, Flatten(one));
    AlikeRunSymmetric(Run(g.code, g.st, whole.used, g.log, [], 0), whole);
    AlikeTransitive(f.st, whole.st, g.st);
    AlikeLogTransitive(f.log, whole.log, g.log);
  }
}
