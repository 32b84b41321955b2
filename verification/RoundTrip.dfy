/** What the client sends, read back by the parser. */
module RoundTrip {
  import opened Bytes
  import opened Protocol
  import opened Handlers
  import opened Chunks
  import opened Demux
  import opened Conservation
  import opened Commands
  import opened Amf0
  import Splitter

  /** No receiver fails on the message or changes its chunk size over it. */
  ghost predicate AlwaysHandled(m: OutMessage) {
    m.mtype != 1 && forall c: Control, r: Message {:trigger Handle(c, r)} :: WellSized(r) && Carries(r, m) ==>
      Handle(c, r).code == Done
  }

  /** Messages sent one after the other without being split. */
  function Unsplit(ms: seq<OutMessage>): seq<byte>
    requires forall m :: m in ms ==> Sendable(m)
  {
    if ms == [] then [] else FirstHeader(ms[0]) + ms[0].payload + Unsplit(ms[1..])
  }

  ghost predicate AllIdle(snd: Sender) {
    SenderOk(snd) && forall i :: 0 <= i < MAX_CHUNK_ID ==> snd.streams[i].Idle?
  }

  /** PlainMessages messages: no extended time stamp and a type other than 0. */
  ghost predicate PlainMessages(ms: seq<OutMessage>) {
    forall m :: m in ms ==> Sendable(m) && !Extended(m) && m.mtype != 0 && AlwaysHandled(m)
  }

  /** The run delivers the messages, uses every byte and mirrors the sender again, which has
      nothing on its way. */
  ghost predicate ArrivesAs(snd: Sender, r: Run, n: nat, ms: seq<OutMessage>) {
    r.code == More && r.used == n && CarriesAll(r.log, ms) && Mirrors(snd, r.st)
  }

  lemma SameIdle(snd: Sender, m: OutMessage)
    requires AllIdle(snd) && Sendable(m) && m.mtype != 1
    ensures snd.(streams := snd.streams[m.csid := Idle]) == snd
  {
    assert snd.streams[m.csid := Idle] == snd.streams;
  }

  lemma CostOfCarried(r: Message, m: OutMessage)
    requires Sendable(m) && !Extended(m) && m.mtype != 0 && Carries(r, m)
    ensures MessageCost(r) == |FirstHeader(m)| + |m.payload|
  {
  }

  lemma {:induction false} CostOfAll(log: seq<Message>, ms: seq<OutMessage>)
    requires PlainMessages(ms) && CarriesAll(log, ms)
    ensures LogCost(log) == |Unsplit(ms)|
  {
    if ms != [] {
      assert Carries(log[0], ms[0]);
      CostOfCarried(log[0], ms[0]);
      forall i | 0 <= i < |log[1..]|
        ensures Carries(log[1..][i], ms[1..][i])
      {
        assert Carries(log[i + 1], ms[i + 1]);
      }
      CostOfAll(log[1..], ms[1..]);
    }
  }

  /** A first message that is too long leaves its chunk stream waiting for a continuation
      that never comes. */
  lemma TooLong(snd: Sender, s: State, ms: seq<OutMessage>)
    requires Mirrors(snd, s) && AllIdle(snd) && PlainMessages(ms) && ms != [] && |ms[0].payload| > snd.chunk
    ensures !ArrivesAs(snd, ParseAll(s, Unsplit(ms)), |Unsplit(ms)|, ms)
  {
    hide Step, ParseAll, InFlight, Unsplit, Mirrors, Carries;
    MirrorsValid(snd, s);
    var d := Unsplit(ms);
    TooLongStart(snd, s, ms);
    var q := Step(s, d);
    ParseStep(s, d);
    if ArrivesAs(snd, ParseAll(s, d), |d|, ms) {
      assert [] + ParseAll(q.st, d[q.used..]).log == ParseAll(q.st, d[q.used..]).log;
      NeverWhole(q.st, d[q.used..], ms, ms[0].csid);
    }
  }

  /** Bytes held back in flight are missing among those of complete messages. */
  lemma NeverWhole(p: State, rest: seq<byte>, ms: seq<OutMessage>, i: nat)
    requires Valid(p) && i < MAX_CHUNK_ID && p.streams[i].left > 0 && PlainMessages(ms)
    ensures var r := ParseAll(p, rest); !(r.used + InFlight(p.streams) == |Unsplit(ms)| && CarriesAll(r.log, ms))
  {
    hide ParseAll, InFlight, Unsplit, Carries, LogCost, Continuations;
    var r := ParseAll(p, rest);
    if r.used + InFlight(p.streams) == |Unsplit(ms)| && CarriesAll(r.log, ms) {
      RunCost(p, rest);
      CostOfAll(r.log, ms);
      StaysInFlight(p, rest, i);
      StillInFlight(r.st.streams, i);
    }
  }

  lemma StillInFlight(streams: seq<Stream>, i: nat)
    requires i < |streams| && streams[i].left > 0
    ensures InFlight(streams) > 0
  {
    InFlightAtLeast(streams, i);
  }

  lemma PlainTail(ms: seq<OutMessage>)
    requires PlainMessages(ms) && ms != []
    ensures PlainMessages(ms[1..]) && Sendable(ms[0]) && !Extended(ms[0]) && ms[0].mtype != 0 && AlwaysHandled(ms[0])
    ensures Unsplit(ms) == FirstHeader(ms[0]) + ms[0].payload + Unsplit(ms[1..])
  {
    assert ms[0] in ms;
  }

  /** What the parser holds after the first chunk. */
  lemma TooLongStart(snd: Sender, s: State, ms: seq<OutMessage>)
    requires Mirrors(snd, s) && AllIdle(snd) && PlainMessages(ms) && ms != [] && |ms[0].payload| > snd.chunk
    ensures var q := Step(s, Unsplit(ms)); var m := ms[0];
            && q.code == Done && q.msgs == [] && q.used <= |Unsplit(ms)|
            && q.st.streams[m.csid].left > 0 && InFlight(q.st.streams) == q.used
  {
    hide Step, InFlight, Mirrors, Unsplit, FirstHeader, AlwaysHandled, PlainMessages;
    MirrorsValid(snd, s);
    PlainTail(ms);
    var m := ms[0];
    var e := Emit(snd, Start(m));
    var piece := Piece(m.payload, 0, snd.chunk);
    var behind := m.payload[snd.chunk..];
    var tail := behind + Unsplit(ms[1..]);
    SplitTail(FirstHeader(m), m.payload, snd.chunk, Unsplit(ms[1..]));
    StartStep(snd, s, m, tail);
    OnlyOne(e.next, Step(s, e.bytes + tail).st, m, |piece|);
  }

  lemma SplitTail(header: seq<byte>, payload: seq<byte>, n: nat, rest: seq<byte>)
    requires n <= |payload|
    ensures header + payload + rest == (header + payload[0..0 + n]) + (payload[n..] + rest)
  {
  }

  lemma OnlyOne(snd: Sender, s: State, m: OutMessage, sent: nat)
    requires Mirrors(snd, s) && Sendable(m) && !Extended(m) && m.mtype != 0
    requires snd.streams[m.csid] == Sending(m, sent)
    requires forall i :: 0 <= i < MAX_CHUNK_ID && i != m.csid ==> snd.streams[i].Idle?
    ensures s.streams[m.csid].left > 0 && InFlight(s.streams) == |FirstHeader(m)| + sent
  {
    hide InFlight;
    var none: Stream := s.streams[m.csid].(left := 0, got := []);
    var others := s.streams[m.csid := none];
    forall i | 0 <= i < MAX_CHUNK_ID
      ensures others[i].left == 0
    {
      assert MirrorsStream(snd.streams[i], s.streams[i]);
    }
    NothingInFlight(others);
    assert MirrorsStream(snd.streams[m.csid], s.streams[m.csid]);
    InFlightUpdate(others, m.csid, s.streams[m.csid]);
    assert others[m.csid := s.streams[m.csid]] == s.streams;
  }

  /** Unsplit messages are read back exactly when none of them is longer than the chunk
      size: there is no way to resynchronise behind a message that is. */
  lemma {:induction false} UnsplitReadsBack(snd: Sender, s: State, ms: seq<OutMessage>)
    requires Mirrors(snd, s) && AllIdle(snd) && PlainMessages(ms)
    ensures ArrivesAs(snd, ParseAll(s, Unsplit(ms)), |Unsplit(ms)|, ms) <==>
            forall m :: m in ms ==> |m.payload| <= snd.chunk
    decreases |ms|
  {
    hide Step, ParseAll, AlwaysHandled, Mirrors, ArrivesAs, Unsplit;
    if ms == [] {
      NoMessages(snd, s);
    } else {
      PlainTail(ms);
      assert ms == [ms[0]] + ms[1..];
      if |ms[0].payload| > snd.chunk {
        TooLong(snd, s, ms);
      } else {
        ShortStart(snd, s, ms);
        MirrorsValid(snd, s);
        UnsplitReadsBack(snd, Step(s, Unsplit(ms)).st, ms[1..]);
        ShortFirst(snd, s, ms);
      }
    }
  }

  lemma NoMessages(snd: Sender, s: State)
    requires Mirrors(snd, s)
    ensures ArrivesAs(snd, ParseAll(s, Unsplit([])), |Unsplit([])|, [])
  {
    Demux.ParseNothing(snd, s);
  }

  lemma ShortStart(snd: Sender, s: State, ms: seq<OutMessage>)
    requires Mirrors(snd, s) && AllIdle(snd) && PlainMessages(ms) && ms != [] && |ms[0].payload| <= snd.chunk
    ensures var q := Step(s, Unsplit(ms)); var e := Emit(snd, Start(ms[0]));
            && q.code == Done && |q.msgs| == 1 && Carries(q.msgs[0], ms[0])
            && q.used == |Unsplit(ms)| - |Unsplit(ms[1..])| && Unsplit(ms)[q.used..] == Unsplit(ms[1..])
            && e.next == snd && Mirrors(snd, q.st)
  {
    hide Step, Mirrors, Unsplit, FirstHeader, PlainMessages;
    MirrorsValid(snd, s);
    PlainTail(ms);
    var m := ms[0];
    var e := Emit(snd, Start(m));
    assert Piece(m.payload, 0, snd.chunk) == m.payload;
    StartStep(snd, s, m, Unsplit(ms[1..]));
    var d := e.bytes + Unsplit(ms[1..]);
    StepIsHandled(s, d);
    var q := Step(s, d);
    OneHandled(s.ctl, q.msgs);
    assert Handle(s.ctl, q.msgs[0]).code == Done;
    SameIdle(snd, m);
    assert m.mtype != 1;
  }

  lemma ShortFirst(snd: Sender, s: State, ms: seq<OutMessage>)
    requires Valid(s) && PlainMessages(ms) && ms != []
    requires var q := Step(s, Unsplit(ms));
             && q.code == Done && |q.msgs| == 1 && Carries(q.msgs[0], ms[0])
             && q.used == |Unsplit(ms)| - |Unsplit(ms[1..])| && Unsplit(ms)[q.used..] == Unsplit(ms[1..])
    ensures var q := Step(s, Unsplit(ms));
            ArrivesAs(snd, ParseAll(s, Unsplit(ms)), |Unsplit(ms)|, ms) <==>
            ArrivesAs(snd, ParseAll(q.st, Unsplit(ms[1..])), |Unsplit(ms[1..])|, ms[1..])
  {
    hide Step, ParseAll, Carries, Unsplit;
    var q := Step(s, Unsplit(ms));
    ParseStep(s, Unsplit(ms));
    var r, rest := ParseAll(s, Unsplit(ms)), ParseAll(q.st, Unsplit(ms[1..]));
    if CarriesAll(r.log, ms) {
      forall i | 0 <= i < |rest.log|
        ensures Carries(rest.log[i], ms[1..][i])
      {
        assert r.log[i + 1] == rest.log[i];
      }
    }
    if CarriesAll(rest.log, ms[1..]) {
      forall i | 0 <= i < |r.log|
        ensures Carries(r.log[i], ms[i])
      {
        if i > 0 {
          assert Carries(rest.log[i - 1], ms[1..][i - 1]);
        }
      }
    }
  }

  // ---------- messages that are split ----------

  /** The chunks behind the first one. */
  function Gos(csid: nat, k: nat): (r: seq<Action>)
    ensures |r| == k && forall i :: 0 <= i < k ==> r[i] == Go(csid)
  {
    seq(k, i => Go(csid))
  }

  lemma GosTail(csid: nat, k: nat)
    requires k > 0
    ensures Gos(csid, k)[1..] == Gos(csid, k - 1)
  {
  }

  /** The sender when the message is out. */
  function Finished(snd: Sender, m: OutMessage): Sender
    requires |snd.streams| == MAX_CHUNK_ID && m.csid < MAX_CHUNK_ID
  {
    Sender(snd.streams[m.csid := Idle], if m.mtype == 1 && |m.payload| >= 4 then Be32(m.payload, 0) else snd.chunk)
  }

  /** The rest of a message, chunk by chunk, is what the splitter puts behind a page. */
  lemma {:induction false} GoRest(snd: Sender, m: OutMessage, sent: nat, k: nat)
    requires SenderOk(snd) && Sendable(m) && snd.streams[m.csid] == Sending(m, sent) && snd.chunk == 128
    requires sent < |m.payload| && k == (|m.payload| - sent - 1) / 128 + 1
    ensures Schedule(snd, Gos(m.csid, k))
    ensures EmitAll(snd, Gos(m.csid, k)).bytes == [0xC0 + m.csid] + Splitter.Pages(0xC0 + m.csid, m.payload[sent..])
    ensures EmitAll(snd, Gos(m.csid, k)).done == [m] && EmitAll(snd, Gos(m.csid, k)).next == Finished(snd, m)
    decreases k
  {
    var e := Emit(snd, Go(m.csid));
    var rest := m.payload[sent..];
    GosTail(m.csid, k);
    if |rest| > 128 {
      GoRest(e.next, m, sent + 128, k - 1);
      OneMore(snd, m, sent, k);
    } else {
      LastPiece(snd, m, sent);
    }
  }

  lemma LastPiece(snd: Sender, m: OutMessage, sent: nat)
    requires SenderOk(snd) && Sendable(m) && snd.streams[m.csid] == Sending(m, sent) && snd.chunk == 128
    requires sent < |m.payload| <= sent + 128
    ensures Schedule(snd, Gos(m.csid, 1)) && EmitAll(snd, Gos(m.csid, 1)).done == [m]
    ensures EmitAll(snd, Gos(m.csid, 1)).next == Finished(snd, m)
    ensures EmitAll(snd, Gos(m.csid, 1)).bytes == [0xC0 + m.csid] + Splitter.Pages(0xC0 + m.csid, m.payload[sent..])
  {
    hide Splitter.Pages;
    OnePage(0xC0 + m.csid, m.payload[sent..]);
    assert Piece(m.payload, sent, 128) == m.payload[sent..];
    GosTail(m.csid, 1);
    assert Gos(m.csid, 0) == [];
  }

  lemma OneMore(snd: Sender, m: OutMessage, sent: nat, k: nat)
    requires SenderOk(snd) && Sendable(m) && snd.streams[m.csid] == Sending(m, sent) && snd.chunk == 128
    requires sent + 128 < |m.payload| && k > 0
    requires var next := Emit(snd, Go(m.csid)).next;
             && Schedule(next, Gos(m.csid, k - 1)) && EmitAll(next, Gos(m.csid, k - 1)).done == [m]
             && EmitAll(next, Gos(m.csid, k - 1)).next == Finished(next, m)
             && EmitAll(next, Gos(m.csid, k - 1)).bytes ==
                [0xC0 + m.csid] + Splitter.Pages(0xC0 + m.csid, m.payload[sent + 128..])
    ensures Schedule(snd, Gos(m.csid, k)) && EmitAll(snd, Gos(m.csid, k)).done == [m]
    ensures EmitAll(snd, Gos(m.csid, k)).next == Finished(snd, m)
    ensures EmitAll(snd, Gos(m.csid, k)).bytes == [0xC0 + m.csid] + Splitter.Pages(0xC0 + m.csid, m.payload[sent..])
  {
    hide Splitter.Pages, Sendable, Emit, EmitAll, Schedule, Finished, Gos, Piece, Allowed;
    var ct, piece := 0xC0 + m.csid, Piece(m.payload, sent, 128);
    GosTail(m.csid, k);
    MiddlePiece(snd, m, sent);
    NextPage(ct, m.payload, sent);
    EmitMore(snd, Gos(m.csid, k));
    Regrouped([ct], piece, [ct], Splitter.Pages(ct, m.payload[sent + 128..]));
  }

  lemma EmitMore(snd: Sender, actions: seq<Action>)
    requires SenderOk(snd) && actions != [] && Allowed(snd, actions[0])
    requires Schedule(Emit(snd, actions[0]).next, actions[1..])
    ensures Schedule(snd, actions)
    ensures var first := Emit(snd, actions[0]); var rest := EmitAll(first.next, actions[1..]);
            EmitAll(snd, actions) == Emitted(first.bytes + rest.bytes, rest.next, first.done + rest.done)
  {
  }

  lemma Regrouped(a: seq<byte>, b: seq<byte>, c: seq<byte>, d: seq<byte>)
    ensures (a + b) + (c + d) == a + (b + c + d)
  {
  }

  lemma MiddlePiece(snd: Sender, m: OutMessage, sent: nat)
    requires SenderOk(snd) && Sendable(m) && snd.streams[m.csid] == Sending(m, sent) && snd.chunk == 128
    requires sent + 128 < |m.payload|
    ensures Allowed(snd, Go(m.csid))
    ensures var e := Emit(snd, Go(m.csid));
            e.bytes == [0xC0 + m.csid] + Piece(m.payload, sent, 128) && e.done == [] &&
            Finished(e.next, m) == Finished(snd, m)
  {
  }

  lemma NextPage(ct: byte, payload: seq<byte>, sent: nat)
    requires sent + 128 < |payload|
    ensures Splitter.Pages(ct, payload[sent..])
            == Piece(payload, sent, 128) + [ct] + Splitter.Pages(ct, payload[sent + 128..])
  {
    hide Splitter.Pages;
    var rest := payload[sent..];
    PagesSplit(ct, rest);
    assert rest[..128] == payload[sent..sent + 128] == Piece(payload, sent, 128);
    assert rest[128..] == payload[sent + 128..];
  }

  /** A message as the splitter lays it out. */
  function SplitBytes(m: OutMessage): seq<byte>
    requires Sendable(m)
  {
    FirstHeader(m) + Splitter.Pages(0xC0 + m.csid, m.payload)
  }

  lemma SplitIsEmitted(snd: Sender, m: OutMessage)
    requires SenderOk(snd) && Sendable(m) && !Extended(m) && snd.streams[m.csid].Idle? && snd.chunk == 128
    requires m.payload != []
    ensures var actions := [Start(m)] + Gos(m.csid, (|m.payload| - 1) / 128);
            && Schedule(snd, actions) && EmitAll(snd, actions).bytes == SplitBytes(m)
            && EmitAll(snd, actions).done == [m] && EmitAll(snd, actions).next == Finished(snd, m)
  {
    hide Splitter.Pages, Emit, EmitAll, Schedule, FirstHeader, SplitBytes, Gos;
    var k := (|m.payload| - 1) / 128;
    FirstPiece(snd, m);
    var e := Emit(snd, Start(m));
    if k > 0 {
      GoRest(e.next, m, 128, k);
    } else {
      NothingMore(e.next, m.csid);
    }
    OneBefore(snd, Start(m), Gos(m.csid, k));
    FirstPages(m);
  }

  /** What the first chunk of a split message leaves. */
  lemma FirstPiece(snd: Sender, m: OutMessage)
    requires SenderOk(snd) && Sendable(m) && !Extended(m) && snd.streams[m.csid].Idle? && snd.chunk == 128
    requires m.payload != []
    ensures Allowed(snd, Start(m))
    ensures var e := Emit(snd, Start(m));
            if |m.payload| > 128 then
              e.bytes == FirstHeader(m) + m.payload[..128] && e.done == [] && e.next.chunk == 128 &&
              e.next.streams[m.csid] == Sending(m, 128) && Finished(e.next, m) == Finished(snd, m)
            else e.bytes == FirstHeader(m) + m.payload && e.done == [m] && e.next == Finished(snd, m)
  {
    hide FirstHeader;
    assert Piece(m.payload, 0, 128) == if |m.payload| > 128 then m.payload[..128] else m.payload;
  }

  lemma NothingMore(snd: Sender, csid: nat)
    requires SenderOk(snd)
    ensures Schedule(snd, Gos(csid, 0)) && EmitAll(snd, Gos(csid, 0)) == Emitted([], snd, [])
  {
    assert Gos(csid, 0) == [];
  }

  lemma OneBefore(snd: Sender, a: Action, rest: seq<Action>)
    requires SenderOk(snd) && Allowed(snd, a) && Schedule(Emit(snd, a).next, rest)
    ensures Schedule(snd, [a] + rest)
    ensures var e, r := Emit(snd, a), EmitAll(Emit(snd, a).next, rest);
            EmitAll(snd, [a] + rest) == Emitted(e.bytes + r.bytes, r.next, e.done + r.done)
  {
    hide Emit;
    assert ([a] + rest)[1..] == rest;
  }

  lemma FirstPages(m: OutMessage)
    requires Sendable(m) && m.payload != []
    ensures if |m.payload| > 128 then
              SplitBytes(m) == FirstHeader(m) + m.payload[..128]
                               + ([0xC0 + m.csid] + Splitter.Pages(0xC0 + m.csid, m.payload[128..]))
            else SplitBytes(m) == FirstHeader(m) + m.payload + []
  {
    hide Splitter.Pages, FirstHeader;
    if |m.payload| > 128 {
      PagesSplit(0xC0 + m.csid, m.payload);
      Regroup(FirstHeader(m), m.payload[..128], [0xC0 + m.csid] + Splitter.Pages(0xC0 + m.csid, m.payload[128..]));
    } else {
      OnePage(0xC0 + m.csid, m.payload);
    }
  }

  lemma OnePage(ct: byte, body: seq<byte>)
    requires |body| <= 128
    ensures Splitter.Pages(ct, body) == body
  {
  }

  lemma PagesSplit(ct: byte, body: seq<byte>)
    requires |body| > 128
    ensures Splitter.Pages(ct, body) == body[..128] + ([ct] + Splitter.Pages(ct, body[128..]))
  {
  }

  /** A split message of any length, whole multiples of 128 included, comes out as it was,
      whatever is in flight on other chunk streams; the run ends as its handler does. */
  lemma SplitReadsBack(snd: Sender, s: State, m: OutMessage)
    requires Mirrors(snd, s) && Sendable(m) && !Extended(m) && snd.streams[m.csid].Idle? && snd.chunk == 128
    requires m.payload != []
    ensures var r := ParseAll(s, SplitBytes(m));
            && CarriesAll(r.log, [m])
            && (r.code == More ==> r.used == |SplitBytes(m)| && Mirrors(Finished(snd, m), r.st))
            && WellSized(r.log[0]) && r.code == if Handle(s.ctl, r.log[0]).code == Done then More
                                              else Handle(s.ctl, r.log[0]).code
  {
    hide ParseAll, SplitBytes, Emit;
    var actions := [Start(m)] + Gos(m.csid, (|m.payload| - 1) / 128);
    SplitIsEmitted(snd, m);
    Demultiplex(snd, s, actions);
    RunIsHandled(s, SplitBytes(m));
    var r := ParseAll(s, SplitBytes(m));
    assert |r.log| == 1;
    assert [m][..1] == [m];
    OneHandled(s.ctl, r.log);
  }

  // ---------- the messages of the session ----------

  lemma Header0Is(csid: byte, mtype: byte, b: byte, body: seq<byte>)
    requires 2 <= csid < 64 && |body| < 0x100_0000
    ensures Header0(csid, mtype, [b, 0, 0, 0], body) == FirstHeader(OutMessage(0, csid, mtype, 0, b, body))
  {
  }

  lemma Header1Is(csid: byte, mtype: byte, body: seq<byte>)
    requires 2 <= csid < 64 && |body| < 0x100_0000
    ensures Header1(csid, mtype, body) == FirstHeader(OutMessage(1, csid, mtype, 0, 0, body))
  {
  }

  lemma NotResult(name: string)
    requires name != "_result" && forall i :: 0 <= i < |name| ==> '\0' < name[i] < 128 as char
    ensures !Is(Ascii(name), "_result")
  {
    if Is(Ascii(name), "_result") {
      SameText(name, "_result");
    }
  }

  lemma SameText(a: string, b: string)
    requires (forall i :: 0 <= i < |a| ==> '\0' < a[i] < 128 as char) && Is(Ascii(a), b)
    ensures a == b
  {
    forall i | 0 <= i < |a|
      ensures a[i] == b[i]
    {
      assert Ascii(a)[i] == a[i] as int && Ascii(a)[i] == b[i] as int;
    }
  }

  lemma CommandHandled(m: OutMessage, name: string, rest: seq<byte>)
    requires m.mtype == 0x14 && |name| < 256 && (forall i :: 0 <= i < |name| ==> '\0' < name[i] < 128 as char)
    requires m.payload == StringBytes(Ascii(name)) + rest && name != "_result"
    ensures AlwaysHandled(m)
  {
    PopWritten(Str(Ascii(name)), rest, 256);
    CStrOfCString(Ascii(name));
    NotResult(name);
    forall c: Control, r: Message | WellSized(r) && Carries(r, m)
      ensures Handle(c, r).code == Done
    {
      hide PopString, CStr, Is;
    }
  }

  lemma ControlHandled(m: OutMessage)
    requires (m.mtype == 5 && |m.payload| == 4) || m.mtype == 4
    ensures AlwaysHandled(m)
  {
  }

  function ConnectMessage(app: appname, url: urltext): OutMessage {
    OutMessage(0, 3, 0x14, 0, 0, ConnectBody(app, url))
  }

  /** The connect command, split with marker 0xC3, is read back for every application
      name and URL. */
  lemma ConnectReadsBack(snd: Sender, s: State, app: appname, url: urltext)
    requires Mirrors(snd, s) && AllIdle(snd) && snd.chunk == 128
    ensures var m := ConnectMessage(app, url);
            var bytes := Header0(3, 0x14, NO_ID, m.payload) + Splitter.Pages(0xC3, m.payload);
            ArrivesAs(snd, ParseAll(s, bytes), |bytes|, [m])
  {
    hide ParseAll, Splitter.Pages, Mirrors, AlwaysHandled, Header0, FirstHeader;
    MirrorsValid(snd, s);
    var m := ConnectMessage(app, url);
    Header0Is(3, 0x14, 0, m.payload);
    SplitReadsBack(snd, s, m);
    ConnectHandled(app, url);
    HandledAlways(s.ctl, ParseAll(s, SplitBytes(m)).log[0], m);
    SameIdle(snd, m);
  }

  lemma HandledAlways(c: Control, r: Message, m: OutMessage)
    requires AlwaysHandled(m) && WellSized(r) && Carries(r, m)
    ensures Handle(c, r).code == Done
  {
    hide Handle, Carries, WellSized;
  }

  lemma ConnectHandled(app: appname, url: urltext)
    ensures AlwaysHandled(ConnectMessage(app, url))
  {
    CommandHandled(ConnectMessage(app, url), "connect", ConnectArguments(app, url));
  }

  function CreateMessages(ackSize: u32): seq<OutMessage> {
    [OutMessage(0, 2, 5, 0, 0, ToBe32(ackSize)),
     OutMessage(1, 3, 0x14, 0, 0, CreateStreamBody()),
     OutMessage(1, 3, 0x14, 0, 0, CheckBwBody())]
  }

  function PlayMessages(idByte: byte, name: streamname): seq<OutMessage> {
    [OutMessage(0, 8, 0x14, 0, 0, StreamLengthBody(name)),
     OutMessage(0, 8, 0x14, 0, idByte, PlayBody(name)),
     OutMessage(1, 2, 4, 0, 0, BufferLengthBody())]
  }

  lemma Members3(a: OutMessage, b: OutMessage, c: OutMessage)
    ensures forall m :: m in [a, b, c] <==> m == a || m == b || m == c
  {
  }

  lemma Unsplit3(a: OutMessage, b: OutMessage, c: OutMessage)
    requires Sendable(a) && Sendable(b) && Sendable(c)
    ensures Unsplit([a, b, c]) ==
            FirstHeader(a) + a.payload + (FirstHeader(b) + b.payload) + (FirstHeader(c) + c.payload)
  {
    hide FirstHeader;
    Members3(a, b, c);
    assert [a, b, c][1..] == [b, c] && [b, c][1..] == [c] && [c][1..] == [];
    assert Unsplit([c]) == FirstHeader(c) + c.payload;
    assert Unsplit([b, c]) == FirstHeader(b) + b.payload + (FirstHeader(c) + c.payload);
    assert Unsplit([a, b, c]) == FirstHeader(a) + a.payload + Unsplit([b, c]);
  }

  /** The answer to connect is read back as the three messages it bundles. */
  lemma CreateBundleReadsBack(snd: Sender, s: State, ackSize: u32)
    requires Mirrors(snd, s) && AllIdle(snd) && snd.chunk == 128
    ensures ArrivesAs(snd, ParseAll(s, CreateBundle(ackSize)), 78, CreateMessages(ackSize))
  {
    hide ParseAll, FirstHeader, AlwaysHandled, CreateBundle;
    var ms := CreateMessages(ackSize);
    CreateBundleMessages(ackSize);
    ControlHandled(ms[0]);
    CreateHandled();
    Members3(ms[0], ms[1], ms[2]);
    UnsplitReadsBack(snd, s, ms);
  }

  lemma CreateBundleMessages(ackSize: u32)
    ensures forall m :: m in CreateMessages(ackSize) ==> Sendable(m)
    ensures Unsplit(CreateMessages(ackSize)) == CreateBundle(ackSize)
  {
    hide FirstHeader, Header0, Header1, CreateStreamBody, CheckBwBody;
    var ms := CreateMessages(ackSize);
    Header0Is(2, 5, 0, ms[0].payload);
    Header1Is(3, 0x14, ms[1].payload);
    Header1Is(3, 0x14, ms[2].payload);
    Members3(ms[0], ms[1], ms[2]);
    Unsplit3(ms[0], ms[1], ms[2]);
  }

  lemma CreateHandled()
    ensures AlwaysHandled(OutMessage(1, 3, 0x14, 0, 0, CreateStreamBody()))
    ensures AlwaysHandled(OutMessage(1, 3, 0x14, 0, 0, CheckBwBody()))
  {
    hide AlwaysHandled;
    assert CreateStreamBody() == StringBytes(Ascii("createStream")) + (NumberBytes(TWO) + NULL);
    assert CheckBwBody() == StringBytes(Ascii("_checkbw")) + (NumberBytes(THREE) + NULL);
    CommandHandled(OutMessage(1, 3, 0x14, 0, 0, CreateStreamBody()), "createStream", NumberBytes(TWO) + NULL);
    CommandHandled(OutMessage(1, 3, 0x14, 0, 0, CheckBwBody()), "_checkbw", NumberBytes(THREE) + NULL);
  }

  /** The answer to createStream is read back exactly when the stream name has at most
      97 bytes: its messages are sent without being split. */
  lemma PlayBundleReadsBack(snd: Sender, s: State, idByte: byte, name: streamname)
    requires Mirrors(snd, s) && AllIdle(snd) && snd.chunk == 128
    ensures ArrivesAs(snd, ParseAll(s, PlayBundle(idByte, name)), 2 * |name| + 102, PlayMessages(idByte, name)) <==>
            |name| <= 97
  {
    hide ParseAll, FirstHeader, Header0, Header1, AlwaysHandled, ArrivesAs, PlayBundle;
    var ms := PlayMessages(idByte, name);
    PlayBundleIs(idByte, name);
    StreamLengthHandled(name);
    PlayHandled(idByte, name);
    ControlHandled(ms[2]);
    Members3(ms[0], ms[1], ms[2]);
    UnsplitReadsBack(snd, s, ms);
  }

  lemma PlayBundleIs(idByte: byte, name: streamname)
    ensures forall m :: m in PlayMessages(idByte, name) ==> Sendable(m)
    ensures Unsplit(PlayMessages(idByte, name)) == PlayBundle(idByte, name)
  {
    hide FirstHeader, Header0, Header1, StreamLengthBody, PlayBody, BufferLengthBody;
    var ms := PlayMessages(idByte, name);
    Header0Is(8, 0x14, 0, ms[0].payload);
    Header0Is(8, 0x14, idByte, ms[1].payload);
    Header1Is(2, 4, ms[2].payload);
    Members3(ms[0], ms[1], ms[2]);
    Unsplit3(ms[0], ms[1], ms[2]);
  }

  lemma StreamLengthHandled(name: streamname)
    ensures AlwaysHandled(OutMessage(0, 8, 0x14, 0, 0, StreamLengthBody(name)))
  {
    var rest := NumberBytes(FOUR) + NULL + StringBytes(name);
    assert StreamLengthBody(name) == StringBytes(Ascii("getStreamLength")) + rest;
    CommandHandled(OutMessage(0, 8, 0x14, 0, 0, StreamLengthBody(name)), "getStreamLength", rest);
  }

  lemma PlayHandled(idByte: byte, name: streamname)
    ensures AlwaysHandled(OutMessage(0, 8, 0x14, 0, idByte, PlayBody(name)))
  {
    var rest := NumberBytes(FIVE) + NULL + StringBytes(name) + NumberBytes(MINUS_2000);
    assert PlayBody(name) == StringBytes(Ascii("play")) + rest;
    CommandHandled(OutMessage(0, 8, 0x14, 0, idByte, PlayBody(name)), "play", rest);
  }
}
