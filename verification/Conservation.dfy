/** Every byte of payload that comes out, and a header for every message, went in. */
module Conservation {
  import opened Bytes
  import opened Protocol
  import opened Handlers
  import opened Chunks

  /** The least header a message can have been opened with. */
  function OpenCost(absolute: bool, mtype: byte): nat {
    if absolute then 12 else if mtype != 0 then 8 else 1
  }

  function MessageCost(m: Message): nat {
    |m.payload| + OpenCost(m.absolute, m.mtype)
  }

  function LogCost(log: seq<Message>): nat {
    if log == [] then 0 else MessageCost(log[0]) + LogCost(log[1..])
  }

  function StreamCost(st: Stream): nat {
    if st.left == 0 then 0 else |st.got| + OpenCost(st.absolute, st.mtype)
  }

  function InFlight(streams: seq<Stream>): nat {
    if streams == [] then 0 else StreamCost(streams[0]) + InFlight(streams[1..])
  }

  /** The chunk at the start of d continues a message. */
  predicate Continues(s: State, d: seq<byte>)
    requires Valid(s)
  {
    ReadHeader(d).Whole? && IsComplete(Prepare(s, d), ReadHeader(d).h, d)
    && s.streams[ReadHeader(d).h.csid].left > 0
  }

  /** The number of chunks in a run that continue a message. */
  function Continuations(s: State, d: seq<byte>): nat
    requires Valid(s)
    decreases |d|
  {
    StepProgress(s, d);
    var one := if Continues(s, d) then 1 else 0;
    if Step(s, d).code == Done then one + Continuations(Step(s, d).st, d[Step(s, d).used..]) else one
  }

  lemma {:induction false} LogCostAppend(a: seq<Message>, b: seq<Message>)
    ensures LogCost(a + b) == LogCost(a) + LogCost(b)
  {
    if a == [] {
      assert a + b == b;
    } else {
      LogCostAppend(a[1..], b);
      assert (a + b)[1..] == a[1..] + b;
    }
  }

  lemma {:induction false} InFlightUpdate(streams: seq<Stream>, i: nat, st: Stream)
    requires i < |streams|
    ensures InFlight(streams[i := st]) == InFlight(streams) - StreamCost(streams[i]) + StreamCost(st)
  {
    var after := streams[i := st];
    if i == 0 {
      assert after[1..] == streams[1..];
    } else {
      InFlightUpdate(streams[1..], i - 1, st);
      assert after[1..] == streams[1..][i - 1 := st];
    }
  }

  lemma {:induction false} InFlightSame(a: seq<Stream>, b: seq<Stream>)
    requires |a| == |b| && forall i :: 0 <= i < |a| ==> StreamCost(a[i]) == StreamCost(b[i])
    ensures InFlight(a) == InFlight(b)
  {
    if a != [] {
      assert StreamCost(a[0]) == StreamCost(b[0]);
      forall i | 0 <= i < |a[1..]|
        ensures StreamCost(a[1..][i]) == StreamCost(b[1..][i])
      {
        assert StreamCost(a[i + 1]) == StreamCost(b[i + 1]);
      }
      InFlightSame(a[1..], b[1..]);
    }
  }

  lemma {:induction false} InFlightAtLeast(streams: seq<Stream>, i: nat)
    requires i < |streams|
    ensures InFlight(streams) >= StreamCost(streams[i])
  {
    if i > 0 {
      InFlightAtLeast(streams[1..], i - 1);
    }
  }

  lemma {:induction false} NothingInFlight(streams: seq<Stream>)
    requires forall i :: 0 <= i < |streams| ==> streams[i].left == 0
    ensures InFlight(streams) == 0
  {
    if streams != [] {
      NothingInFlight(streams[1..]);
    }
  }

  lemma PrepareCost(s: State, d: seq<byte>)
    requires Valid(s)
    ensures InFlight(Prepare(s, d).streams) == InFlight(s.streams)
    ensures forall i :: 0 <= i < MAX_CHUNK_ID ==> Prepare(s, d).streams[i].left == s.streams[i].left
  {
    hide Prepare;
    forall i | 0 <= i < MAX_CHUNK_ID
      ensures StreamCost(Prepare(s, d).streams[i]) == StreamCost(s.streams[i])
      ensures Prepare(s, d).streams[i].left == s.streams[i].left
    {
      PrepareKeeps(s, d, i);
    }
    InFlightSame(Prepare(s, d).streams, s.streams);
  }

  lemma HeaderCost(d: seq<byte>)
    requires ReadHeader(d).Whole?
    ensures var h := ReadHeader(d).h; 1 + h.len >= OpenCost(h.fmt == 0, h.mtype)
  {
  }

  lemma CompleteCost(p: State, h: Header, stamp: u32, d: seq<byte>)
    requires Valid(p) && h.csid < MAX_CHUNK_ID && h.size < 0x100_0000 && IsComplete(p, h, d)
    requires 1 + h.len >= OpenCost(h.fmt == 0, h.mtype)
    ensures var r := Complete(p, h, stamp, d);
            r.used + InFlight(p.streams) >=
              InFlight(r.st.streams) + LogCost(r.msgs) + if p.streams[h.csid].left > 0 then 1 else 0
  {
    hide Handle, InFlight;
    var st := p.streams[h.csid];
    var n := ChunkLen(st, h, p.ctl.maxChunk);
    var begun := if st.left == 0 then Opened(st, h, stamp) else st;
    var g := Gather(begun, h.csid, d[1 + h.len..1 + h.len + n]);
    InFlightUpdate(p.streams, h.csid, g.0);
    GatherCost(begun, h.csid, d[1 + h.len..1 + h.len + n]);
  }

  lemma GatherCost(st: StreamRecord, csid: nat, piece: seq<byte>)
    requires |st.noted| == 12 && st.size < 0x100_0000 && |st.got| + st.left == st.size && |piece| <= st.left
    ensures var g := Gather(st, csid, piece);
            StreamCost(g.0) + LogCost(g.1) == |st.got| + |piece| + OpenCost(st.absolute, st.mtype)
  {
    var g := Gather(st, csid, piece);
    if g.1 != [] {
      assert g.1[1..] == [];
    }
  }

  lemma StepCost(s: State, d: seq<byte>)
    requires Valid(s)
    ensures var r := Step(s, d);
            r.used + InFlight(s.streams) >=
              InFlight(r.st.streams) + LogCost(r.msgs) + if Continues(s, d) then 1 else 0
    ensures forall i :: 0 <= i < MAX_CHUNK_ID && s.streams[i].left > 0 && !Continues(s, d) ==>
              Step(s, d).st.streams[i].left > 0
  {
    hide Step, Prepare, Complete, ReadHeader, InFlight;
    PrepareCost(s, d);
    if ReadHeader(d).Whole? {
      StepIsComplete(s, d);
      var h, p := ReadHeader(d).h, Prepare(s, d);
      HeaderCost(d);
      if IsComplete(p, h, d) {
        CompleteCost(p, h, StampOf(s, h), d);
        OthersStay(p, h, StampOf(s, h), d);
      }
    } else {
      StepWithoutHeader(s, d);
    }
  }

  lemma OthersStay(p: State, h: Header, stamp: u32, d: seq<byte>)
    requires Valid(p) && h.csid < MAX_CHUNK_ID && h.size < 0x100_0000 && IsComplete(p, h, d)
    ensures forall i :: 0 <= i < MAX_CHUNK_ID && i != h.csid ==>
              Complete(p, h, stamp, d).st.streams[i] == p.streams[i]
  {
    hide Handle, Gather;
  }

  /** Conservation over a run: the bytes used, together with what was in flight before,
      cover the payload and the opening header of every delivered message and of every
      message still in flight, and one byte for every chunk that continued a message. */
  lemma {:induction false} RunCost(s: State, d: seq<byte>)
    requires Valid(s)
    ensures var r := ParseAll(s, d);
            r.used + InFlight(s.streams) >= InFlight(r.st.streams) + LogCost(r.log) + Continuations(s, d)
    decreases |d|
  {
    hide Step, Continues, InFlight, LogCost;
    StepProgress(s, d);
    StepCost(s, d);
    var q := Step(s, d);
    if q.code == Done {
      RunCost(q.st, d[q.used..]);
      LogCostAppend(q.msgs, ParseAll(q.st, d[q.used..]).log);
    }
  }

  /** A message that is never continued stays in flight. */
  lemma {:induction false} StaysInFlight(s: State, d: seq<byte>, i: nat)
    requires Valid(s) && i < MAX_CHUNK_ID && s.streams[i].left > 0 && Continuations(s, d) == 0
    ensures ParseAll(s, d).st.streams[i].left > 0
    decreases |d|
  {
    hide Step, Continues, InFlight;
    StepProgress(s, d);
    StepCost(s, d);
    var q := Step(s, d);
    if q.code == Done {
      StaysInFlight(q.st, d[q.used..], i);
    }
  }
}
