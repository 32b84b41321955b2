/** From the sender's messages to the delivered ones, over any network. */
module EndToEnd {
  import opened Bytes
  import opened Protocol
  import opened Handlers
  import opened Chunks
  import opened Fragmentation
  import opened Demux

  /** A delivered message that differs in a relative time stamp only is the one that was sent. */
  lemma AlikeCarries(log: seq<Message>, other: seq<Message>, done: seq<OutMessage>)
    requires AlikeLog(log, other) && CarriesAll(other, done)
    ensures CarriesAll(log, done)
  {
    forall i | 0 <= i < |log|
      ensures Carries(log[i], done[i])
    {
      assert AlikeMessage(log[i], other[i]) && Carries(other[i], done[i]);
    }
  }

  /** One log is the start of the other, up to relative time stamps. */
  ghost predicate IsStartOf(log: seq<Message>, whole: seq<Message>) {
    |log| <= |whole| && AlikeLog(log, whole[..|log|])
  }

  /** The log of a part of a stream is the start of the log of the stream. */
  lemma PartOfRun(s: State, a: seq<byte>, b: seq<byte>)
    requires Valid(s)
    ensures IsStartOf(ParseAll(s, a).log, ParseAll(s, a + b).log)
  {
    hide *;
    if ParseAll(s, a).code == More {
      PartOfLongRun(s, a, b);
    } else {
      PartOfEndedRun(s, a, b);
    }
  }

  lemma PartOfLongRun(s: State, a: seq<byte>, b: seq<byte>)
    requires Valid(s) && ParseAll(s, a).code == More
    ensures IsStartOf(ParseAll(s, a).log, ParseAll(s, a + b).log)
  {
    hide *;
    ParseGrows(s, a, b);
    var r := ParseAll(s, a);
    StartOfRun(ParseAll(s, a + b), r, ParseAll(r.st, a[r.used..] + b));
  }

  lemma PartOfEndedRun(s: State, a: seq<byte>, b: seq<byte>)
    requires Valid(s) && ParseAll(s, a).code != More
    ensures IsStartOf(ParseAll(s, a).log, ParseAll(s, a + b).log)
  {
    hide *;
    ParseGrows(s, a, b);
    StartOfWhole(ParseAll(s, a + b), ParseAll(s, a));
  }

  lemma StartOfRun(whole: Run, r: Run, rest: Run)
    requires Valid(whole.st) && Valid(rest.st)
    requires AlikeRun(whole, Run(rest.code, rest.st, r.used + rest.used, r.log + rest.log, [], 0))
    ensures IsStartOf(r.log, whole.log)
  {
    hide Alike, AlikeMessage;
    forall i | 0 <= i < |r.log|
      ensures AlikeMessage(r.log[i], whole.log[..|r.log|][i])
    {
      AlikeBack(whole.log[i], (r.log + rest.log)[i]);
    }
  }

  lemma StartOfWhole(whole: Run, r: Run)
    requires Valid(whole.st) && Valid(r.st) && AlikeRun(whole, r)
    ensures IsStartOf(r.log, whole.log)
  {
    hide Alike, AlikeMessage;
    forall i | 0 <= i < |r.log|
      ensures AlikeMessage(r.log[i], whole.log[..|r.log|][i])
    {
      AlikeBack(whole.log[i], r.log[i]);
    }
  }

  lemma AlikeBack(m: Message, n: Message)
    requires AlikeMessage(m, n)
    ensures AlikeMessage(n, m)
  {
  }

  /** For every set of messages, every interleaving of their chunks, and every way the
      network cuts what has arrived so far: the client has delivered the first messages
      that were completed, each as it was sent; and when everything has arrived and no
      handler failed, it has delivered all of them and keeps nothing. */
  lemma AnyCutDelivers(snd: Sender, s: State, actions: seq<Action>, pieces: seq<seq<byte>>, later: seq<byte>)
    requires Mirrors(snd, s) && Schedule(snd, actions)
    requires Flatten(pieces) + later == EmitAll(snd, actions).bytes
    ensures var f := Feed(s, pieces); var done := EmitAll(snd, actions).done;
            && |f.log| <= |done| && CarriesAll(f.log, done[..|f.log|])
            && (later == [] && f.code == More ==> |f.log| == |done| && f.pending == [])
            && (f.code == Failed || f.code == Overread ==> f.log != [])
  {
    hide ParseAll, Feed, EmitAll, Mirrors, Schedule, HandleAll, Carries, AlikeMessage;
    MirrorsValid(snd, s);
    var e, f := EmitAll(snd, actions), Feed(s, pieces);
    var got := Flatten(pieces);
    Demultiplex(snd, s, actions);
    FragmentationIndependence(s, pieces);
    PartOfRun(s, got, later);
    var r, whole := ParseAll(s, got), ParseAll(s, e.bytes);
    AlikeLogTransitive(f.log, r.log, whole.log[..|r.log|]);
    CarriesPart(whole.log, e.done[..|whole.log|], |r.log|);
    assert e.done[..|whole.log|][..|r.log|] == e.done[..|r.log|];
    AlikeCarries(f.log, whole.log[..|r.log|], e.done[..|r.log|]);
    if later == [] {
      assert got + later == got;
    }
    if f.code != More {
      FailedWholly(s, got, later);
    }
  }

  /** Handlers do the same to the client over logs that differ in relative stamps only. */
  lemma {:induction false} HandleAllAlike(c: Control, a: seq<Message>, b: seq<Message>)
    requires AlikeLog(a, b) && (forall m :: m in a ==> WellSized(m)) && (forall m :: m in b ==> WellSized(m))
    ensures HandleAll(c, a).code == HandleAll(c, b).code && HandleAll(c, a).ctl == HandleAll(c, b).ctl
    decreases |a|
  {
    hide Handle, WellSized, AlikeMessage;
    if a != [] {
      HandleIgnoresStamp(c, a[0], b[0]);
      forall i | 0 <= i < |a[1..]|
        ensures AlikeMessage(a[1..][i], b[1..][i])
      {
        assert AlikeMessage(a[i + 1], b[i + 1]);
      }
      HandleAllAlike(Handle(c, a[0]).ctl, a[1..], b[1..]);
    }
  }

  /** Over the chunks of a schedule, the loop fails only because a handler has failed. */
  lemma OnlyHandlersFail(snd: Sender, s: State, actions: seq<Action>, pieces: seq<seq<byte>>, later: seq<byte>)
    requires Mirrors(snd, s) && Schedule(snd, actions)
    requires Flatten(pieces) + later == EmitAll(snd, actions).bytes
    ensures (forall m :: m in Feed(s, pieces).log ==> WellSized(m))
    ensures var f := Feed(s, pieces); f.code != More ==> HandleAll(s.ctl, f.log).code == f.code
  {
    hide *;
    MirrorsValid(snd, s);
    FeedIsHandled(s, pieces);
    if Feed(s, pieces).code != More {
      FailedWhole(s, pieces, later);
      Demultiplex(snd, s, actions);
      RunFailed(s.ctl, EmitAll(snd, actions), ParseAll(s, EmitAll(snd, actions).bytes));
      HandleAllAlike(s.ctl, Feed(s, pieces).log, ParseAll(s, EmitAll(snd, actions).bytes).log);
    }
  }

  lemma RunFailed(c: Control, e: Emitted, r: Run)
    requires (forall m :: m in r.log ==> WellSized(m)) && Demuxed(c, e, r) && r.code != More
    ensures HandleAll(c, r.log).code == r.code
  {
    hide HandleAll, CarriesAll, Mirrors;
  }

  /** A loop that has failed is as far as one parse of the whole stream gets. */
  lemma FailedWhole(s: State, pieces: seq<seq<byte>>, later: seq<byte>)
    requires Valid(s) && Feed(s, pieces).code != More
    ensures var f, r := Feed(s, pieces), ParseAll(s, Flatten(pieces) + later);
            f.code == r.code && AlikeLog(f.log, r.log)
  {
    hide ParseAll, Feed, Alike, AlikeMessage;
    FragmentationIndependence(s, pieces);
    var got := Flatten(pieces);
    ParseGrows(s, got, later);
    var r, whole := ParseAll(s, got), ParseAll(s, got + later);
    AlikeRunSymmetric(whole, r);
    AlikeLogTransitive(Feed(s, pieces).log, r.log, whole.log);
  }

  lemma CarriesPart(log: seq<Message>, done: seq<OutMessage>, n: nat)
    requires CarriesAll(log, done) && n <= |log|
    ensures CarriesAll(log[..n], done[..n])
  {
  }

  /** More bytes do not change a run that has failed. */
  lemma FailedWholly(s: State, a: seq<byte>, b: seq<byte>)
    requires Valid(s) && ParseAll(s, a).code != More
    ensures ParseAll(s, a + b).code != More && |ParseAll(s, a + b).log| == |ParseAll(s, a).log|
  {
    hide ParseAll;
    ParseGrows(s, a, b);
  }

  /** A client that has received nothing mirrors a sender that has sent nothing. */
  lemma FreshMirrors(s: State, snd: Sender)
    requires Valid(s) && s.ctl.maxChunk == snd.chunk && |snd.streams| == MAX_CHUNK_ID
    requires forall i :: 0 <= i < MAX_CHUNK_ID ==> s.streams[i].left == 0 && snd.streams[i].Idle?
    ensures Mirrors(snd, s)
  {
  }
}
