/** What a client has done when its receive loop stands still, whatever the network did. */
module ClientRuns {
  import opened Bytes
  import opened Protocol
  import opened Handlers
  import opened Chunks
  import opened Fragmentation
  import opened Demux
  import opened Timestamps
  import opened EndToEnd
  import opened Retries
  import opened Audio
  import opened Frames
  import opened Pictures
  import opened Session
  import opened Outcomes
  import opened Network
  import opened Client
  import opened Commands
  import FlvFile

  lemma ConnectedMeans(c: RtmpClient, rcvd: seq<byte>, pieces: seq<seq<byte>>, s: State)
    requires c.Shape() && Valid(s) && c.Received(rcvd, Connected(pieces), s, [], [HELLO])
    ensures |rcvd| >= HANDSHAKE && Flatten(pieces) == rcvd[HANDSHAKE..] && c.log == Feed(Started(s, WaitConnect), pieces).log
    ensures (forall m :: m in c.log ==> WellSized(m)) && c.View() == Feed(Started(s, WaitConnect), pieces).st
    ensures c.outs == [HELLO] + c.Greeting() + HandleAll(Started(s, WaitConnect).ctl, c.log).outs
  {
    hide Feed, HandleAll, ConnectBytes, WellSized;
    FeedIsHandled(Started(s, WaitConnect), pieces);
  }

  /** The first 3073 bytes of a server that behind them sends the chunks of any schedule
      are skipped unseen, and of the rest the client has delivered the messages completed
      first, each with the chunk stream, type, payload and (if absolute) time it was sent with. */
  lemma ClientDelivers(c: RtmpClient, rcvd: seq<byte>, pieces: seq<seq<byte>>, s: State, snd: Sender,
                       actions: seq<Action>, later: seq<byte>)
    requires c.Shape() && Valid(s) && c.Received(rcvd, Connected(pieces), s, [], [HELLO])
    requires Mirrors(snd, s) && Schedule(snd, actions)
    requires |rcvd| >= HANDSHAKE && rcvd[HANDSHAKE..] + later == EmitAll(snd, actions).bytes
    ensures var done := EmitAll(snd, actions).done;
            && |c.log| <= |done| && CarriesAll(c.log, done[..|c.log|])
            && (later == [] && Feed(Started(s, WaitConnect), pieces).code == More ==> |c.log| == |done|)
  {
    hide *;
    ConnectedMeans(c, rcvd, pieces, s);
    MirrorsBehind(snd, s);
    AnyCutDelivers(snd, Started(s, WaitConnect), actions, pieces, later);
  }

  lemma MirrorsBehind(snd: Sender, s: State)
    requires Mirrors(snd, s) && Valid(s)
    ensures Mirrors(snd, Started(s, WaitConnect))
  {
  }

  /** Everything a session sends, in order. */
  const BUNDLES: seq<Bundle> := [C0C1, C2, Connect, CreateStream, Play]

  /** What the connection has been given is the first of the bundles, each once and in this
      order, byte for byte as recorded: C2 only when S0 and S1 have been received, connect
      only when the 3073 bytes of the handshake have, and from there on one more for each of
      the first two answers accepted, no fewer and no more. */
  ghost predicate SentInOrder(c: RtmpClient, rcvd: seq<byte>, answers: nat)
    reads c, c.rtmpSocket
  {
    var n := |Bundles(c.outs)|;
    && Offered(c.rtmpSocket.sends) == c.before + ServerBytes(c.outs)
    && 1 <= n <= 5 && Bundles(c.outs) == BUNDLES[..n]
    && (n >= 2 ==> |rcvd| >= 1537) && (n >= 3 ==> |rcvd| >= HANDSHAKE && n == 3 + Least(2, answers))
  }

  /** The answers among the messages in front of the first that is not accepted. */
  function AnswersAccepted(ctl: Control, log: seq<Message>): nat {
    Answers(ctl, Accepted(PhaseOf(ctl), log))
  }

  /** Whatever the server sends and however it arrives; and behind the handshake the status
      never falls back. */
  lemma ClientSession(c: RtmpClient, rcvd: seq<byte>, stage: Stage, s: State)
    requires c.Shape() && c.Linked() && Valid(s) && c.Received(rcvd, stage, s, [], [HELLO])
    ensures SentInOrder(c, rcvd, AnswersAccepted(Started(s, WaitConnect).ctl, c.log))
    ensures stage.Connected? ==> Rank(c.rtmpStatus) >= Rank(WaitConnect)
  {
    hide Feed, HandleAll, ConnectBytes, WellSized, Answers, HelloBytes, EchoBytes, Bundles, ServerBytes, Offered,
      AllSent, StartsFile, IsAnswer, Accepted;
    OneBundle(HELLO);
    match stage {
      case Handshaking =>
        TwoBundles(HELLO, ECHO);
        assert BUNDLES[..1] == [C0C1] && BUNDLES[..2] == [C0C1, C2];
        assert [HELLO] + [ECHO] == [HELLO, ECHO];
      case Refused =>
        ConnectFirst(c);
        NothingAccepted(Started(s, WaitConnect).ctl);
        assert BUNDLES[..3] == [C0C1, C2, Connect];
      case Connected(pieces) =>
        ConnectedMeans(c, rcvd, pieces, s);
        FeedIsHandled(Started(s, WaitConnect), pieces);
        SessionOrder(Started(s, WaitConnect).ctl, c.log);
        AnswersBringBundles(Started(s, WaitConnect).ctl, c.log);
        BehindConnect(c, HandleAll(Started(s, WaitConnect).ctl, c.log).outs);
    }
  }

  lemma NothingAccepted(ctl: Control)
    ensures AnswersAccepted(ctl, []) == 0
  {
  }

  lemma OneBundle(o: Output)
    requires o.ToServer?
    ensures Bundles([o]) == [o.bundle]
  {
    assert [o][1..] == [];
  }

  lemma TwoBundles(o: Output, p: Output)
    requires o.ToServer? && p.ToServer?
    ensures Bundles([o, p]) == [o.bundle, p.bundle]
  {
    OneBundle(o);
    OneBundle(p);
    BundlesBoth([o], [p]);
    assert [o] + [p] == [o, p];
  }

  lemma ConnectFirst(c: RtmpClient)
    ensures Bundles([HELLO] + c.Greeting()) == [C0C1, C2, Connect]
  {
    hide ConnectBytes, HelloBytes, EchoBytes, Bundles;
    OneBundle(HELLO);
    TwoBundles(ECHO, ToServer(Connect, ConnectBytes(c.rtmpApp, c.rtmpUrl)));
    BundlesBoth([HELLO], c.Greeting());
  }

  lemma BehindConnect(c: RtmpClient, outs: seq<Output>)
    requires c.outs == [HELLO] + c.Greeting() + outs
    requires |Bundles(outs)| <= 2 && Bundles(outs) == [CreateStream, Play][..|Bundles(outs)|]
    ensures Bundles(c.outs) == BUNDLES[..3 + |Bundles(outs)|]
  {
    hide ConnectBytes, HelloBytes, EchoBytes, Bundles;
    ConnectFirst(c);
    BundlesBoth([HELLO] + c.Greeting(), outs);
  }

  /** The same down to the file, for a client that saves one, whether or not a handler has
      failed: if one onMetaData was handled, the file reads as the metadata tag and one tag
      for each audio or video message handled behind it.  All messages delivered were
      handled well except perhaps the last. */
  lemma ClientFile(c: RtmpClient, rcvd: seq<byte>, pieces: seq<seq<byte>>, s: State, snd: Sender,
                   actions: seq<Action>, later: seq<byte>, k: nat)
    requires c.Shape() && Valid(s) && c.Received(rcvd, Connected(pieces), s, [], [HELLO])
    requires Mirrors(snd, s) && Schedule(snd, actions) && s.ctl.saveFlv && !s.ctl.flvOpen
    requires |rcvd| >= HANDSHAKE && rcvd[HANDSHAKE..] + later == EmitAll(snd, actions).bytes
    requires FlvFile.AllWellSized(c.log) && FlvFile.OneMeta(Kept(Started(s, WaitConnect).ctl, c.log), k)
    ensures var kept := Kept(Started(s, WaitConnect).ctl, c.log);
            && |kept| + 1 >= |c.log|
            && FlvFile.ReadFile(FlvFile.FileBytes(c.outs)) == Some(FlvFile.Media(FlvFile.FileTags(kept, k)))
  {
    hide Feed, HandleAll, Kept, ConnectBytes, HelloBytes, EchoBytes, Mirrors, Schedule, EmitAll, WellSized, ServerBytes,
      FlvFile.FileBytes, FlvFile.OneMeta, FlvFile.ReadFile, FlvFile.FileTags, CarriesAll;
    ConnectedMeans(c, rcvd, pieces, s);
    MirrorsBehind(snd, s);
    FlvFile.StreamToFile(snd, Started(s, WaitConnect), actions, pieces, later, k);
    FlvFile.SplitAt(Kept(Started(s, WaitConnect).ctl, c.log), k);
    NotToFile([HELLO] + c.Greeting(), HandleAll(Started(s, WaitConnect).ctl, c.log).outs);
  }

  lemma NotToFile(sent: seq<Output>, outs: seq<Output>)
    requires forall o :: o in sent ==> !o.ToFile?
    ensures FlvFile.FileBytes(sent + outs) == FlvFile.FileBytes(outs)
  {
    FlvFile.FileBytesBoth(sent, outs);
    FlvFile.NothingForFile(sent);
  }

  /** And for a client that feeds the transport-stream writer: each AAC frame among the
      messages handled well is dropped as long as there was no configuration, and otherwise
      is the next of the audio packets, behind a header that reads back as the last
      configuration and the frame's own length. */
  lemma ClientFrames(c: RtmpClient, rcvd: seq<byte>, pieces: seq<seq<byte>>, s: State, k: nat)
    requires c.Shape() && Valid(s) && c.Received(rcvd, Connected(pieces), s, [], [HELLO])
    requires (forall m :: m in c.log ==> WellSized(m)) && !s.ctl.saveFlv && !s.ctl.audio.ready
    requires k < |Kept(Started(s, WaitConnect).ctl, c.log)| && c.log[k].mtype == 8 && IsFrame(c.log[k].payload)
    ensures forall m :: m in c.log[..k] ==> WellSized(m)
    ensures var ctl := Started(s, WaitConnect).ctl;
            var before, all := AudioPackets(HandleAll(ctl, c.log[..k]).outs), AudioPackets(c.outs);
            match LastConfig(AudioLog(c.log[..k]))
            case None => AudioPackets(HandleAll(ctl, c.log[..k + 1]).outs) == before
            case Some(config) => before < all && IsFramePacket(all[|before|], c.log[k], config)
  {
    hide Feed, HandleAll, Kept, ConnectBytes, HelloBytes, EchoBytes, WellSized, ServerBytes, AudioPackets, AudioLog,
      LastConfig, IsFrame;
    ConnectedMeans(c, rcvd, pieces, s);
    var ctl := Started(s, WaitConnect).ctl;
    FramesOfRun(ctl, c.log, k);
    NotSound([HELLO] + c.Greeting(), HandleAll(ctl, c.log).outs);
  }

  /** Each sound of another format is the next of the audio packets, as it was sent behind
      its tag byte; and no configuration is. */
  lemma ClientSounds(c: RtmpClient, rcvd: seq<byte>, pieces: seq<seq<byte>>, s: State, k: nat)
    requires c.Shape() && Valid(s) && c.Received(rcvd, Connected(pieces), s, [], [HELLO])
    requires (forall m :: m in c.log ==> WellSized(m)) && !s.ctl.saveFlv
    requires k < |Kept(Started(s, WaitConnect).ctl, c.log)| && c.log[k].mtype == 8
    ensures forall m :: m in c.log[..k + 1] ==> WellSized(m)
    ensures forall m :: m in c.log[..k] ==> WellSized(m)
    ensures var ctl := Started(s, WaitConnect).ctl;
            var before, all := AudioPackets(HandleAll(ctl, c.log[..k]).outs), AudioPackets(c.outs);
            && (IsOtherSound(c.log[k].payload) ==> before < all && IsOtherPacket(all[|before|], c.log[k]))
            && (IsConfig(c.log[k].payload) ==> AudioPackets(HandleAll(ctl, c.log[..k + 1]).outs) == before)
  {
    hide Feed, HandleAll, Kept, ConnectBytes, HelloBytes, EchoBytes, WellSized, ServerBytes, AudioPackets, IsOtherSound,
      IsOtherPacket, IsConfig;
    ConnectedMeans(c, rcvd, pieces, s);
    var ctl := Started(s, WaitConnect).ctl;
    OtherSoundsOfRun(ctl, c.log, k);
    NotSound([HELLO] + c.Greeting(), HandleAll(ctl, c.log).outs);
  }

  lemma NotSound(sent: seq<Output>, outs: seq<Output>)
    requires forall o :: o in sent ==> !o.ToTs?
    ensures AudioPackets(sent + outs) == AudioPackets(outs)
  {
    AudioPacketsBoth(sent, outs);
    NoAudioPackets(sent);
  }

  /** And each H.264 picture among them is the next of the video packets, its units behind
      start codes, and in front of a key picture the parameter sets saved last. */
  lemma ClientPictures(c: RtmpClient, rcvd: seq<byte>, pieces: seq<seq<byte>>, s: State, k: nat)
    requires c.Shape() && Valid(s) && c.Received(rcvd, Connected(pieces), s, [], [HELLO])
    requires (forall m :: m in c.log ==> WellSized(m)) && !s.ctl.saveFlv
    requires k < |Kept(Started(s, WaitConnect).ctl, c.log)| && IsPicture(c.log[k])
    ensures forall m :: m in c.log[..k] ==> WellSized(m)
    ensures var ctl := Started(s, WaitConnect).ctl;
            var before, all := VideoPackets(HandleAll(ctl, c.log[..k]).outs), VideoPackets(c.outs);
            before < all && IsPicturePacket(all[|before|], c.log[k], SavedSets(s.ctl.videoHead, c.log[..k]))
  {
    hide Feed, HandleAll, Kept, ConnectBytes, HelloBytes, EchoBytes, WellSized, ServerBytes, VideoPackets, SavedSets,
      IsPicture, IsPicturePacket;
    ConnectedMeans(c, rcvd, pieces, s);
    var ctl := Started(s, WaitConnect).ctl;
    PicturesOfRun(ctl, c.log, k);
    NotSeen([HELLO] + c.Greeting(), HandleAll(ctl, c.log).outs);
  }

  lemma NotSeen(sent: seq<Output>, outs: seq<Output>)
    requires forall o :: o in sent ==> !o.ToTs?
    ensures VideoPackets(sent + outs) == VideoPackets(outs)
  {
    VideoPacketsBoth(sent, outs);
    NoVideoPackets(sent);
  }

  /** The stamps of everything the client has delivered, with every retry that the receives
      as they came have caused: each is late by what was added again since the last absolute
      stamp of its kind, and right exactly if that is a multiple of 2^32. */
  lemma ClientStamps(c: RtmpClient, arrivals: seq<seq<byte>>, rcvd: seq<byte>, pieces: seq<seq<byte>>, s: State, snd: Sender,
                     actions: seq<Action>, later: seq<byte>)
    requires c.Shape() && Valid(s) && c.Received(rcvd, Connected(pieces), s, [], [HELLO])
    requires Mirrors(snd, s) && Schedule(snd, actions) && (forall i :: 0 <= i < MAX_CHUNK_ID ==> snd.streams[i].Idle?)
    requires |rcvd| >= HANDSHAKE && rcvd[HANDSHAKE..] + later == EmitAll(snd, actions).bytes
    requires Came(arrivals, rcvd, Connected(pieces))
    ensures Late(Started(s, WaitConnect), actions, AllRetried(snd, actions, PiecesOf(arrivals)), AllOrigins(snd, actions),
                 c.log, EmitAll(snd, actions).done)
  {
    hide PiecesOf, Feed, HandleAll, ConnectBytes, HelloBytes, EchoBytes, Mirrors, Schedule, EmitAll, WellSized, ServerBytes,
      Late, AllRetried, AllOrigins, Flatten;
    ConnectedMeans(c, rcvd, pieces, s);
    MirrorsBehind(snd, s);
    MirrorsValid(snd, s);
    FeedStamps(snd, Started(s, WaitConnect), actions, pieces, later);
  }
}
