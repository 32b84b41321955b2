/** A client from its beginning to the end of its receive loop. */
module Playing {
  import opened Bytes
  import opened Protocol
  import opened Handlers
  import opened Chunks
  import opened Fragmentation
  import opened Demux
  import opened Timestamps
  import opened EndToEnd
  import opened Retries
  import opened Room
  import opened Audio
  import opened Session
  import opened Outcomes
  import opened Network
  import opened Client
  import opened Commands
  import opened ClientRuns
  import opened Offers
  import Flv

  /** A server that has sent nothing yet, at the chunk size every connection starts with. */
  function NewSender(): (snd: Sender)
    ensures SenderOk(snd)
  {
    Sender(seq(MAX_CHUNK_ID, _ => Idle), 128)
  }

  /** What the handlers start from when connect is out. */
  function NewControl(saveFlv: bool, fileOpens: bool, stream: streamname): Control {
    Control(saveFlv, fileOpens, stream, WaitConnect, 128, 0, 0, Flv.ZERO, [],
            AudioState([0, 0, 0, 0, 0, 0, 0], false), false)
  }

  /** The state in which the first byte behind the handshake finds a new client. */
  function NewState(saveFlv: bool, fileOpens: bool, stream: streamname): (s: State)
    ensures Valid(s)
  {
    State(seq(MAX_CHUNK_ID, _ => NoStream()), 0, 0, 0, NewControl(saveFlv, fileOpens, stream))
  }

  /** Every message the server has sent so far was acceptable where it came. */
  ghost predicate AllAccepted(c: RtmpClient)
    reads c`log
  {
    Accepted(PhaseOf(NewControl(c.saveFlv, c.fileOpens, c.rtmpStream)), c.log) == c.log
  }

  /** Nothing stood in the way: every send went out, every message was acceptable, and the
      receives have ended with everything the server had. */
  ghost predicate Undisturbed(c: RtmpClient)
    reads c`log, c.rtmpSocket
  {
    AllSent(c.rtmpSocket.sends) && c.rtmpSocket.incoming == [] && AllAccepted(c)
  }

  /** Something was in the way: the receives ended, a send failed, or a message was not
      acceptable. */
  ghost predicate Disturbed(c: RtmpClient)
    reads c`log, c.rtmpSocket
  {
    c.rtmpSocket.ended || !AllSent(c.rtmpSocket.sends) || !AllAccepted(c)
  }

  /** The receive buffer is full, and starts with a chunk that does not fit it. */
  ghost predicate Stuck(c: RtmpClient)
    reads c, c.buffer, c.videoHeadData, c.audioHeadData
  {
    c.Shape() && ChunkTooLong(c.View(), c.buffer[..])
  }

  /** A new client, started against a server that sends a handshake of 3073 bytes and then
      the chunks of any schedule, over a network that delivers them in any pieces and may
      fail at any moment: what was delivered are the first of the messages that were
      completed, each as it was sent and stamped as its kind and the receives have it, and
      all of them if nothing stood in the way; what was sent are the first of the bundles,
      in order; and the client has only stopped because something was in the way or the
      server had ended, or is stuck with a chunk longer than its buffer, if one was sent. */
  method PlaySession(app: appname, url: urltext, stream: streamname, saveFlv: bool, fileOpens: bool, server: seq<byte>,
                     ghost handshake: seq<byte>, ghost actions: seq<Action>)
    returns (c: RtmpClient)
    requires |handshake| == HANDSHAKE && Schedule(NewSender(), actions)
    requires server == handshake + EmitAll(NewSender(), actions).bytes
    ensures fresh(c) && c.Valid() && server == Flatten(c.rtmpSocket.arrivals) + c.rtmpSocket.incoming
    ensures c.saveFlv == saveFlv && c.fileOpens == fileOpens && c.rtmpStream == stream && c.before == []
    ensures var done := EmitAll(NewSender(), actions).done;
            && |c.log| <= |done| && CarriesAll(c.log, done[..|c.log|])
            && (Undisturbed(c) ==> |c.log| == |done|)
    ensures Late(NewState(saveFlv, fileOpens, stream), actions,
                 AllRetried(NewSender(), actions, PiecesOf(c.rtmpSocket.arrivals)),
                 AllOrigins(NewSender(), actions), c.log, EmitAll(NewSender(), actions).done)
    ensures SentInOrder(c, Flatten(c.rtmpSocket.arrivals), AnswersAccepted(NewControl(saveFlv, fileOpens, stream), c.log))
    ensures Offering(c, 0, Said(NewControl(saveFlv, fileOpens, stream), c.log))
    ensures Disturbed(c) || (Stuck(c) && !ChunksFit(NewSender(), actions))
  {
    hide *;
    var socket := new Socket(server);
    NothingOffered();
    c := new RtmpClient(saveFlv, fileOpens, app, url, stream, socket);
    Usable(c);
    ViewStreams(c);
    ghost var s0 := c.View();
    ghost var s := s0.(ctl := s0.ctl.(maxChunk := 128));
    NewMirrors(s);
    StartedIs(s, saveFlv, fileOpens, stream);
    assert [] + [HELLO] == [HELLO];
    ghost var rcvd, stage;
    rcvd, stage := c.StartPlay();
    assert c.rtmpSocket.arrivals[0..] == c.rtmpSocket.arrivals;
    CameMeans(c.rtmpSocket.arrivals, rcvd, stage);
    Usable(c);
    ClientSession(c, rcvd, stage, s);
    ClientOffers(c, rcvd, stage, s);
    ghost var chunks := EmitAll(NewSender(), actions).bytes;
    match stage {
      case Connected(pieces) =>
        ConnectedMeans(c, rcvd, pieces, s);
        ghost var later := c.rtmpSocket.incoming;
        BehindHandshake(handshake, chunks, rcvd, later);
        ClientDelivers(c, rcvd, pieces, s, NewSender(), actions, later);
        NewIsIdle();
        ClientStamps(c, c.rtmpSocket.arrivals, rcvd, pieces, s, NewSender(), actions, later);
        ConnectedEnd(c, rcvd, pieces, s, actions);
      case _ =>
        NothingDelivered(c, rcvd, stage, s, EmitAll(NewSender(), actions).done);
        NothingLate(NewState(saveFlv, fileOpens, stream), actions, PiecesOf(c.rtmpSocket.arrivals));
        UnconnectedEnd(c, rcvd, stage, s);
    }
  }

  lemma CameMeans(arrivals: seq<seq<byte>>, rcvd: seq<byte>, stage: Stage)
    requires Came(arrivals, rcvd, stage)
    ensures rcvd == Flatten(arrivals) && (stage.Connected? ==> stage.pieces == PiecesOf(arrivals))
  {
    hide Flatten, PiecesOf;
  }

  lemma NothingLate(s: State, actions: seq<Action>, pieces: seq<seq<byte>>)
    requires Schedule(NewSender(), actions)
    ensures Late(s, actions, AllRetried(NewSender(), actions, pieces), AllOrigins(NewSender(), actions), [],
                 EmitAll(NewSender(), actions).done)
  {
    hide Schedule, EmitAll, AllRetried, Origins;
    assert actions[0..] == actions;
    OriginsLength(NewSender(), seq(MAX_CHUNK_ID, _ => 0), actions, 0);
  }

  lemma NothingOffered()
    ensures Offered([]) == []
  {
  }

  lemma StartedIs(s: State, saveFlv: bool, fileOpens: bool, stream: streamname)
    requires Valid(s) && s.lastAudio == 0 && s.lastVideo == 0 && s.lastType == 0
    requires forall i :: 0 <= i < MAX_CHUNK_ID ==> s.streams[i] == NoStream()
    requires s.ctl == Control(saveFlv, fileOpens, stream, Init, 128, 0, 0, Flv.ZERO, [],
                              AudioState([0, 0, 0, 0, 0, 0, 0], false), false)
    ensures Started(s, WaitConnect) == NewState(saveFlv, fileOpens, stream)
    ensures Started(s, WaitConnect).ctl == NewControl(saveFlv, fileOpens, stream)
  {
    assert s.streams == seq(MAX_CHUNK_ID, _ => NoStream());
  }

  lemma NewIsIdle()
    ensures forall i :: 0 <= i < MAX_CHUNK_ID ==> |NewSender().streams| == MAX_CHUNK_ID && NewSender().streams[i].Idle?
  {
  }

  lemma Usable(c: RtmpClient)
    requires c.Valid()
    ensures c.Shape() && c.Linked()
  {
  }

  lemma ViewStreams(c: RtmpClient)
    requires c.Shape()
    ensures Valid(c.View()) && c.View() == State(c.streams, c.rtmpLastAudioTimestamp, c.rtmpLastVideoTimestamp,
                                                 c.rtmpLastMessageType, c.Ctl())
  {
  }

  lemma NewMirrors(s: State)
    requires Valid(s) && s.ctl.maxChunk == 128
    requires forall i :: 0 <= i < MAX_CHUNK_ID ==> s.streams[i] == NoStream()
    ensures Mirrors(NewSender(), s)
  {
    FreshMirrors(s, NewSender());
  }

  lemma BehindHandshake(handshake: seq<byte>, chunks: seq<byte>, rcvd: seq<byte>, later: seq<byte>)
    requires |handshake| == HANDSHAKE <= |rcvd| && handshake + chunks == rcvd + later
    ensures rcvd[HANDSHAKE..] + later == chunks
  {
    assert (handshake + chunks)[HANDSHAKE..] == chunks;
    assert (rcvd + later)[HANDSHAKE..] == rcvd[HANDSHAKE..] + later;
  }

  lemma NothingDelivered(c: RtmpClient, rcvd: seq<byte>, stage: Stage, s: State, done: seq<OutMessage>)
    requires c.Shape() && Valid(s) && c.Received(rcvd, stage, s, [], [HELLO]) && !stage.Connected?
    ensures c.log == [] && CarriesAll([], done[..0])
  {
  }

  /** Behind the handshake the client stops only if something is in the way. */
  lemma ConnectedEnd(c: RtmpClient, rcvd: seq<byte>, pieces: seq<seq<byte>>, s: State, actions: seq<Action>)
    requires c.Shape() && Valid(s) && c.Received(rcvd, Connected(pieces), s, [], [HELLO])
    requires c.Stopped(rcvd, Connected(pieces), s) && Mirrors(NewSender(), s) && Schedule(NewSender(), actions)
    requires |rcvd| >= HANDSHAKE &&
             rcvd[HANDSHAKE..] + c.rtmpSocket.incoming == EmitAll(NewSender(), actions).bytes
    requires Started(s, WaitConnect).ctl == NewControl(c.saveFlv, c.fileOpens, c.rtmpStream)
    ensures Disturbed(c) || (Stuck(c) && !ChunksFit(NewSender(), actions))
    ensures Undisturbed(c) ==> c.rtmpSocket.incoming == [] && Feed(Started(s, WaitConnect), pieces).code == More
  {
    hide Feed, HandleAll, ConnectBytes, HelloBytes, EchoBytes, Mirrors, Schedule, EmitAll, WellSized, NewSender, NewControl,
      AllSent, Started, Flatten, ChunkTooLong, ChunksFit, Accepted, Answers, Bundles;
    var s0 := Started(s, WaitConnect);
    ConnectedMeans(c, rcvd, pieces, s);
    AnswersBringBundles(s0.ctl, c.log);
    MirrorsBehind(NewSender(), s);
    OnlyHandlersFail(NewSender(), s0, actions, pieces, c.rtmpSocket.incoming);
    if !c.rtmpSocket.ended && Feed(s0, pieces).code == More {
      FullIsTooLong(s0, pieces);
      if ChunksFit(NewSender(), actions) {
        FittingChunksLeaveRoom(NewSender(), s0, actions, pieces, c.rtmpSocket.incoming);
      }
    }
  }

  /** So it does before the handshake is over. */
  lemma UnconnectedEnd(c: RtmpClient, rcvd: seq<byte>, stage: Stage, s: State)
    requires c.Shape() && Valid(s) && c.Received(rcvd, stage, s, [], [HELLO]) && c.Stopped(rcvd, stage, s)
    requires !stage.Connected? && |rcvd| + |c.rtmpSocket.incoming| >= HANDSHAKE
    ensures Disturbed(c) && !Undisturbed(c)
  {
    hide HandleAll, ConnectBytes, HelloBytes, EchoBytes, WellSized, NewControl, AllSent;
  }
}
