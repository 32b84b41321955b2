/** The H.264 pictures of a whole run, with any other messages in between. */
module Pictures {
  import opened Bytes
  import opened Protocol
  import opened Amf0
  import opened Audio
  import opened Video
  import opened Commands
  import opened Handlers
  import opened Chunks
  import opened Frames

  /** The video packets among the effects. */
  function VideoPackets(outs: seq<Output>): seq<Packet> {
    if outs == [] then []
    else
      var last := outs[|outs| - 1];
      VideoPackets(outs[..|outs| - 1]) + if last.ToTs? && last.packet.kind == H264 then [last.packet] else []
  }

  lemma {:induction false} VideoPacketsBoth(a: seq<Output>, b: seq<Output>)
    ensures VideoPackets(a + b) == VideoPackets(a) + VideoPackets(b)
    decreases |b|
  {
    if b == [] {
      assert a + b == a;
    } else {
      VideoPacketsBoth(a, b[..|b| - 1]);
      assert (a + b)[..|a + b| - 1] == a + b[..|b| - 1];
    }
  }

  lemma {:induction false} NoVideoPackets(outs: seq<Output>)
    requires forall o :: o in outs ==> !o.ToTs? || o.packet.kind != H264
    ensures VideoPackets(outs) == []
    decreases |outs|
  {
    if outs != [] {
      NoVideoPackets(outs[..|outs| - 1]);
    }
  }

  lemma VideoOfPackets(ps: seq<Packet>)
    requires |ps| <= 1 && forall p :: p in ps ==> p.kind == H264
    ensures VideoPackets(Packets(ps)) == ps
  {
    if ps != [] {
      assert Packets(ps)[..0] == [];
    }
  }

  /** A message that carries a decoder configuration. */
  predicate IsRecord(m: Message) {
    m.mtype == 9 && |m.payload| >= 5 && m.payload[0] % 16 == 7 && m.payload[0] / 16 == 1 && m.payload[1] == 0
  }

  /** The parameter sets saved last. */
  function SavedSets(head: seq<byte>, log: seq<Message>): seq<byte> {
    if log == [] then head
    else
      var last := log[|log| - 1];
      if IsRecord(last) then SaveConfig(last.payload[5..]).head else SavedSets(head, log[..|log| - 1])
  }

  /** They are in start-code form when the record holds two sets that fit. */
  lemma SavedSetsAre(head: seq<byte>, front: seq<Message>, m: Message, later: seq<Message>,
                     fixed: seq<byte>, sps: seq<byte>, count: byte, pps: seq<byte>, rest: seq<byte>)
    requires IsRecord(m) && |fixed| == 6 && |sps| <= 256 && |pps| <= 256
    requires m.payload[5..] == ConfigRecord(fixed, sps, count, pps) + rest && forall n :: n in later ==> !IsRecord(n)
    ensures SavedSets(head, front + [m] + later) == AnnexB([sps, pps])
    decreases |later|
  {
    hide SaveConfig, ConfigRecord, IsRecord, AnnexB;
    var log := front + [m] + later;
    ConfigSavesParameterSets(fixed, sps, count, pps, rest);
    if later == [] {
      assert log == front + [m];
    } else {
      var less := later[..|later| - 1];
      SavedSetsAre(head, front, m, less, fixed, sps, count, pps, rest);
      assert log[..|log| - 1] == front + [m] + less;
    }
  }

  /** Only video messages concern the video handler. */
  lemma OneMessageShows(c: Control, m: Message)
    requires WellSized(m) && !c.saveFlv && Handle(c, m).code == Done
    ensures var h := Handle(c, m);
            && !h.ctl.saveFlv
            && if m.mtype == 9
               then HandleVideo(c.videoHead, m.payload, m.timeStamp) == VideoResult(Done, h.ctl.videoHead, VideoPackets(h.outs))
               else h.ctl.videoHead == c.videoHead && VideoPackets(h.outs) == []
  {
    if m.mtype == 9 {
      hide RewriteNals, SaveConfig, VideoPackets;
      PacketsAreVideo(c.videoHead, m.payload, m.timeStamp);
      VideoOfPackets(HandleVideo(c.videoHead, m.payload, m.timeStamp).packets);
    } else {
      BlindMessage(c, m);
    }
  }

  lemma PacketsAreVideo(head: seq<byte>, d: seq<byte>, timeStamp: u32)
    ensures var r := HandleVideo(head, d, timeStamp); |r.packets| <= 1 && forall p :: p in r.packets ==> p.kind == H264
  {
    hide RewriteNals;
  }

  lemma BlindMessage(c: Control, m: Message)
    requires WellSized(m) && !c.saveFlv && m.mtype != 9
    ensures var h := Handle(c, m); !h.ctl.saveFlv && h.ctl.videoHead == c.videoHead && VideoPackets(h.outs) == []
  {
    if m.mtype == 8 {
      BlindAudio(c.audio, m.payload, m.timeStamp);
    } else if m.mtype == 0x14 {
      BlindCommand(c, m.payload);
    }
  }

  lemma BlindAudio(st: AudioState, d: seq<byte>, timeStamp: u32)
    requires |st.head| == 7
    ensures VideoPackets(Packets(HandleAudio(st, d, timeStamp).packets)) == []
  {
    hide SavedHead, Patched, Restored;
    NoVideoPackets(Packets(HandleAudio(st, d, timeStamp).packets));
  }

  lemma BlindCommand(c: Control, d: seq<byte>)
    ensures var h := HandleCommand(c, d);
            h.ctl.saveFlv == c.saveFlv && h.ctl.videoHead == c.videoHead && VideoPackets(h.outs) == []
  {
    hide PopString, Is, CStr, CreateBundle, PlayBundle, IdByte, VideoPackets;
    NoVideoPackets(HandleCommand(c, d).outs);
  }

  lemma HeadAfter(head: seq<byte>, front: seq<Message>, m: Message)
    requires HandleVideo(SavedSets(head, front), m.payload, m.timeStamp).code == Done
    ensures m.mtype == 9 ==>
              HandleVideo(SavedSets(head, front), m.payload, m.timeStamp).head == SavedSets(head, front + [m])
  {
    hide RewriteNals, SaveConfig;
    assert (front + [m])[..|front|] == front;
  }

  lemma HeadStays(head: seq<byte>, front: seq<Message>, m: Message)
    requires m.mtype != 9
    ensures SavedSets(head, front + [m]) == SavedSets(head, front)
  {
    assert (front + [m])[..|front|] == front;
  }

  /** Over every run without failure the saved header is that of the last record. */
  lemma {:induction false} HeadOfRun(c: Control, log: seq<Message>)
    requires (forall m :: m in log ==> WellSized(m)) && !c.saveFlv && HandleAll(c, log).code == Done
    ensures var h := HandleAll(c, log); !h.ctl.saveFlv && h.ctl.videoHead == SavedSets(c.videoHead, log)
    decreases |log|
  {
    hide Handle, HandleVideo, HandleAll, WellSized, SavedSets, VideoPackets;
    if log == [] {
      NothingHandled(c);
      NothingSaved(c.videoHead);
    } else {
      var front, m := log[..|log| - 1], log[|log| - 1];
      assert log == front + [m];
      DoneParts(c, front, [m]);
      HeadOfRun(c, front);
      LastHandled(c, front, m);
      OneMessageShows(HandleAll(c, front).ctl, m);
      if m.mtype == 9 {
        HeadAfter(c.videoHead, front, m);
      } else {
        HeadStays(c.videoHead, front, m);
      }
    }
  }

  lemma NothingSaved(head: seq<byte>)
    ensures SavedSets(head, []) == head
  {
  }

  /** A video message of units: AVC, and not a decoder configuration. */
  predicate IsPicture(m: Message) {
    && m.mtype == 9 && |m.payload| >= 5 && m.payload[0] % 16 == 7 && !(m.payload[0] / 16 == 1 && m.payload[1] == 0)
    && UnitsFit(m.payload[5..])
  }

  /** The packet of a picture: its units behind start codes, its times and, on a key picture,
      the parameter sets. */
  predicate IsPicturePacket(p: Packet, m: Message, sets: seq<byte>)
    requires IsPicture(m)
  {
    var d := m.payload;
    var key := d[0] / 16 == 1;
    && p.kind == H264 && p.decodeMs == m.timeStamp && p.key == key && p.head == (if key then sets else [])
    && p.pictureMs == Add32(m.timeStamp, if Be24(d, 2) > 1000 then 0 else Be24(d, 2))
    && p.data == Marked(d[5..])
  }

  lemma OnePicture(head: seq<byte>, m: Message)
    requires IsPicture(m)
    ensures var r := HandleVideo(head, m.payload, m.timeStamp);
            r.code == Done && |r.packets| == 1 && IsPicturePacket(r.packets[0], m, head)
  {
    hide RewriteNals, Marked, UnitsFit, Add32, SaveConfig;
    RewriteMarksUnits(m.payload[5..]);
  }

  /** For every run, with any other messages in between and whether or not it ends with a
      failing handler: a picture is the next of the video packets among the effects, its
      units behind start codes, and in front of a key picture the parameter sets saved last. */
  lemma PicturesOfRun(c: Control, log: seq<Message>, k: nat)
    requires (forall m :: m in log ==> WellSized(m)) && !c.saveFlv
    requires k < |Kept(c, log)| && IsPicture(log[k])
    ensures forall m :: m in log[..k] ==> WellSized(m)
    ensures var before, all := VideoPackets(HandleAll(c, log[..k]).outs), VideoPackets(HandleAll(c, log).outs);
            before < all && IsPicturePacket(all[|before|], log[k], SavedSets(c.videoHead, log[..k]))
  {
    hide Handle, HandleAll, HandleVideo, Kept, WellSized, SavedSets, VideoPackets, UnitsFit, IsPicturePacket;
    KeptIsHandled(c, log);
    var kept, m := Kept(c, log), log[k];
    var front, now, rest := log[..k], log[..k + 1], kept[k + 1..];
    assert kept == now + rest && now == front + [m];
    DoneParts(c, now, rest);
    DoneParts(c, front, [m]);
    HeadOfRun(c, front);
    LastHandled(c, front, m);
    var mid := HandleAll(c, front);
    OneMessageShows(mid.ctl, m);
    OnePicture(mid.ctl.videoHead, m);
    VideoPacketsBoth(mid.outs, Handle(mid.ctl, m).outs);
    HandleBoth(c, now, rest);
    VideoPacketsBoth(HandleAll(c, now).outs, HandleAll(HandleAll(c, now).ctl, rest).outs);
  }
}
