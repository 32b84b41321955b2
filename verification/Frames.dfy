/** The AAC frames of a whole run, with any other messages in between. */
module Frames {
  import opened Bytes
  import opened Protocol
  import opened Audio
  import opened Video
  import opened Amf0
  import opened Commands
  import opened Handlers
  import opened Chunks

  /** The audio messages of a log. */
  function AudioLog(log: seq<Message>): seq<(seq<byte>, u32)> {
    if log == [] then []
    else
      var last := log[|log| - 1];
      AudioLog(log[..|log| - 1]) + if last.mtype == 8 then [(last.payload, last.timeStamp)] else []
  }

  /** The packets among the effects that are not video. */
  function AudioPackets(outs: seq<Output>): seq<Packet> {
    if outs == [] then []
    else
      var last := outs[|outs| - 1];
      AudioPackets(outs[..|outs| - 1]) + if last.ToTs? && last.packet.kind != H264 then [last.packet] else []
  }

  lemma {:induction false} AudioPacketsBoth(a: seq<Output>, b: seq<Output>)
    ensures AudioPackets(a + b) == AudioPackets(a) + AudioPackets(b)
    decreases |b|
  {
    if b == [] {
      assert a + b == a;
    } else {
      AudioPacketsBoth(a, b[..|b| - 1]);
      assert (a + b)[..|a + b| - 1] == a + b[..|b| - 1];
    }
  }

  lemma {:induction false} NoAudioPackets(outs: seq<Output>)
    requires forall o :: o in outs ==> !o.ToTs? || o.packet.kind == H264
    ensures AudioPackets(outs) == []
    decreases |outs|
  {
    if outs != [] {
      NoAudioPackets(outs[..|outs| - 1]);
    }
  }

  lemma AudioOfPackets(ps: seq<Packet>)
    requires |ps| <= 1 && forall p :: p in ps ==> p.kind != H264
    ensures AudioPackets(Packets(ps)) == ps
  {
    if ps != [] {
      assert Packets(ps)[..0] == [];
    }
  }

  /** Only audio messages concern the audio handler. */
  lemma OneMessageSounds(c: Control, m: Message)
    requires WellSized(m) && !c.saveFlv && Handle(c, m).code == Done
    ensures var h := Handle(c, m);
            && !h.ctl.saveFlv
            && if m.mtype == 8
               then HandleAudio(c.audio, m.payload, m.timeStamp) == AudioResult(Done, h.ctl.audio, AudioPackets(h.outs))
               else h.ctl.audio == c.audio && AudioPackets(h.outs) == []
  {
    var h := Handle(c, m);
    if m.mtype == 8 {
      hide SavedHead, Patched, Restored, AudioPackets;
      AudioOfPackets(HandleAudio(c.audio, m.payload, m.timeStamp).packets);
    } else {
      SilentMessage(c, m);
    }
  }

  lemma SilentMessage(c: Control, m: Message)
    requires WellSized(m) && !c.saveFlv && m.mtype != 8
    ensures var h := Handle(c, m); !h.ctl.saveFlv && h.ctl.audio == c.audio && AudioPackets(h.outs) == []
  {
    if m.mtype == 9 {
      SilentVideo(c.videoHead, m.payload, m.timeStamp);
    } else if m.mtype == 0x14 {
      SilentCommand(c, m.payload);
    }
  }

  lemma SilentVideo(head: seq<byte>, d: seq<byte>, timeStamp: u32)
    ensures AudioPackets(Packets(HandleVideo(head, d, timeStamp).packets)) == []
  {
    hide RewriteNals;
    NoAudioPackets(Packets(HandleVideo(head, d, timeStamp).packets));
  }

  lemma SilentCommand(c: Control, d: seq<byte>)
    ensures var h := HandleCommand(c, d); h.ctl.saveFlv == c.saveFlv && h.ctl.audio == c.audio && AudioPackets(h.outs) == []
  {
    hide PopString, Is, CStr, CreateBundle, PlayBundle, IdByte, AudioPackets;
    NoAudioPackets(HandleCommand(c, d).outs);
  }

  /** Over every run without failure the audio handler has seen the audio messages, and
      its packets are those among the effects. */
  lemma {:induction false} AudioOfRun(c: Control, log: seq<Message>)
    requires (forall m :: m in log ==> WellSized(m)) && !c.saveFlv && HandleAll(c, log).code == Done
    ensures var h := HandleAll(c, log);
            && !h.ctl.saveFlv
            && AudioRun(c.audio, AudioLog(log)) == AudioResult(Done, h.ctl.audio, AudioPackets(h.outs))
    decreases |log|
  {
    hide Handle, HandleAudio, HandleAll, WellSized;
    if log == [] {
      NothingHandled(c);
    } else {
      var front, m := log[..|log| - 1], log[|log| - 1];
      assert log == front + [m];
      DoneParts(c, front, [m]);
      AudioOfRun(c, front);
      LastHandled(c, front, m);
      var mid := HandleAll(c, front);
      OneMessageSounds(mid.ctl, m);
      AudioPacketsBoth(mid.outs, Handle(mid.ctl, m).outs);
      SoundsNext(front, m);
      if m.mtype == 8 {
        RunNext(c.audio, AudioLog(front), m.payload, m.timeStamp);
      } else {
        assert AudioPackets(mid.outs) + [] == AudioPackets(mid.outs);
      }
    }
  }

  lemma SoundsNext(front: seq<Message>, m: Message)
    ensures AudioLog(front + [m]) == if m.mtype == 8 then AudioLog(front) + [(m.payload, m.timeStamp)] else AudioLog(front)
  {
    assert (front + [m])[..|front|] == front;
  }

  lemma RunNext(st: AudioState, log: seq<(seq<byte>, u32)>, d: seq<byte>, timeStamp: u32)
    requires |st.head| == 7 && AudioRun(st, log).code == Done
    ensures var mid := AudioRun(st, log); var last := HandleAudio(mid.st, d, timeStamp);
            AudioRun(st, log + [(d, timeStamp)]) == last.(packets := mid.packets + last.packets)
  {
    hide HandleAudio;
    assert (log + [(d, timeStamp)])[..|log|] == log;
  }

  lemma LastHandled(c: Control, front: seq<Message>, m: Message)
    requires (forall n :: n in front ==> WellSized(n)) && WellSized(m)
    requires HandleAll(c, front).code == Done && HandleAll(c, front + [m]).code == Done
    ensures var mid := HandleAll(c, front); var r := Handle(mid.ctl, m);
            r.code == Done && HandleAll(c, front + [m]) == Handled(Done, r.ctl, mid.outs + r.outs)
  {
    hide Handle, HandleAll;
    HandleBoth(c, front, [m]);
    OneHandled(HandleAll(c, front).ctl, [m]);
  }

  /** The packet of a frame: the payload behind a header that reads back as the
      configuration with the frame's length. */
  predicate IsFramePacket(p: Packet, m: Message, config: (byte, byte))
    requires |m.payload| >= 2
  {
    && p.kind == Aac && p.data == m.payload[2..] && p.pictureMs == p.decodeMs == m.timeStamp && |p.head| == 7
    && ReadAdts(p.head) == Some(Wanted(config.0, config.1, (|p.data| + 7) % 8192))
  }

  /** For every run, with any other messages in between and whether or not it ends with a
      failing handler: a frame is dropped as long as there was no configuration, and
      otherwise is the next of the audio packets among the effects, behind a header that
      reads back as the last configuration and the frame's own length. */
  lemma FramesOfRun(c: Control, log: seq<Message>, k: nat)
    requires (forall m :: m in log ==> WellSized(m)) && !c.saveFlv && !c.audio.ready
    requires k < |Kept(c, log)| && log[k].mtype == 8 && IsFrame(log[k].payload)
    ensures forall m :: m in log[..k] ==> WellSized(m)
    ensures var before, all := AudioPackets(HandleAll(c, log[..k]).outs), AudioPackets(HandleAll(c, log).outs);
            match LastConfig(AudioLog(log[..k]))
            case None => AudioPackets(HandleAll(c, log[..k + 1]).outs) == before
            case Some(config) => before < all && IsFramePacket(all[|before|], log[k], config)
  {
    hide Handle, HandleAll, HandleAudio, Kept, AudioRun, WellSized, ReadAdts, Wanted;
    KeptIsHandled(c, log);
    var kept, m := Kept(c, log), log[k];
    var front, now, rest := log[..k], log[..k + 1], kept[k + 1..];
    assert kept == now + rest && now == front + [m];
    DoneParts(c, now, rest);
    DoneParts(c, front, [m]);
    AudioOfRun(c, front);
    AudioOfRun(c, now);
    SoundsNext(front, m);
    FrameHeaders(c.audio, AudioLog(front), m.payload, m.timeStamp);
    HandleBoth(c, now, rest);
    AudioPacketsBoth(HandleAll(c, now).outs, HandleAll(HandleAll(c, now).ctl, rest).outs);
  }

  predicate IsOtherSound(d: seq<byte>) {
    d != [] && d[0] / 16 != 10
  }

  /** The packet of a sound that is not AAC: everything behind the tag byte, without a header. */
  predicate IsOtherPacket(p: Packet, m: Message) {
    m.payload != [] && p == Packet(Unset, m.timeStamp, m.timeStamp, [], m.payload[1..], false)
  }

  /** Among any other messages, what the audio handler makes of a message comes next. */
  lemma NextSound(c: Control, log: seq<Message>, k: nat)
    requires (forall m :: m in log ==> WellSized(m)) && !c.saveFlv
    requires k < |Kept(c, log)| && log[k].mtype == 8
    ensures forall m :: m in log[..k + 1] ==> WellSized(m)
    ensures forall m :: m in log[..k] ==> WellSized(m)
    ensures var before, now := HandleAll(c, log[..k]), AudioPackets(HandleAll(c, log[..k + 1]).outs);
            && now == AudioPackets(before.outs) + HandleAudio(before.ctl.audio, log[k].payload, log[k].timeStamp).packets
            && now <= AudioPackets(HandleAll(c, log).outs)
  {
    hide Handle, HandleAll, HandleAudio, Kept, WellSized, AudioPackets;
    KeptIsHandled(c, log);
    var kept, m := Kept(c, log), log[k];
    var front, now, rest := log[..k], log[..k + 1], kept[k + 1..];
    assert kept == now + rest && now == front + [m];
    DoneParts(c, now, rest);
    DoneParts(c, front, [m]);
    AudioOfRun(c, front);
    LastHandled(c, front, m);
    OneMessageSounds(HandleAll(c, front).ctl, m);
    AudioPacketsBoth(HandleAll(c, front).outs, Handle(HandleAll(c, front).ctl, m).outs);
    HandleBoth(c, now, rest);
    AudioPacketsBoth(HandleAll(c, now).outs, HandleAll(HandleAll(c, now).ctl, rest).outs);
  }

  /** For every run: a sound of another format is the next of the audio packets, whether or
      not there has been a configuration, and a configuration is none of them. */
  lemma OtherSoundsOfRun(c: Control, log: seq<Message>, k: nat)
    requires (forall m :: m in log ==> WellSized(m)) && !c.saveFlv
    requires k < |Kept(c, log)| && log[k].mtype == 8
    ensures forall m :: m in log[..k + 1] ==> WellSized(m)
    ensures forall m :: m in log[..k] ==> WellSized(m)
    ensures var before, all := AudioPackets(HandleAll(c, log[..k]).outs), AudioPackets(HandleAll(c, log).outs);
            && (IsOtherSound(log[k].payload) ==> before < all && IsOtherPacket(all[|before|], log[k]))
            && (IsConfig(log[k].payload) ==> AudioPackets(HandleAll(c, log[..k + 1]).outs) == before)
  {
    hide Handle, HandleAll, Kept, WellSized, AudioPackets, SavedHead, Patched, Restored;
    NextSound(c, log, k);
    var before := HandleAll(c, log[..k]);
    assert AudioPackets(before.outs) + [] == AudioPackets(before.outs);
  }
}
