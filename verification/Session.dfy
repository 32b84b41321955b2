/** The order of a session: which bundles go out, and when. */
module Session {
  import opened Bytes
  import opened Protocol
  import opened Amf0
  import opened Handlers
  import opened Audio
  import opened Video
  import opened MetaData
  import opened Commands
  import opened Outcomes
  import Flv
  import opened Chunks

  /** The bundles among the effects, in order. */
  function Bundles(outs: seq<Output>): seq<Bundle> {
    if outs == [] then []
    else BundleOf(outs[0]) + Bundles(outs[1..])
  }

  /** The bundles a session still owes in a status. */
  function Owed(s: Status): seq<Bundle> {
    if s == WaitConnect then [CreateStream, Play] else if s == WaitCreateStream then [Play] else []
  }

  /** A `_result` command. */
  predicate IsAnswer(m: Message) {
    m.mtype == 0x14 && Names(m.payload, "_result")
  }

  /** A message that moves a file-writing client straight to its last status. */
  predicate StartsFile(c: Control, m: Message) {
    c.saveFlv && IsMeta(m)
  }

  /** The answers in a log that arrive before metadata. */
  function Answers(c: Control, log: seq<Message>): nat {
    if log == [] || StartsFile(c, log[0]) then 0
    else (if IsAnswer(log[0]) then 1 else 0) + Answers(c, log[1..])
  }

  /** What one message does to the session. */
  lemma OneMessage(c: Control, m: Message)
    requires WellSized(m)
    ensures var h := Handle(c, m);
            && Rank(h.ctl.status) >= Rank(c.status)
            && h.ctl.saveFlv == c.saveFlv
            && (StartsFile(c, m) ==> h.ctl.status == WaitData && Bundles(h.outs) == [])
            && (!IsAnswer(m) && !StartsFile(c, m) ==> h.ctl.status == c.status && Bundles(h.outs) == [])
            && (IsAnswer(m) && Owed(c.status) == [] ==> h.ctl.status == c.status && Bundles(h.outs) == [])
            && (IsAnswer(m) && Owed(c.status) != [] ==>
                  if h.code == Done then Bundles(h.outs) + Owed(h.ctl.status) == Owed(c.status) && |Bundles(h.outs)| == 1
                  else h.ctl.status == c.status && Bundles(h.outs) == [])
  {
    hide Amf0.PopString, Is, CStr, Names, Handle, Bundles;
    if m.mtype == 0x14 {
      OneCommand(c, m);
    } else {
      NotCommand(c, m);
    }
  }

  lemma OneCommand(c: Control, m: Message)
    requires WellSized(m) && m.mtype == 0x14
    ensures var h := Handle(c, m);
            && Rank(h.ctl.status) >= Rank(c.status) && h.ctl.saveFlv == c.saveFlv
            && (!IsAnswer(m) || Owed(c.status) == [] ==> h.ctl.status == c.status && Bundles(h.outs) == [])
            && (IsAnswer(m) && Owed(c.status) != [] ==>
                  if h.code == Done then Bundles(h.outs) + Owed(h.ctl.status) == Owed(c.status) && |Bundles(h.outs)| == 1
                  else h.ctl.status == c.status && Bundles(h.outs) == [])
  {
    hide Amf0.PopString, Is, CStr, CreateBundle, PlayBundle, HandleStreamResult, Names;
    NamesIsPopped(m.payload, "_result");
    StreamResults(c, m.payload);
    var h := Handle(c, m);
    if h.outs != [] {
      assert h.outs[1..] == [];
    }
  }

  /** The answer to createStream is taken with one bundle, or fails with none. */
  lemma StreamResults(c: Control, payload: seq<byte>)
    ensures forall p :: Amf0.PopString(payload, 256) == Some(p) ==>
              var h := HandleStreamResult(c, payload[p.used..]);
              h.ctl.saveFlv == c.saveFlv &&
              if h.code == Done
              then h.ctl.status == WaitPlay && |h.outs| == 1 && h.outs[0].ToServer? && h.outs[0].bundle == Play
              else h.ctl == c && h.outs == []
  {
    hide Amf0.PopString, PlayBundle;
  }

  lemma NoBundles(outs: seq<Output>)
    requires forall i :: 0 <= i < |outs| ==> !outs[i].ToServer?
    ensures Bundles(outs) == []
  {
  }

  lemma NotCommand(c: Control, m: Message)
    requires WellSized(m) && m.mtype != 0x14
    ensures var h := Handle(c, m);
            && Bundles(h.outs) == [] && h.ctl.saveFlv == c.saveFlv
            && h.ctl.status == if StartsFile(c, m) then WaitData else c.status
  {
    hide Amf0.PopString, Is, CStr, HandleAudio, HandleVideo, ReadMeta, Flv.MetaTagBytes, Flv.TagBytes;
    NoBundles(Handle(c, m).outs);
  }

  function BundleOf(o: Output): seq<Bundle> {
    if o.ToServer? then [o.bundle] else []
  }

  lemma BundlesStep(outs: seq<Output>)
    ensures Bundles(outs) == if outs == [] then [] else BundleOf(outs[0]) + Bundles(outs[1..])
  {
  }

  lemma {:induction false} BundlesBoth(a: seq<Output>, b: seq<Output>)
    ensures Bundles(a + b) == Bundles(a) + Bundles(b)
  {
    hide Bundles, BundleOf;
    BundlesStep(a);
    if a == [] {
      assert a + b == b;
    } else {
      BundlesBoth(a[1..], b);
      BundlesStep(a + b);
      assert (a + b)[1..] == a[1..] + b;
    }
  }

  function Least(a: nat, b: nat): nat {
    if a <= b then a else b
  }

  /** The status has not fallen back; the bundles that went out are the first of those the
      session owed, no more than there were answers; and if no handler failed there are
      exactly as many, until nothing is owed. */
  ghost predicate InOrder(c: Control, h: Handled, answers: nat) {
    var n := Least(|Owed(c.status)|, answers);
    && Rank(h.ctl.status) >= Rank(c.status)
    && |Bundles(h.outs)| <= n && Bundles(h.outs) == Owed(c.status)[..|Bundles(h.outs)|]
    && (h.code == Done ==> |Bundles(h.outs)| == n)
  }

  /** Every run, whatever messages the server sends. */
  lemma {:induction false} SessionOrder(c: Control, log: seq<Message>)
    requires forall m :: m in log ==> WellSized(m)
    ensures InOrder(c, HandleAll(c, log), Answers(c, log))
    decreases |log|
  {
    hide Handle, IsAnswer, StartsFile, InOrder;
    if log == [] {
      NoMessage(c);
    } else {
      OneMessage(c, log[0]);
      var r := Handle(c, log[0]);
      if r.code == Done {
        SessionOrder(r.ctl, log[1..]);
        BundlesBoth(r.outs, HandleAll(r.ctl, log[1..]).outs);
        SameAnswers(c, r.ctl, log[1..]);
        FirstInOrder(c, log[0], r, HandleAll(r.ctl, log[1..]), Answers(r.ctl, log[1..]));
      } else {
        LastInOrder(c, log[0], r, Answers(c, log));
      }
    }
  }

  lemma NoMessage(c: Control)
    ensures InOrder(c, Handled(Done, c, []), 0)
  {
  }

  lemma LastInOrder(c: Control, m: Message, r: Handled, answers: nat)
    requires r.code != Done && Rank(r.ctl.status) >= Rank(c.status) && Bundles(r.outs) == []
    ensures InOrder(c, r, answers)
  {
  }

  lemma FirstInOrder(c: Control, m: Message, r: Handled, h: Handled, answers: nat)
    requires Rank(r.ctl.status) >= Rank(c.status) && InOrder(r.ctl, h, answers)
    requires StartsFile(c, m) ==> r.ctl.status == WaitData && Bundles(r.outs) == []
    requires (!StartsFile(c, m) && !IsAnswer(m)) || (Owed(c.status) == [] && IsAnswer(m)) ==>
               r.ctl.status == c.status && Bundles(r.outs) == []
    requires IsAnswer(m) && Owed(c.status) != [] ==>
               Bundles(r.outs) + Owed(r.ctl.status) == Owed(c.status) && |Bundles(r.outs)| == 1
    requires Bundles(r.outs + h.outs) == Bundles(r.outs) + Bundles(h.outs)
    ensures InOrder(c, h.(outs := r.outs + h.outs),
                    if StartsFile(c, m) then 0 else (if IsAnswer(m) then 1 else 0) + answers)
  {
    hide Bundles, Amf0.PopString, Is, CStr, Names;
    if IsAnswer(m) && Owed(c.status) != [] {
      var n := |Bundles(h.outs)|;
      assert (Bundles(r.outs) + Owed(r.ctl.status))[..1 + n] == Bundles(r.outs) + Owed(r.ctl.status)[..n];
    }
  }

  lemma {:induction false} SameAnswers(c: Control, d: Control, log: seq<Message>)
    requires c.saveFlv == d.saveFlv
    ensures Answers(c, log) == Answers(d, log)
  {
    if log != [] {
      SameAnswers(c, d, log[1..]);
    }
  }

  // ---------- told from the messages alone ----------

  /** The messages in front of the first that is not accepted. */
  function Accepted(p: Phase, log: seq<Message>): (r: seq<Message>)
    ensures r <= log
    decreases |log|
  {
    if log == [] || !Accepts(p, log[0]) then [] else [log[0]] + Accepted(Moved(p, log[0]), log[1..])
  }

  /** They are the ones that are handled well. */
  lemma {:induction false} KeptIsAccepted(c: Control, log: seq<Message>)
    requires forall m :: m in log ==> WellSized(m)
    ensures Kept(c, log) == Accepted(PhaseOf(c), log)
    decreases |log|
  {
    hide Handle, Accepts, Moved, WellSized;
    if log != [] {
      EndsWellExactlyWhen(c, log[0]);
      if Handle(c, log[0]).code == Done {
        MovesAs(c, log[0]);
        KeptIsAccepted(Handle(c, log[0]).ctl, log[1..]);
      }
    }
  }

  /** For every run: it goes well exactly if every message is accepted, and as many of the
      bundles owed go out as answers are accepted, no fewer and no more. */
  lemma AnswersBringBundles(c: Control, log: seq<Message>)
    requires forall m :: m in log ==> WellSized(m)
    ensures HandleAll(c, log).code == Done <==> Accepted(PhaseOf(c), log) == log
    ensures var n := Least(|Owed(c.status)|, Answers(c, Accepted(PhaseOf(c), log)));
            Bundles(HandleAll(c, log).outs) == Owed(c.status)[..n]
  {
    hide HandleAll, Kept, Accepted, Answers, Bundles;
    KeptIsAccepted(c, log);
    KeptIsHandled(c, log);
    SessionOrder(c, Kept(c, log));
  }
}
