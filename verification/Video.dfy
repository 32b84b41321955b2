/** The H.264 path: rewriting length-prefixed NAL units into start-code form in place,
    and saving SPS and PPS from the decoder configuration. */
module Video {
  import opened Bytes
  import opened Protocol

  const START_CODE: seq<byte> := [0, 0, 0, 1]

  datatype NalResult = NalResult(ok: bool, bytes: seq<byte>)

  /** What the rewriting loop makes of the bytes it is given.  The step is computed
      in 32 bits, so a length word of 0xFFFFFFFC or more advances by 0 to 3 bytes. */
  function RewriteNals(d: seq<byte>): (r: NalResult)
    ensures |r.bytes| == |d|
    decreases |d|, if |d| >= 4 && Be32(d, 0) == 0xFFFF_FFFC then 1 else 0
  {
    if |d| <= 4 then NalResult(true, d)
    else
      var step := Add32(Be32(d, 0), 4);
      if step > |d| then NalResult(false, d)
      else
        var marked := START_CODE + d[4..];
        var rest := RewriteNals(marked[step..]);
        NalResult(rest.ok, marked[..step] + rest.bytes)
  }

  /** Where the loop ends. */
  lemma RewriteEnd(d: seq<byte>)
    requires |d| <= 4 || Add32(Be32(d, 0), 4) > |d|
    ensures RewriteNals(d) == NalResult(|d| <= 4, d)
  {
  }

  /** One round of the loop, seen from outside. */
  lemma RewriteRound(d: seq<byte>, step: nat, marked: seq<byte>)
    requires |d| > 4 && step == Add32(Be32(d, 0), 4) <= |d| && marked == START_CODE + d[4..]
    ensures RewriteNals(d) == NalResult(RewriteNals(marked[step..]).ok, marked[..step] + RewriteNals(marked[step..]).bytes)
  {
    hide Be32, Add32;
  }

  /** A step of zero is followed by one of five. */
  lemma StepOfZero(d: seq<byte>, marked: seq<byte>)
    requires |d| > 4 && Add32(Be32(d, 0), 4) == 0 && marked == START_CODE + d[4..]
    ensures Be32(d, 0) == 0xFFFF_FFFC && Be32(marked, 0) == 1
  {
    StepOfWord(Be32(d, 0));
  }

  lemma ReadRest(m: seq<byte>, off: nat, front: seq<byte>, rest: seq<byte>)
    requires off + |front| + |rest| <= |m|
    ensures Splice(m, off, front + rest)[off + |front|..off + |front| + |rest|] == rest
  {
    var d := front + rest;
    ReadStored(m, off, d, off + |front|, off + |d|);
    assert d[|front|..] == rest;
  }

  lemma Advance(front: seq<byte>, marked: seq<byte>, step: nat, tail: seq<byte>)
    requires step <= |marked|
    ensures front + marked == front + marked[..step] + marked[step..]
    ensures front + (marked[..step] + tail) == front + marked[..step] + tail
  {
    assert marked == marked[..step] + marked[step..];
  }

  /** The rewriting loop over mem[off..off + len]. */
  method RewriteInPlace(mem: array<byte>, off: nat, len: nat) returns (ok: bool)
    requires off + len <= mem.Length
    modifies mem
    ensures ok == RewriteNals(old(mem[..])[off..off + len]).ok
    ensures mem[..] == Splice(old(mem[..]), off, RewriteNals(old(mem[..])[off..off + len]).bytes)
  {
    hide RewriteNals, Add32, Splice;
    ghost var m := mem[..];
    ghost var whole := RewriteNals(m[off..off + len]);
    ghost var front, rest: seq<byte> := [], m[off..off + len];
    var data: nat, dataLen: nat := off, len;
    SpliceItself(m, off, len);
    assert front + rest == rest;
    while dataLen > 4
      invariant |front| == data - off && |rest| == dataLen && data + dataLen == off + len
      invariant mem[..] == Splice(m, off, front + rest)
      invariant RewriteNals(rest).ok == whole.ok && front + RewriteNals(rest).bytes == whole.bytes
      decreases dataLen, if dataLen > 4 && Be32(rest, 0) == 0xFFFF_FFFC then 1 else 0
    {
      ReadRest(m, off, front, rest);
      var step := Add32(Be32(mem[..][data..off + len], 0), 4);
      if step > dataLen {
        RewriteEnd(rest);
        return false;
      }
      Store(mem, data, START_CODE);
      SpliceInside(m, off, front, rest, START_CODE);
      ghost var marked := START_CODE + rest[4..];
      RewriteRound(rest, step, marked);
      if step == 0 {
        StepOfZero(rest, marked);
      }
      Advance(front, marked, step, RewriteNals(marked[step..]).bytes);
      data, dataLen := data + step, dataLen - step;
      front, rest := front + marked[..step], marked[step..];
    }
    RewriteEnd(rest);
    return true;
  }

  /** NAL units with 4-byte lengths (ISO/IEC 14496-15, section 5.3.4.2). */
  function Avcc(nals: seq<seq<byte>>): seq<byte>
    requires forall n :: n in nals ==> |n| < 0xFFFF_FFFC
  {
    if nals == [] then [] else ToBe32(|nals[0]|) + nals[0] + Avcc(nals[1..])
  }

  /** NAL units behind start codes (ITU-T H.264, section B.1.1). */
  function AnnexB(nals: seq<seq<byte>>): seq<byte> {
    if nals == [] then [] else START_CODE + nals[0] + AnnexB(nals[1..])
  }

  lemma UnitShape(n: seq<byte>, rest: seq<byte>)
    requires |n| < 0xFFFF_FFFC
    ensures var d := ToBe32(|n|) + n + rest; var marked := START_CODE + d[4..];
            Add32(Be32(d, 0), 4) == |n| + 4 && marked[|n| + 4..] == rest && marked[..|n| + 4] == START_CODE + n
  {
    var d := ToBe32(|n|) + n + rest;
    assert d[4..] == n + rest;
  }

  /** One unit in front of anything is rewritten on its own. */
  lemma RewriteUnit(n: seq<byte>, rest: seq<byte>)
    requires |n| < 0xFFFF_FFFC && |n| + |rest| > 0
    ensures RewriteNals(ToBe32(|n|) + n + rest) ==
            NalResult(RewriteNals(rest).ok, START_CODE + n + RewriteNals(rest).bytes)
  {
    hide RewriteNals, Add32, Be32, ToBe32;
    UnitShape(n, rest);
    var d := ToBe32(|n|) + n + rest;
    RewriteRound(d, |n| + 4, START_CODE + d[4..]);
  }

  lemma SameLength(nals: seq<seq<byte>>)
    requires forall n :: n in nals ==> |n| < 0xFFFF_FFFC
    ensures |Avcc(nals)| == |AnnexB(nals)|
    ensures nals != [] ==> |Avcc(nals)| >= 4
  {
  }

  /** The loop accepts every list of units with up to 4 bytes behind it, and turns it into
      start-code form exactly when it does not end in an empty unit: the loop stops with 4
      bytes left. */
  lemma {:induction false} RewriteIsAnnexB(nals: seq<seq<byte>>, tail: seq<byte>)
    requires (forall n :: n in nals ==> |n| < 0xFFFF_FFFC) && |tail| <= 4
    ensures RewriteNals(Avcc(nals) + tail).ok
    ensures RewriteNals(Avcc(nals) + tail).bytes == AnnexB(nals) + tail <==>
            tail != [] || nals == [] || nals[|nals| - 1] != []
  {
    hide RewriteNals, Avcc, AnnexB;
    NoUnits();
    if nals == [] {
      assert [] + tail == tail;
      RewriteEnd(tail);
    } else {
      var n, rest := nals[0], nals[1..];
      FirstUnit(nals, tail);
      RewriteIsAnnexB(rest, tail);
      SameLength(rest);
      if n == [] && rest == [] && tail == [] {
        EmptyUnit();
        RewriteEnd([0, 0, 0, 0]);
        assert ToBe32(0) + [] + ([] + []) == [0, 0, 0, 0] && START_CODE + [] + ([] + []) == START_CODE;
        assert [0, 0, 0, 0][3] != START_CODE[3];
      } else {
        RewriteUnit(n, Avcc(rest) + tail);
        SameBehind(START_CODE + n, RewriteNals(Avcc(rest) + tail).bytes, AnnexB(rest) + tail);
        if rest != [] {
          assert rest[|rest| - 1] == nals[|nals| - 1];
        }
      }
    }
  }

  lemma EmptyUnit()
    ensures ToBe32(0) == [0, 0, 0, 0]
  {
  }

  lemma NoUnits()
    ensures Avcc([]) == [] && AnnexB([]) == []
  {
  }

  lemma FirstUnit(nals: seq<seq<byte>>, tail: seq<byte>)
    requires nals != [] && forall n :: n in nals ==> |n| < 0xFFFF_FFFC
    ensures Avcc(nals) + tail == ToBe32(|nals[0]|) + nals[0] + (Avcc(nals[1..]) + tail)
    ensures AnnexB(nals) + tail == START_CODE + nals[0] + (AnnexB(nals[1..]) + tail)
  {
    hide ToBe32;
  }

  lemma SameBehind(front: seq<byte>, a: seq<byte>, b: seq<byte>)
    ensures front + a == front + b <==> a == b
  {
    assert (front + a)[|front|..] == a && (front + b)[|front|..] == b;
  }

  // ---------- any bytes ----------

  /** Units that end where the message ends, or up to 4 bytes in front of it. */
  predicate UnitsFit(d: seq<byte>)
    decreases |d|
  {
    |d| <= 4 || (UnitSize(d) <= |d| && UnitsFit(d[UnitSize(d)..]))
  }

  /** The size of the unit at the start.  A length word of 0xFFFFFFFC + n moves on by n bytes
      only, to where the start code just written is read as the next length. */
  function UnitSize(d: seq<byte>): (size: nat)
    requires |d| > 4
    ensures size > 0
  {
    var word := Be32(d, 0);
    if word < 0xFFFF_FFFC then word + 4 else WrappedSize(d, word - 0xFFFF_FFFC)
  }

  function WrappedSize(d: seq<byte>, n: nat): (size: nat)
    requires |d| > 4 && n < 4
    ensures size > 0
  {
    if |d| <= n + 4 then |d| else n + Be32(START_CODE[n..] + d[4..n + 4], 0) + 4
  }

  /** Every unit with a start code in place of its length.  Where the length wraps, the bytes
      that were moved over keep the front of an earlier start code. */
  function Marked(d: seq<byte>): (r: seq<byte>)
    requires UnitsFit(d)
    decreases |d|
  {
    if |d| <= 4 then d else MarkedUnit(d) + Marked(d[UnitSize(d)..])
  }

  function MarkedUnit(d: seq<byte>): seq<byte>
    requires |d| > 4 && UnitSize(d) <= |d|
  {
    var word := Be32(d, 0);
    if word < 0xFFFF_FFFC then START_CODE + d[4..word + 4]
    else
      var n := word - 0xFFFF_FFFC;
      if |d| <= n + 4 then START_CODE + d[4..] else START_CODE[..n] + START_CODE + d[n + 4..UnitSize(d)]
  }

  lemma StepOfWord(word: u32)
    ensures Add32(word, 4) == if word < 0xFFFF_FFFC then word + 4 else word - 0xFFFF_FFFC
  {
  }

  lemma FewBytes(d: seq<byte>)
    requires |d| <= 4
    ensures UnitsFit(d) && Marked(d) == d
  {
  }

  lemma UnitStep(d: seq<byte>)
    requires |d| > 4
    ensures UnitsFit(d) <==> UnitSize(d) <= |d| && UnitsFit(d[UnitSize(d)..])
    ensures UnitsFit(d) ==> Marked(d) == MarkedUnit(d) + Marked(d[UnitSize(d)..])
  {
    hide UnitSize, MarkedUnit;
  }

  /** What the loop makes of d, told from the bytes as they came. */
  ghost predicate RewritesAs(d: seq<byte>, r: NalResult) {
    (r.ok <==> UnitsFit(d)) && (r.ok ==> r.bytes == Marked(d))
  }

  /** The loop fails exactly if the units do not fit, and otherwise marks each of them,
      whatever the bytes are. */
  lemma {:induction false} RewriteMarksUnits(d: seq<byte>)
    ensures RewritesAs(d, RewriteNals(d))
    decreases |d|, 2
  {
    hide RewriteNals, UnitsFit, Marked, Be32, Add32;
    if |d| <= 4 {
      RewriteEnd(d);
      FewBytes(d);
    } else {
      StepOfWord(Be32(d, 0));
      if Be32(d, 0) < 0xFFFF_FFFC {
        PlainUnits(d, Be32(d, 0));
      } else {
        WrappedUnits(d, Be32(d, 0) - 0xFFFF_FFFC);
      }
    }
  }

  lemma {:induction false} PlainUnits(d: seq<byte>, word: nat)
    requires |d| > 4 && word == Be32(d, 0) < 0xFFFF_FFFC
    ensures RewritesAs(d, RewriteNals(d))
    decreases |d|, 0
  {
    hide RewriteNals, UnitsFit, Marked, Be32, Add32;
    StepOfWord(word);
    UnitStep(d);
    if word + 4 > |d| {
      RewriteEnd(d);
    } else {
      var marked := START_CODE + d[4..];
      RewriteRound(d, word + 4, marked);
      assert marked[word + 4..] == d[word + 4..] && marked[..word + 4] == START_CODE + d[4..word + 4];
      RewriteMarksUnits(d[word + 4..]);
    }
  }

  lemma WrappedUnit(d: seq<byte>, n: nat)
    requires |d| > 4 && n < 4 && Be32(d, 0) == 0xFFFF_FFFC + n
    ensures UnitSize(d) == if |d| <= n + 4 then |d| else n + Be32(START_CODE[n..] + d[4..n + 4], 0) + 4
    ensures UnitSize(d) <= |d| ==>
              MarkedUnit(d) == if |d| <= n + 4 then START_CODE + d[4..]
                               else START_CODE[..n] + START_CODE + d[n + 4..UnitSize(d)]
  {
    hide Be32;
  }

  /** The round behind a wrapped length. */
  lemma {:induction false} WrappedUnits(d: seq<byte>, n: nat)
    requires |d| > 4 && n < 4 && Be32(d, 0) == 0xFFFF_FFFC + n
    ensures RewritesAs(d, RewriteNals(d))
    decreases |d|, 1
  {
    hide *;
    if |d| <= n + 4 {
      WrappedEnd(d, n);
    } else {
      WrappedOn(d, n);
    }
  }

  lemma WrappedEnd(d: seq<byte>, n: nat)
    requires 4 < |d| <= n + 4 && n < 4 && Be32(d, 0) == 0xFFFF_FFFC + n
    ensures RewritesAs(d, RewriteNals(d))
  {
    hide RewriteNals, UnitsFit, Marked, MarkedUnit, UnitSize, Be32, Add32;
    StepOfWord(Be32(d, 0));
    UnitStep(d);
    WrappedUnit(d, n);
    var marked := START_CODE + d[4..];
    RewriteRound(d, n, marked);
    RewriteEnd(marked[n..]);
    FewBytes(d[|d|..]);
    assert marked[..n] + marked[n..] == marked == marked + d[|d|..];
  }

  lemma {:induction false} WrappedOn(d: seq<byte>, n: nat)
    requires |d| > n + 4 && n < 4 && Be32(d, 0) == 0xFFFF_FFFC + n
    ensures RewritesAs(d, RewriteNals(d))
    decreases |d|, 0
  {
    hide *;
    var marked := START_CODE + d[4..];
    StepOfWord(Be32(d, 0));
    RewriteRound(d, n, marked);
    var e := marked[n..];
    var next := NextWord(d, n);
    var fits := n + next + 4 <= |d|;
    WrappedUnit(d, n);
    UnitStep(d);
    if fits {
      BehindNext(d, n, next);
      RewriteRound(e, next + 4, START_CODE + e[4..]);
      RewriteMarksUnits(d[n + next + 4..]);
      RewritesParts(d[n + next + 4..]);
      Joined(START_CODE[..n], START_CODE, d[n + 4..n + next + 4], RewriteNals(d[n + next + 4..]).bytes);
    } else {
      RewriteEnd(e);
    }
    RewritesWhen(d);
  }

  lemma RewritesParts(d: seq<byte>)
    requires RewritesAs(d, RewriteNals(d))
    ensures RewriteNals(d).ok <==> UnitsFit(d)
    ensures RewriteNals(d).ok ==> RewriteNals(d).bytes == Marked(d)
  {
    hide RewriteNals, UnitsFit, Marked;
  }

  lemma RewritesWhen(d: seq<byte>)
    requires RewriteNals(d).ok <==> UnitsFit(d)
    requires RewriteNals(d).ok ==> RewriteNals(d).bytes == Marked(d)
    ensures RewritesAs(d, RewriteNals(d))
  {
    hide RewriteNals, UnitsFit, Marked;
  }

  lemma Joined(a: seq<byte>, b: seq<byte>, c: seq<byte>, d: seq<byte>)
    ensures a + ((b + c) + d) == (a + b + c) + d
  {
  }

  lemma BehindNext(d: seq<byte>, n: nat, next: nat)
    requires |d| > n + 4 && n < 4 && n + next + 4 <= |d|
    ensures var marked := START_CODE + (START_CODE + d[4..])[n..][4..];
            marked[next + 4..] == d[n + next + 4..] && marked[..next + 4] == START_CODE + d[n + 4..n + next + 4]
    ensures (START_CODE + d[4..])[..n] == START_CODE[..n]
  {
    assert (START_CODE + d[4..])[n..][4..] == d[n + 4..];
  }

  lemma NextWord(d: seq<byte>, n: nat) returns (next: nat)
    requires |d| > n + 4 && n < 4
    ensures next == Be32(START_CODE[n..] + d[4..n + 4], 0) == Be32((START_CODE + d[4..])[n..], 0)
    ensures Add32(next, 4) == next + 4
  {
    var word, e := START_CODE[n..] + d[4..n + 4], (START_CODE + d[4..])[n..];
    assert word[0] == e[0] && word[1] == e[1] && word[2] == e[2] && word[3] == e[3];
    next := Be32(word, 0);
    assert word[0] <= 1;
  }

  /** A list of units with up to 4 bytes behind it is marked as its start-code form, exactly
      when it does not end in an empty unit. */
  lemma MarkedIsAnnexB(nals: seq<seq<byte>>, tail: seq<byte>)
    requires (forall n :: n in nals ==> |n| < 0xFFFF_FFFC) && |tail| <= 4
    ensures UnitsFit(Avcc(nals) + tail)
    ensures Marked(Avcc(nals) + tail) == AnnexB(nals) + tail <==> tail != [] || nals == [] || nals[|nals| - 1] != []
  {
    hide RewriteNals, UnitsFit, Marked, Avcc, AnnexB;
    RewriteIsAnnexB(nals, tail);
    RewriteMarksUnits(Avcc(nals) + tail);
  }

  datatype VideoResult = VideoResult(code: Code, head: seq<byte>, packets: seq<Packet>)

  /** Saving the parameter sets; d is the configuration record behind the 5-byte tag header. */
  function SaveConfig(d: seq<byte>): VideoResult {
    if |d| < 8 then VideoResult(Failed, START_CODE, [])
    else
      var sps := Be16(d, 6);
      if sps > 256 then VideoResult(Failed, START_CODE, [])
      else if |d| < 11 + sps then VideoResult(Overread, START_CODE, [])
      else
        var first := START_CODE + d[8..8 + sps] + START_CODE;
        var pps := Be16(d, 9 + sps);
        if pps > 256 then VideoResult(Failed, first, [])
        else if |d| < 11 + sps + pps then VideoResult(Overread, first, [])
        else VideoResult(Done, first + d[11 + sps..11 + sps + pps], [])
  }

  /** The whole handler; head is what has been saved from an earlier configuration. */
  function HandleVideo(head: seq<byte>, d: seq<byte>, timeStamp: u32): VideoResult {
    if |d| < 1 then VideoResult(Overread, head, [])
    else if d[0] % 16 != 7 then VideoResult(Failed, head, [])
    else if |d| < 5 then VideoResult(Overread, head, [])
    else if d[0] / 16 == 1 && d[1] == 0 then SaveConfig(d[5..])
    else
      var key := d[0] / 16 == 1;
      var offset := if Be24(d, 2) > 1000 then 0 else Be24(d, 2);
      var nals := RewriteNals(d[5..]);
      if !nals.ok then VideoResult(Failed, head, [])
      else VideoResult(Done, head, [Packet(H264, Add32(timeStamp, offset), timeStamp,
                                           if key then head else [], nals.bytes, key)])
  }

  /** The configuration record with one SPS and one PPS (ISO/IEC 14496-15, section 5.2.4.1);
      fixed holds the six bytes in front of the SPS length. */
  function ConfigRecord(fixed: seq<byte>, sps: seq<byte>, count: byte, pps: seq<byte>): seq<byte>
    requires |fixed| == 6 && |sps| < 0x1_0000 && |pps| < 0x1_0000
  {
    fixed + ToBe16(|sps|) + sps + [count] + ToBe16(|pps|) + pps
  }

  /** A configuration record, whatever follows it, is saved as the start-code form of its two
      parameter sets, exactly when neither is longer than 256 bytes. */
  lemma ConfigSavesParameterSets(fixed: seq<byte>, sps: seq<byte>, count: byte, pps: seq<byte>, rest: seq<byte>)
    requires |fixed| == 6 && |sps| < 0x1_0000 && |pps| < 0x1_0000
    ensures var r := SaveConfig(ConfigRecord(fixed, sps, count, pps) + rest);
            r == VideoResult(Done, AnnexB([sps, pps]), []) <==> |sps| <= 256 && |pps| <= 256
  {
    hide SaveConfig, AnnexB, ToBe16, ConfigRecord;
    var d := ConfigRecord(fixed, sps, count, pps) + rest;
    ConfigFields(fixed, sps, count, pps, rest);
    SavedFields(d, |sps|, |pps|);
    TwoUnits(sps, pps);
  }

  lemma ConfigFields(fixed: seq<byte>, sps: seq<byte>, count: byte, pps: seq<byte>, rest: seq<byte>)
    requires |fixed| == 6 && |sps| < 0x1_0000 && |pps| < 0x1_0000
    ensures var d := ConfigRecord(fixed, sps, count, pps) + rest;
            && |d| >= |sps| + |pps| + 11 && Be16(d, 6) == |sps| && Be16(d, |sps| + 9) == |pps|
            && d[8..|sps| + 8] == sps && d[|sps| + 11..|sps| + |pps| + 11] == pps
  {
    hide ToBe16;
    var d := ConfigRecord(fixed, sps, count, pps) + rest;
    assert d[6..8] == ToBe16(|sps|);
    assert d[|sps| + 9..|sps| + 11] == ToBe16(|pps|);
  }

  lemma SavedFields(d: seq<byte>, sps: nat, pps: nat)
    requires |d| >= sps + pps + 11 && Be16(d, 6) == sps && Be16(d, sps + 9) == pps
    ensures SaveConfig(d).code == Done <==> sps <= 256 && pps <= 256
    ensures sps <= 256 && pps <= 256 ==>
              SaveConfig(d) == VideoResult(Done, START_CODE + d[8..sps + 8] + START_CODE + d[sps + 11..sps + pps + 11], [])
  {
    hide Be16;
  }

  lemma TwoUnits(a: seq<byte>, b: seq<byte>)
    ensures AnnexB([a, b]) == START_CODE + a + START_CODE + b
  {
    assert [a, b][1..] == [b];
    assert AnnexB([b]) == START_CODE + b;
    assert AnnexB([a, b]) == START_CODE + a + AnnexB([b]);
  }

  /** memcpy at the end of what has been stored in head so far. */
  method Append(head: array<byte>, headLen: nat, s: seq<byte>) returns (newLen: nat)
    requires headLen + |s| <= head.Length
    modifies head
    ensures newLen == headLen + |s| && head[..newLen] == old(head[..headLen]) + s
  {
    ghost var h := head[..];
    Store(head, headLen, s);
    newLen := headLen + |s|;
    assert head[..newLen] == head[..][..newLen];
  }

  /** Saves the parameter sets of the record d in the emptied head buffer. */
  method SaveInPlace(d: seq<byte>, head: array<byte>) returns (code: Code, headLen: nat)
    requires head.Length >= 520
    modifies head
    ensures headLen <= head.Length
    ensures VideoResult(code, head[..headLen], []) == SaveConfig(d)
  {
    headLen := Append(head, 0, START_CODE);
    assert head[..headLen] == START_CODE;
    if |d| < 8 {
      return Failed, headLen;
    }
    var sps := Be16(d, 6);
    if sps > 256 {
      return Failed, headLen;
    }
    if |d| < 11 + sps {
      return Overread, headLen;
    }
    headLen := Append(head, headLen, d[8..8 + sps]);
    headLen := Append(head, headLen, START_CODE);
    var pps := Be16(d, 9 + sps);
    if pps > 256 {
      return Failed, headLen;
    }
    if |d| < 11 + sps + pps {
      return Overread, headLen;
    }
    headLen := Append(head, headLen, d[11 + sps..11 + sps + pps]);
    return Done, headLen;
  }

  /** The handler over a message that lies in mem[off..off + len]; head[..headLen] is
      the saved configuration. */
  method ProcessVideo(mem: array<byte>, off: nat, len: nat, head: array<byte>, headLen: nat, timeStamp: u32)
    returns (code: Code, newLen: nat, packets: seq<Packet>)
    requires off + len <= mem.Length && headLen <= head.Length && head.Length >= 520 && mem != head
    modifies mem, head
    ensures newLen <= head.Length
    ensures VideoResult(code, head[..newLen], packets) ==
            HandleVideo(old(head[..headLen]), old(mem[..])[off..off + len], timeStamp)
    ensures Outside(old(mem[..]), mem[..], off, len)
  {
    hide RewriteNals, SaveConfig, Splice;
    var d := mem[..][off..off + len];
    newLen, packets := headLen, [];
    if len < 1 {
      return Overread, newLen, packets;
    }
    if d[0] % 16 != 7 {
      return Failed, newLen, packets;
    }
    if len < 5 {
      return Overread, newLen, packets;
    }
    var key := d[0] / 16 == 1;
    var offset := Be24(d, 2);
    if offset > 1000 {
      offset := 0;
    }
    if key && d[1] == 0 {
      code, newLen := SaveInPlace(d[5..], head);
      return code, newLen, packets;
    }
    ghost var m := mem[..];
    var ok := RewriteInPlace(mem, off + 5, len - 5);
    assert m[off + 5..off + len] == d[5..];
    ghost var nals := RewriteNals(d[5..]);
    SpliceOutside(m, off + 5, nals.bytes, off, len);
    if !ok {
      return Failed, newLen, packets;
    }
    ReadStored(m, off + 5, nals.bytes, off + 5, off + len);
    assert nals.bytes[0..len - 5] == nals.bytes;
    packets := [Packet(H264, Add32(timeStamp, offset), timeStamp,
                       if key then head[..headLen] else [], mem[..][off + 5..off + len], key)];
    return Done, newLen, packets;
  }
}
