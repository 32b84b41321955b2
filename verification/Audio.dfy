/** The AAC path: an ADTS header is built from the audio configuration and patched
    with the length of every frame. */
module Audio {
  import opened Bytes
  import opened Protocol

  /** What an ADTS header says (ISO/IEC 13818-7, section 6.2). */
  datatype Adts = Adts(profile: nat, sampling: nat, channels: nat, length: nat)

  /** Reading a header without CRC. */
  function ReadAdts(h: seq<byte>): (r: Option<Adts>)
    requires |h| == 7
  {
    if h[0] == 0xFF && h[1] == 0xF1
    then Some(Adts(h[2] / 64, h[2] / 4 % 16, h[2] as int % 2 * 4 + h[3] as int / 64,
                   h[3] as int % 4 * 2048 + h[4] as int * 8 + h[5] as int / 32))
    else None
  }

  /** An AudioSpecificConfig of two bytes (ISO/IEC 14496-3, section 1.6.2.1): five bits of
      object type, four of sampling frequency index, four of channel configuration. */
  datatype Config = Config(objectType: nat, sampling: nat, channels: nat)

  function ReadConfig(c2: byte, c3: byte): Config {
    var word := c2 as int * 0x100 + c3 as int;
    Config(word / 0x800, word / 0x80 % 16, word / 8 % 16)
  }

  /** What the header is to say: the object type is stored minus one in two bits, the
      channel configuration in three. */
  function Wanted(c2: byte, c3: byte, length: nat): Adts {
    var config := ReadConfig(c2, c3);
    Adts((config.objectType - 1) % 4, config.sampling, config.channels % 8, length)
  }

  /** The header saved from a configuration. */
  function SavedHead(c2: byte, c3: byte): (h: seq<byte>)
    ensures |h| == 7
  {
    var profile := (c2 / 8 + 3) % 4;
    var sampling := c2 % 8 * 2 + c3 / 128;
    var channels := c3 / 8 % 16;
    [0xFF, 0xF1, profile * 64 + sampling * 4 + channels / 4 % 2, channels % 4 * 64, 0, 0, 0]
  }

  /** Bitwise or with a value of two bits. */
  function OrLow(b: byte, v: nat): byte
    requires v < 4
  {
    b / 4 * 4 + (if b / 2 % 2 + v / 2 > 0 then 2 else 0) + (if b % 2 + v % 2 > 0 then 1 else 0)
  }

  /** The header while one frame is handed on: the length is entered into bytes 3 to 5. */
  function Patched(h: seq<byte>, length: nat): (r: seq<byte>)
    requires |h| == 7
    ensures |r| == 7
  {
    [h[0], h[1], h[2], OrLow(h[3], length / 2048 % 4), length / 8 % 256, length % 8 * 32, h[6]]
  }

  /** The header afterwards: only byte 3 is put back. */
  function Restored(h: seq<byte>, length: nat): (r: seq<byte>)
    requires |h| == 7
    ensures |r| == 7
  {
    Patched(h, length)[3 := h[3]]
  }

  /** The part of the client that the audio handler keeps. */
  datatype AudioState = AudioState(head: seq<byte>, ready: bool)

  datatype AudioResult = AudioResult(code: Code, st: AudioState, packets: seq<Packet>)

  function HandleAudio(st: AudioState, d: seq<byte>, timeStamp: u32): (r: AudioResult)
    requires |st.head| == 7
    ensures |r.st.head| == 7
  {
    if |d| < 1 then AudioResult(Overread, st, [])
    else if d[0] / 16 != 10 then
      var length := |d| - 1 + if st.ready then 7 else 0;
      AudioResult(Done, st.(head := Restored(st.head, length)),
                  [Packet(Unset, timeStamp, timeStamp, [], d[1..], false)])
    else if |d| < 2 then AudioResult(Overread, st, [])
    else if !st.ready && d[1] != 0 then AudioResult(Done, st, [])
    else if d[1] == 0 then
      if |d| < 4 then AudioResult(Overread, st, [])
      else AudioResult(Done, AudioState(SavedHead(d[2], d[3]), true), [])
    else
      var length := |d| - 2 + if st.ready then 7 else 0;
      AudioResult(Done, st.(head := Restored(st.head, length)),
                  [Packet(Aac, timeStamp, timeStamp, Patched(st.head, length), d[2..], false)])
  }

  predicate IsConfig(d: seq<byte>) {
    |d| >= 4 && d[0] / 16 == 10 && d[1] == 0
  }

  predicate IsFrame(d: seq<byte>) {
    |d| >= 2 && d[0] / 16 == 10 && d[1] != 0
  }

  /** The header belongs to the configuration (c2, c3): everything but the length is as
      saved, and no length bits are left in byte 3. */
  predicate Follows(st: AudioState, c2: byte, c3: byte) {
    st.ready && |st.head| == 7 && st.head[..4] == SavedHead(c2, c3)[..4] && st.head[6] == 0
  }

  /** A patched header reads back as the configuration with the frame's length, which is
      right below 8192 and wraps from there on. */
  lemma PatchedReadsBack(st: AudioState, c2: byte, c3: byte, length: nat)
    requires Follows(st, c2, c3)
    ensures ReadAdts(Patched(st.head, length)) == Some(Wanted(c2, c3, length % 8192))
    ensures Follows(st.(head := Restored(st.head, length)), c2, c3)
  {
    hide ReadAdts, Wanted, Patched, SavedHead;
    var h, saved := st.head, SavedHead(c2, c3);
    assert h[0] == h[..4][0] && h[1] == h[..4][1] && h[2] == h[..4][2] && h[3] == h[..4][3];
    PatchedSays(h, c2, c3, length);
    FrontIsRestored(h, length);
  }

  lemma FrontIsRestored(h: seq<byte>, length: nat)
    requires |h| == 7
    ensures Restored(h, length)[..4] == h[..4] && Restored(h, length)[6] == h[6]
  {
    hide OrLow;
  }

  lemma PatchedSays(h: seq<byte>, c2: byte, c3: byte, length: nat)
    requires |h| == 7
    requires var saved := SavedHead(c2, c3); h[0] == saved[0] && h[1] == saved[1] && h[2] == saved[2] && h[3] == saved[3]
    ensures ReadAdts(Patched(h, length)) == Some(Wanted(c2, c3, length % 8192))
  {
    hide OrLow, ReadConfig;
    var v, channels := length / 2048 % 4, c3 / 8 % 16;
    SavedBytes(c2, c3);
    ConfigFields(c2, c3);
    FieldsOfByte2(c2, c3);
    FieldsOfByte3(c3, length);
    LengthFields(length);
    FieldsAre(Patched(h, length), Wanted(c2, c3, length % 8192));
  }

  lemma SavedBytes(c2: byte, c3: byte)
    ensures var h := SavedHead(c2, c3); h[0] == 0xFF && h[1] == 0xF1 && h[3] == c3 / 8 % 16 % 4 * 64
  {
  }

  lemma FieldsAre(h: seq<byte>, a: Adts)
    requires |h| == 7 && h[0] == 0xFF && h[1] == 0xF1
    requires h[2] / 64 == a.profile && h[2] / 4 % 16 == a.sampling && h[2] as int % 2 * 4 + h[3] as int / 64 == a.channels
    requires h[3] as int % 4 * 2048 + h[4] as int * 8 + h[5] as int / 32 == a.length
    ensures ReadAdts(h) == Some(a)
  {
  }

  lemma FieldsOfByte2(c2: byte, c3: byte)
    ensures var h := SavedHead(c2, c3); var w := Wanted(c2, c3, 0);
            h[2] / 64 == w.profile && h[2] / 4 % 16 == w.sampling && h[2] % 2 == c3 / 8 % 16 / 4 % 2
  {
    hide ReadConfig;
    ConfigFields(c2, c3);
    Byte2((c2 / 8 + 3) % 4, c2 % 8 * 2 + c3 / 128, c3 / 8 % 16 / 4 % 2);
  }

  lemma Byte2(profile: nat, sampling: nat, channel: nat)
    requires profile < 4 && sampling < 16 && channel < 2
    ensures var b := profile * 64 + sampling * 4 + channel; b / 64 == profile && b / 4 % 16 == sampling && b % 2 == channel
  {
    var b := profile * 64 + sampling * 4 + channel;
    assert b / 4 == profile * 16 + sampling;
  }

  lemma ConfigFields(c2: byte, c3: byte)
    ensures ReadConfig(c2, c3) == Config(c2 / 8, c2 % 8 * 2 + c3 / 128, c3 / 8 % 16)
    ensures (c2 / 8 - 1) % 4 == (c2 / 8 + 3) % 4
  {
    var a, r := c2 / 8, c2 % 8;
    var p, q := c3 / 128, c3 % 128;
    var word := c2 as int * 0x100 + c3 as int;
    Quotients(a, r * 0x100 + c3, c2 * 2 + p, q, c2 * 0x20 + c3 / 8, c3 % 8);
    assert word == a * 0x800 + (r * 0x100 + c3) == (c2 * 2 + p) * 0x80 + q == (c2 * 0x20 + c3 / 8) * 8 + c3 % 8;
    assert c2 * 2 + p == a * 16 + (r * 2 + p);
    LowFour(a, r * 2 + p);
    assert c3 / 8 == p * 16 + q / 8 && q / 8 < 16;
    LowFour(c2 * 2 + p, q / 8);
    LowFour(p, q / 8);
    MinusOne(a);
  }

  lemma Quotients(a: nat, r: nat, b: nat, q: nat, e: nat, f: nat)
    requires r < 0x800 && q < 0x80 && f < 8
    ensures (a * 0x800 + r) / 0x800 == a && (b * 0x80 + q) / 0x80 == b && (e * 8 + f) / 8 == e
  {
  }

  lemma LowFour(g: nat, h: nat)
    requires h < 16
    ensures (g * 16 + h) % 16 == h
  {
  }

  lemma MinusOne(a: nat)
    ensures (a - 1) % 4 == (a + 3) % 4
  {
  }

  lemma FieldsOfByte3(c3: byte, length: nat)
    ensures var h3 := c3 / 8 % 16 % 4 * 64; var v := length / 2048 % 4;
            OrLow(h3, v) == h3 + v && OrLow(h3, v) / 64 == h3 / 64 && OrLow(h3, v) % 4 == v
    ensures c3 / 8 % 16 / 4 % 2 * 4 + c3 / 8 % 16 % 4 == c3 / 8 % 16 % 8
  {
    hide OrLow;
    Byte3(c3 / 8 % 16 % 4, length / 2048 % 4);
    LowThree(c3 / 8 % 16);
  }

  lemma Byte3(channels: nat, v: nat)
    requires channels < 4 && v < 4
    ensures OrLow(channels * 64, v) == channels * 64 + v
    ensures OrLow(channels * 64, v) / 64 == channels * 64 / 64 && OrLow(channels * 64, v) % 4 == v
  {
  }

  lemma LowThree(channels: nat)
    requires channels < 16
    ensures channels / 4 % 2 * 4 + channels % 4 == channels % 8
  {
  }

  lemma LengthFields(length: nat)
    ensures length / 2048 % 4 * 2048 + length / 8 % 256 * 8 + length % 8 * 32 / 32 == length % 8192
  {
    var a := length / 8;
    var b := a / 256;
    var c := b / 4;
    assert length / 2048 == b;
    assert length == c * 8192 + (b % 4) * 2048 + (a % 256) * 8 + length % 8;
    Remainder(c, (b % 4) * 2048 + (a % 256) * 8 + length % 8);
  }

  lemma Remainder(c: nat, r: nat)
    requires r < 8192
    ensures (c * 8192 + r) % 8192 == r
  {
  }

  /** The packets of a run of audio messages; a run ends with the first message that is
      too short for its header. */
  function AudioRun(st: AudioState, log: seq<(seq<byte>, u32)>): (r: AudioResult)
    requires |st.head| == 7
    ensures |r.st.head| == 7
    decreases |log|
  {
    if log == [] then AudioResult(Done, st, [])
    else
      var front := AudioRun(st, log[..|log| - 1]);
      if front.code != Done then front
      else
        var last := HandleAudio(front.st, log[|log| - 1].0, log[|log| - 1].1);
        last.(packets := front.packets + last.packets)
  }

  /** The last configuration in a run. */
  function LastConfig(log: seq<(seq<byte>, u32)>): Option<(byte, byte)> {
    if log == [] then None
    else
      var d := log[|log| - 1].0;
      if IsConfig(d) then Some((d[2], d[3])) else LastConfig(log[..|log| - 1])
  }

  /** Whatever has gone before, and whatever other sound formats lie between: a frame is
      dropped as long as there was no configuration, and otherwise goes out behind a header
      that reads back as the last configuration and the frame's own length. */
  lemma FrameHeaders(st: AudioState, log: seq<(seq<byte>, u32)>, d: seq<byte>, timeStamp: u32)
    requires |st.head| == 7 && !st.ready && AudioRun(st, log).code == Done && IsFrame(d)
    ensures match LastConfig(log)
            case None => AudioRun(st, log + [(d, timeStamp)]) == AudioRun(st, log)
            case Some(c) =>
              var before, after := AudioRun(st, log), AudioRun(st, log + [(d, timeStamp)]);
              |after.packets| == |before.packets| + 1 && after.packets[..|before.packets|] == before.packets &&
              var p := after.packets[|before.packets|];
              p.kind == Aac && p.data == d[2..] && p.pictureMs == p.decodeMs == timeStamp && |p.head| == 7 &&
              ReadAdts(p.head) == Some(Wanted(c.0, c.1, (|p.data| + 7) % 8192))
  {
    HeadFollowsRun(st, log);
    var all := log + [(d, timeStamp)];
    assert all[..|all| - 1] == log && all[|all| - 1] == (d, timeStamp);
    match LastConfig(log) {
      case None =>
        assert AudioRun(st, log).packets + [] == AudioRun(st, log).packets;
      case Some(c) =>
        PatchedReadsBack(AudioRun(st, log).st, c.0, c.1, |d| - 2 + 7);
    }
  }

  /** The header always belongs to the last configuration. */
  lemma {:induction false} HeadFollowsRun(st: AudioState, log: seq<(seq<byte>, u32)>)
    requires |st.head| == 7 && !st.ready && AudioRun(st, log).code == Done
    ensures match LastConfig(log)
            case None => !AudioRun(st, log).st.ready
            case Some(c) => Follows(AudioRun(st, log).st, c.0, c.1)
    decreases |log|
  {
    if log != [] {
      var front, d := log[..|log| - 1], log[|log| - 1].0;
      HeadFollowsRun(st, front);
      var mid := AudioRun(st, front).st;
      match LastConfig(front) {
        case None =>
        case Some(c) =>
          if |d| >= 1 && !IsConfig(d) {
            PatchedReadsBack(mid, c.0, c.1, |d| - 1 + 7);
            if |d| >= 2 {
              PatchedReadsBack(mid, c.0, c.1, |d| - 2 + 7);
            }
          }
      }
    }
  }

  /** The handler, with the header in the first seven bytes of head. */
  method ProcessAudio(d: seq<byte>, head: array<byte>, headLen: nat, timeStamp: u32)
    returns (code: Code, newLen: nat, packets: seq<Packet>)
    requires head.Length >= 7 && (headLen == 0 || headLen == 7)
    modifies head
    ensures newLen == 0 || newLen == 7
    ensures AudioResult(code, AudioState(head[..7], newLen == 7), packets) ==
            HandleAudio(AudioState(old(head[..7]), headLen == 7), d, timeStamp)
  {
    ghost var h := head[..7];
    newLen, packets := headLen, [];
    if |d| < 1 {
      return Overread, newLen, packets;
    }
    var pack := Packet(Unset, timeStamp, timeStamp, [], d[1..], false);
    if d[0] / 16 == 10 {
      pack := pack.(kind := Aac);
      if |d| < 2 {
        return Overread, newLen, packets;
      }
      if headLen == 0 && d[1] != 0 {
        return Done, newLen, packets;
      } else if d[1] == 0 {
        if |d| < 4 {
          return Overread, newLen, packets;
        }
        SaveHead(d[2], d[3], head);
        return Done, 7, packets;
      }
      pack := pack.(data := pack.data[1..]);
    }
    var length := |pack.data| + headLen;
    var b3 := head[3];
    head[3] := OrLow(head[3], length / 2048 % 4);
    head[4] := length / 8 % 256;
    head[5] := length % 8 * 32;
    assert head[..7] == Patched(h, length);
    if pack.kind == Aac {
      assert d[1..][1..] == d[2..];
      pack := pack.(head := head[..7]);
    }
    packets := [pack];
    head[3] := b3;
    assert head[..7] == Restored(h, length);
    return Done, newLen, packets;
  }

  method SaveHead(c2: byte, c3: byte, head: array<byte>)
    requires head.Length >= 7
    modifies head
    ensures head[..7] == SavedHead(c2, c3)
  {
    var channels := c3 / 8 % 16;
    head[0], head[1] := 0xFF, 0xF1;
    head[2] := (c2 / 8 + 3) % 4 * 64 + (c2 % 8 * 2 + c3 / 128) * 4 + channels / 4 % 2;
    head[3] := channels % 4 * 64;
    head[4], head[5], head[6] := 0, 0, 0;
  }
}
