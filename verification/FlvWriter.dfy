/** Laying out FLV tags in a buffer. */
module FlvWriter {
  import opened Bytes
  import opened Amf0
  import opened MetaData
  import opened Flv
  import opened Writers

  /** An audio or video tag in a new buffer of len + 15 bytes. */
  method WriteTag(mtype: byte, sizeField: seq<byte>, timeStamp: u32, body: seq<byte>) returns (data: array<byte>)
    requires |sizeField| == 3 && |body| < 0x100_0000
    ensures fresh(data) && data[..] == TagBytes(mtype, sizeField, timeStamp, body)
  {
    hide Splice, ToBe24, ToBe32;
    var len := |body|;
    data := new byte[len + 15](i => 0);
    ghost var m := data[..];
    data[0], data[1], data[2], data[3] := mtype, sizeField[0], sizeField[1], sizeField[2];
    ghost var header := [mtype] + sizeField;
    HeaderStored(m, data[..], header);
    var stamp := ToBe24(timeStamp % 0x100_0000);
    Store(data, 4, stamp);
    SpliceAppend(m, 0, header, stamp);
    ZerosFollow(m, header + stamp);
    Store(data, 11, body);
    SpliceAppend(m, 0, header + stamp + [0, 0, 0, 0], body);
    Store(data, 11 + len, ToBe32(len + 11));
    SpliceAppend(m, 0, header + stamp + [0, 0, 0, 0] + body, ToBe32(len + 11));
    ReadWhole(m, TagBytes(mtype, sizeField, timeStamp, body));
    assert data[..][..data.Length] == data[..];
  }

  lemma HeaderStored(m: seq<byte>, r: seq<byte>, header: seq<byte>)
    requires |header| == 4 <= |m| == |r| && r[0] == header[0] && r[1] == header[1] && r[2] == header[2] && r[3] == header[3]
    requires forall i :: 4 <= i < |m| ==> r[i] == m[i]
    ensures r == Splice(m, 0, header)
  {
    IsSplice(m, 0, header, r);
  }

  /** Zeros that are not written count as written. */
  lemma ZerosFollow(m: seq<byte>, done: seq<byte>)
    requires |done| + 4 <= |m| && forall i :: 0 <= i < |m| ==> m[i] == 0
    ensures Splice(m, 0, done) == Splice(m, 0, done + [0, 0, 0, 0])
  {
  }

  // ---------- the metadata tag ----------

  /** The seven properties one after the other. */
  function SevenBytes(meta: Meta): seq<byte> {
    NameBytes(Ascii("duration")) + NumberBytes(SIXTY)
    + (NameBytes(Ascii("width")) + NumberBytes(NumberOf(meta, Width)))
    + (NameBytes(Ascii("height")) + NumberBytes(NumberOf(meta, Height)))
    + (NameBytes(Ascii("videodatarate")) + NumberBytes(ZERO))
    + (NameBytes(Ascii("framerate")) + NumberBytes(NumberOf(meta, FrameRate)))
    + (NameBytes(Ascii("videocodecid")) + NumberBytes(NumberOf(meta, VideoCodecId)))
    + (NameBytes(Ascii("filesize")) + NumberBytes(MEGA))
  }

  lemma FirstProperty(p: (seq<byte>, seq<byte>), ps: seq<(seq<byte>, seq<byte>)>)
    requires 0 < |p.0| < 16 && |p.1| == 8 && forall q :: q in ps ==> 0 < |q.0| < 16 && |q.1| == 8
    ensures PropertiesBytes([p] + ps) == NameBytes(p.0) + NumberBytes(p.1) + PropertiesBytes(ps)
  {
    assert ([p] + ps)[1..] == ps;
  }

  lemma LastProperty(ps: seq<(seq<byte>, seq<byte>)>, p: (seq<byte>, seq<byte>))
    requires 0 < |p.0| < 16 && |p.1| == 8 && forall q :: q in ps ==> 0 < |q.0| < 16 && |q.1| == 8
    ensures forall q :: q in ps + [p] ==> 0 < |q.0| < 16 && |q.1| == 8
    ensures PropertiesBytes(ps + [p]) == PropertiesBytes(ps) + (NameBytes(p.0) + NumberBytes(p.1))
    decreases |ps|
  {
    if ps == [] {
      assert ps + [p] == [p] + [];
      FirstProperty(p, []);
    } else {
      LastProperty(ps[1..], p);
      assert ps + [p] == [ps[0]] + (ps[1..] + [p]);
      FirstProperty(ps[0], ps[1..] + [p]);
    }
  }

  lemma SevenIsWritten(meta: Meta)
    ensures SevenBytes(meta) == PropertiesBytes(Written(meta))
  {
    hide PropertiesBytes, NameBytes, NumberBytes, Ascii, NumberOf;
    var ps := Written(meta);
    NoProperty();
    NextProperty(ps, 0);
    NextProperty(ps, 1);
    NextProperty(ps, 2);
    NextProperty(ps, 3);
    NextProperty(ps, 4);
    NextProperty(ps, 5);
    NextProperty(ps, 6);
    assert ps[..0] == [] && ps[..7] == ps;
  }

  lemma NextProperty(ps: seq<(seq<byte>, seq<byte>)>, k: nat)
    requires k < |ps| && forall q :: q in ps ==> 0 < |q.0| < 16 && |q.1| == 8
    ensures PropertiesBytes(ps[..k + 1]) == PropertiesBytes(ps[..k]) + (NameBytes(ps[k].0) + NumberBytes(ps[k].1))
  {
    LastProperty(ps[..k], ps[k]);
    assert ps[..k + 1] == ps[..k] + [ps[k]];
  }

  lemma NoProperty()
    ensures PropertiesBytes([]) == []
  {
  }

  /** The metadata tag, laid out in a buffer of 2048 zeros. */
  method WriteMetaTag(mtype: byte, meta: Meta) returns (data: array<byte>, n: nat)
    ensures fresh(data) && n <= data.Length && data[..n] == MetaTagBytes(mtype, meta)
  {
    hide Splice, MetaBody, ToBe24, ToBe32;
    data := new byte[2048](i => 0);
    ghost var m, body := data[..], MetaBody(meta);
    var pos := WriteMetaBody(data, mtype, meta);
    var len := pos - 11;
    ghost var blank := [mtype, 0, 0, 0, 0, 0, 0, 0, 0, 0, 0];
    Store(data, 1, ToBe24(len));
    SplicePatch(m, 0, blank + body, 1, ToBe24(len));
    ghost var tag := [mtype] + ToBe24(len) + [0, 0, 0, 0, 0, 0, 0] + body;
    MetaHeader(mtype, body);
    Store(data, pos, ToBe32(pos));
    SpliceAppend(m, 0, tag, ToBe32(pos));
    n := pos + 4;
    ReadWhole(m, tag + ToBe32(pos));
    MetaTagIs(mtype, meta);
  }

  lemma MetaHeader(mtype: byte, body: seq<byte>)
    requires |body| < 0x100_0000
    ensures var done := [mtype, 0, 0, 0, 0, 0, 0, 0, 0, 0, 0] + body;
            done[..1] + ToBe24(|body|) + done[4..] == [mtype] + ToBe24(|body|) + [0, 0, 0, 0, 0, 0, 0] + body
  {
  }

  lemma MetaTagIs(mtype: byte, meta: Meta)
    ensures var body := MetaBody(meta);
            [mtype] + ToBe24(|body|) + [0, 0, 0, 0, 0, 0, 0] + body + ToBe32(|body| + 11) == MetaTagBytes(mtype, meta)
  {
    hide MetaBody, ToBe32;
    assert ToBe24(0) == [0, 0, 0];
  }

  method WriteMetaBody(data: array<byte>, mtype: byte, meta: Meta) returns (pos: nat)
    requires data.Length == 2048 && Zeroed(data[..], 0, 2048)
    modifies data
    ensures pos == 11 + |MetaBody(meta)|
    ensures data[..] == Splice(old(data[..]), 0, [mtype, 0, 0, 0, 0, 0, 0, 0, 0, 0, 0] + MetaBody(meta))
  {
    hide Splice, NameBytes, NumberBytes, Ascii, Is, NumberOf, MetaBody, MetaStart, Zeroed, PropertiesBytes, Written;
    ghost var m, acc := data[..], [];
    pos, acc := WriteMetaStart(data, mtype);
    pos, acc := WriteFirstFour(data, pos, meta, m, acc);
    pos, acc := PushNamedNumber(data, pos, Ascii("framerate"), NumberOf(meta, FrameRate), m, acc);
    pos, acc := PushNamedNumber(data, pos, Ascii("videocodecid"), NumberOf(meta, VideoCodecId), m, acc);
    pos, acc := PushNamedNumber(data, pos, Ascii("filesize"), MEGA, m, acc);
    var n := PushObjectEnder(data, pos, data.Length - pos);
    SpliceAppend(m, 0, acc, OBJECT_END);
    pos := pos + n;
    MetaBodyIs(mtype, meta);
  }

  /** duration, width, height and videodatarate. */
  method WriteFirstFour(data: array<byte>, at: nat, meta: Meta, ghost m: seq<byte>, ghost acc: seq<byte>)
    returns (pos: nat, ghost done: seq<byte>)
    requires at == |acc| == 29 && data.Length == |m| == 2048 && data[..] == Splice(m, 0, acc)
    modifies data
    ensures pos == |done| == 105 && data[..] == Splice(m, 0, done)
    ensures done == acc
                    + (NameBytes(Ascii("duration")) + NumberBytes(SIXTY))
                    + (NameBytes(Ascii("width")) + NumberBytes(NumberOf(meta, Width)))
                    + (NameBytes(Ascii("height")) + NumberBytes(NumberOf(meta, Height)))
                    + (NameBytes(Ascii("videodatarate")) + NumberBytes(ZERO))
  {
    hide Splice, NameBytes, NumberBytes, Ascii, Is, NumberOf;
    pos, done := PushNamedNumber(data, at, Ascii("duration"), SIXTY, m, acc);
    pos, done := PushNamedNumber(data, pos, Ascii("width"), NumberOf(meta, Width), m, done);
    pos, done := PushNamedNumber(data, pos, Ascii("height"), NumberOf(meta, Height), m, done);
    pos, done := PushNamedNumber(data, pos, Ascii("videodatarate"), ZERO, m, done);
  }

  function MetaStart(mtype: byte): (r: seq<byte>)
    ensures |r| == 29
  {
    [mtype, 0, 0, 0, 0, 0, 0, 0, 0, 0, 0] + [2] + NameBytes(Ascii("onMetaData")) + [8] + ToBe32(7)
  }

  lemma MetaBodyIs(mtype: byte, meta: Meta)
    ensures MetaStart(mtype)
            + (NameBytes(Ascii("duration")) + NumberBytes(SIXTY))
            + (NameBytes(Ascii("width")) + NumberBytes(NumberOf(meta, Width)))
            + (NameBytes(Ascii("height")) + NumberBytes(NumberOf(meta, Height)))
            + (NameBytes(Ascii("videodatarate")) + NumberBytes(ZERO))
            + (NameBytes(Ascii("framerate")) + NumberBytes(NumberOf(meta, FrameRate)))
            + (NameBytes(Ascii("videocodecid")) + NumberBytes(NumberOf(meta, VideoCodecId)))
            + (NameBytes(Ascii("filesize")) + NumberBytes(MEGA))
            + OBJECT_END
            == [mtype, 0, 0, 0, 0, 0, 0, 0, 0, 0, 0] + MetaBody(meta)
  {
    hide NameBytes, NumberBytes, Ascii, NumberOf, PropertiesBytes, ToBe32;
    SevenIsWritten(meta);
  }

  /** Header, name, array marker and count. */
  method WriteMetaStart(data: array<byte>, mtype: byte) returns (pos: nat, ghost acc: seq<byte>)
    requires data.Length == 2048 && Zeroed(data[..], 0, 2048)
    modifies data
    ensures acc == MetaStart(mtype) && pos == |acc| && data[..] == Splice(old(data[..]), 0, acc)
  {
    hide Splice, NameBytes, Ascii, ToBe32;
    ghost var m := data[..];
    data[0] := mtype;
    acc := [mtype, 0, 0, 0, 0, 0, 0, 0, 0, 0, 0];
    IsSplice(m, 0, acc, data[..]);
    pos := 11;
    Store(data, pos, [0x02]);
    SpliceAppend(m, 0, acc, [2]);
    pos, acc := pos + 1, acc + [2];
    var n := PushName(data, pos, data.Length - pos, Ascii("onMetaData"));
    SpliceAppend(m, 0, acc, NameBytes(Ascii("onMetaData")));
    pos, acc := pos + n, acc + NameBytes(Ascii("onMetaData"));
    Store(data, pos, [0x08]);
    SpliceAppend(m, 0, acc, [8]);
    pos, acc := pos + 1, acc + [8];
    Store(data, pos, ToBe32(7));
    SpliceAppend(m, 0, acc, ToBe32(7));
    pos, acc := pos + 4, acc + ToBe32(7);
  }
}
