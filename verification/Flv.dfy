/** The FLV file (Adobe Flash Video File Format Specification 10.1, sections E.2 to E.4). */
module Flv {
  import opened Bytes
  import opened Amf0
  import opened MetaData

  /** The file header with the first PreviousTagSize. */
  const FILE_HEADER: seq<byte> := [0x46, 0x4C, 0x56, 1, 5, 0, 0, 0, 9, 0, 0, 0, 0]

  /** One tag: its type, its DataSize field, the low 24 bits of the time stamp, the body,
      and the size of all that. */
  function TagBytes(mtype: byte, sizeField: seq<byte>, timeStamp: u32, body: seq<byte>): seq<byte>
    requires |body| < 0x100_0000
  {
    [mtype] + sizeField + ToBe24(timeStamp % 0x100_0000) + [0, 0, 0, 0] + body + ToBe32(|body| + 11)
  }

  const ZERO: seq<byte> := [0, 0, 0, 0, 0, 0, 0, 0]
  const SIXTY: seq<byte> := [0x40, 0x4E, 0, 0, 0, 0, 0, 0]
  const MEGA: seq<byte> := [0x41, 0x30, 0, 0, 0, 0, 0, 0]

  function NumberOf(meta: Meta, k: Key): (bits: seq<byte>)
    ensures |bits| == 8
  {
    if k in meta && |meta[k]| == 8 then meta[k] else ZERO
  }

  /** The seven properties that are written, in order; four of them vary. */
  function Seven(width: seq<byte>, height: seq<byte>, rate: seq<byte>, codec: seq<byte>): (ps: seq<(seq<byte>, seq<byte>)>)
    requires |width| == |height| == |rate| == |codec| == 8
    ensures |ps| == 7
    ensures forall p :: p in ps ==> 0 < |p.0| < 16 && |p.1| == 8
  {
    [(Ascii("duration"), SIXTY), (Ascii("width"), width), (Ascii("height"), height), (Ascii("videodatarate"), ZERO),
     (Ascii("framerate"), rate), (Ascii("videocodecid"), codec), (Ascii("filesize"), MEGA)]
  }

  function Written(meta: Meta): (ps: seq<(seq<byte>, seq<byte>)>)
    ensures |ps| == 7
    ensures forall p :: p in ps ==> 0 < |p.0| < 16 && |p.1| == 8
  {
    Seven(NumberOf(meta, Width), NumberOf(meta, Height), NumberOf(meta, FrameRate), NumberOf(meta, VideoCodecId))
  }

  function PropertiesBytes(ps: seq<(seq<byte>, seq<byte>)>): (r: seq<byte>)
    requires forall p :: p in ps ==> 0 < |p.0| < 16 && |p.1| == 8
    ensures |r| <= 26 * |ps|
  {
    if ps == [] then [] else NameBytes(ps[0].0) + NumberBytes(ps[0].1) + PropertiesBytes(ps[1..])
  }

  /** The body of the metadata tag: a name and an ECMA array of seven. */
  function MetaBody(meta: Meta): (r: seq<byte>)
    ensures |r| < 256
  {
    [2] + NameBytes(Ascii("onMetaData")) + [8] + ToBe32(7) + PropertiesBytes(Written(meta)) + OBJECT_END
  }

  function MetaTagBytes(mtype: byte, meta: Meta): seq<byte> {
    TagBytes(mtype, ToBe24(|MetaBody(meta)|), 0, MetaBody(meta))
  }
}
