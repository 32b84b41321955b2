/** A reader of FLV files (Adobe Flash Video File Format Specification 10.1, sections E.2
    to E.4.1), and the proof that it recovers what the client has written. */
module FlvFile {
  import opened Bytes
  import opened Protocol
  import opened Amf0
  import opened MetaData
  import opened Flv
  import opened Commands
  import opened Handlers
  import opened Chunks
  import opened Fragmentation
  import opened Demux
  import opened EndToEnd
  import opened Doubles
  import opened Sayings

  // ---------- the reader ----------

  datatype Tag = Tag(mtype: byte, stamp: nat, body: seq<byte>)

  datatype TagRead = TagRead(tag: Tag, used: nat)

  /** One tag and the size behind it, which must be that of the tag. */
  function ReadTag(d: seq<byte>): (r: Option<TagRead>)
    ensures r.Some? ==> 15 <= r.value.used <= |d|
  {
    if |d| < 15 then None
    else
      var n := Be24(d, 1);
      if |d| < n + 15 || d[8..11] != [0, 0, 0] || Be32(d, n + 11) != n + 11 then None
      else Some(TagRead(Tag(d[0], d[7] as int * 0x100_0000 + Be24(d, 4), d[11..n + 11]), n + 15))
  }

  function ReadTags(d: seq<byte>): Option<seq<Tag>>
    decreases |d|
  {
    if d == [] then Some([])
    else
      match ReadTag(d)
      case None => None
      case Some(t) =>
        match ReadTags(d[t.used..])
        case None => None
        case Some(ts) => Some([t.tag] + ts)
  }

  /** What a file says of itself, and its tags. */
  datatype File = File(version: byte, audio: bool, video: bool, tags: seq<Tag>)

  /** The letters FLV, the version, the flags, the offset of the body, which is where the
      header ends, and a first PreviousTagSize of zero (section E.2). */
  function ReadFile(d: seq<byte>): Option<File> {
    if |d| < 13 || !Is(d[..3], "FLV") || Be32(d, 5) != 9 || Be32(d, 9) != 0 then None
    else
      match ReadTags(d[13..])
      case None => None
      case Some(tags) => Some(File(d[3], d[4] / 4 % 2 == 1, d[4] % 2 == 1, tags))
  }

  /** A file of version 1 with audio and video. */
  function Media(tags: seq<Tag>): File {
    File(1, true, true, tags)
  }

  datatype Property = Property(name: seq<byte>, bits: seq<byte>)

  /** n named numbers, and the rest. */
  function ReadProperties(d: seq<byte>, n: nat): Option<(seq<Property>, seq<byte>)> {
    if n == 0 then Some(([], d))
    else
      match PopName(d, 256)
      case None => None
      case Some(p) =>
        if p.used == 0 then None
        else
          match PopNumber(d[p.used..])
          case None => None
          case Some(v) =>
            match ReadProperties(d[p.used..][9..], n - 1)
            case None => None
            case Some(more) => Some(([Property(p.value, v.value)] + more.0, more.1))
  }

  /** A script data body: a name and an ECMA array of numbers (section E.4.4). */
  function ReadBody(d: seq<byte>): Option<(seq<byte>, seq<Property>)> {
    match PopString(d, 256)
    case None => None
    case Some(p) =>
      var a := d[p.used..];
      if |a| < 5 || a[0] != 8 then None
      else
        match ReadProperties(a[5..], Be32(a, 1))
        case None => None
        case Some(ps) => if ps.1 == OBJECT_END then Some((p.value, ps.0)) else None
  }

  // ---------- one tag ----------

  lemma TagReadsBack(mtype: byte, stamp: u32, body: seq<byte>, rest: seq<byte>)
    requires |body| < 0x100_0000
    ensures ReadTag(TagBytes(mtype, ToBe24(|body|), stamp, body) + rest) ==
            Some(TagRead(Tag(mtype, stamp % 0x100_0000, body), |body| + 15))
    ensures |TagBytes(mtype, ToBe24(|body|), stamp, body)| == |body| + 15
  {
    hide ToBe24, ToBe32, Be24, Be32;
    var n := |body|;
    var d := TagBytes(mtype, ToBe24(n), stamp, body) + rest;
    assert d[1..4] == ToBe24(n);
    FieldAt(d, 1);
    assert d[4..7] == ToBe24(stamp % 0x100_0000);
    FieldAt(d, 4);
    assert d[7] == 0 && d[8..11] == [0, 0, 0] && d[11..n + 11] == body;
    assert d[n + 11..n + 15] == ToBe32(n + 11);
    WordAt(d, n + 11);
  }

  function Prefixed(t: Tag, ts: Option<seq<Tag>>): Option<seq<Tag>> {
    match ts
    case None => None
    case Some(more) => Some([t] + more)
  }

  lemma FirstTag(mtype: byte, stamp: u32, body: seq<byte>, rest: seq<byte>)
    requires |body| < 0x100_0000
    ensures ReadTags(TagBytes(mtype, ToBe24(|body|), stamp, body) + rest) ==
            Prefixed(Tag(mtype, stamp % 0x100_0000, body), ReadTags(rest))
  {
    hide ReadTag, TagBytes, ToBe24;
    TagReadsBack(mtype, stamp, body, rest);
    var d := TagBytes(mtype, ToBe24(|body|), stamp, body) + rest;
    assert d[|body| + 15..] == rest;
  }

  // ---------- the metadata body ----------

  function Properties(ps: seq<(seq<byte>, seq<byte>)>): (r: seq<Property>)
    ensures |r| == |ps|
  {
    if ps == [] then [] else [Property(ps[0].0, ps[0].1)] + Properties(ps[1..])
  }

  predicate Plain(ps: seq<(seq<byte>, seq<byte>)>) {
    forall p :: p in ps ==> 0 < |p.0| < 16 && |p.1| == 8
  }

  lemma {:induction false} PropertiesReadBack(ps: seq<(seq<byte>, seq<byte>)>, rest: seq<byte>)
    requires Plain(ps)
    ensures ReadProperties(PropertiesBytes(ps) + rest, |ps|) == Some((Properties(ps), rest))
    decreases |ps|
  {
    hide PopName, PopNumber, NameBytes, NumberBytes;
    if ps == [] {
      assert PropertiesBytes(ps) + rest == rest;
    } else {
      PropertiesReadBack(ps[1..], rest);
      FirstProperty(ps, rest);
    }
  }

  lemma FirstProperty(ps: seq<(seq<byte>, seq<byte>)>, rest: seq<byte>)
    requires ps != [] && Plain(ps) && Plain(ps[1..])
    requires ReadProperties(PropertiesBytes(ps[1..]) + rest, |ps| - 1) == Some((Properties(ps[1..]), rest))
    ensures ReadProperties(PropertiesBytes(ps) + rest, |ps|) == Some((Properties(ps), rest))
  {
    hide ReadProperties, PropertiesBytes, NameBytes, NumberBytes;
    PropertiesUnroll(ps, rest);
    OneProperty(ps[0].0, ps[0].1, PropertiesBytes(ps[1..]) + rest, |ps| - 1, Properties(ps[1..]), rest);
  }

  lemma PropertiesUnroll(ps: seq<(seq<byte>, seq<byte>)>, rest: seq<byte>)
    requires ps != [] && Plain(ps)
    ensures Plain(ps[1..]) && 0 < |ps[0].0| < 16 && |ps[0].1| == 8
    ensures PropertiesBytes(ps) + rest == NameBytes(ps[0].0) + (NumberBytes(ps[0].1) + (PropertiesBytes(ps[1..]) + rest))
  {
    hide NameBytes, NumberBytes;
    assert ps[0] in ps;
    var a, b, c := NameBytes(ps[0].0), NumberBytes(ps[0].1), PropertiesBytes(ps[1..]);
    Regroup(a + b, c, rest);
    Regroup(a, b, c + rest);
  }

  lemma OneProperty(name: seq<byte>, bits: seq<byte>, after: seq<byte>, n: nat, more: seq<Property>, rest: seq<byte>)
    requires 0 < |name| < 16 && |bits| == 8 && ReadProperties(after, n) == Some((more, rest))
    ensures ReadProperties(NameBytes(name) + (NumberBytes(bits) + after), n + 1) ==
            Some(([Property(name, bits)] + more, rest))
  {
    hide PopName, PopNumber, NameBytes, NumberBytes;
    var d := NameBytes(name) + (NumberBytes(bits) + after);
    NameInFront(name, NumberBytes(bits) + after, 256);
    assert d[|name| + 2..] == NumberBytes(bits) + after;
    NumberInFront(bits, after);
    assert (NumberBytes(bits) + after)[9..] == after;
  }

  /** The body of the metadata tag is an onMetaData array of exactly the seven properties. */
  lemma MetaBodyReadsBack(meta: Meta)
    ensures ReadBody(MetaBody(meta)) == Some((Ascii("onMetaData"), Properties(Written(meta))))
    ensures |Properties(Written(meta))| == 7
  {
    hide PropertiesBytes, Written, ReadProperties, PopString, Be32, ToBe32, NameBytes, Properties;
    var title := Ascii("onMetaData");
    var d := MetaBody(meta);
    var after := [8] + ToBe32(7) + (PropertiesBytes(Written(meta)) + OBJECT_END);
    TitleString(title);
    assert d == StringBytes(title) + after;
    TitleReadsBack(title, after);
    assert d[|title| + 3..] == after;
    assert after[1..5] == ToBe32(7);
    WordAt(after, 1);
    assert after[5..] == PropertiesBytes(Written(meta)) + OBJECT_END;
    PropertiesReadBack(Written(meta), OBJECT_END);
  }

  /** What the array says: seven numbers by name, three of which are always the same. */
  lemma MetaBodySays(meta: Meta)
    ensures match ReadBody(MetaBody(meta))
            case None => false
            case Some(r) =>
              && Is(r.0, "onMetaData") && |r.1| == 7
              && SaysNumber(r.1[0], "duration", SIXTY) && ValueOf(SIXTY) == Some(60.0)
              && SaysNumber(r.1[1], "width", NumberOf(meta, Width))
              && SaysNumber(r.1[2], "height", NumberOf(meta, Height))
              && SaysNumber(r.1[3], "videodatarate", ZERO) && ValueOf(ZERO) == Some(0.0)
              && SaysNumber(r.1[4], "framerate", NumberOf(meta, FrameRate))
              && SaysNumber(r.1[5], "videocodecid", NumberOf(meta, VideoCodecId))
              && SaysNumber(r.1[6], "filesize", MEGA) && ValueOf(MEGA) == Some(1048576.0)
  {
    hide ReadBody, MetaBody, NumberOf, Is, Ascii, ValueOf;
    MetaBodyReadsBack(meta);
    FileNumbers();
    PropertiesAt(Written(meta));
  }

  predicate SaysNumber(p: Property, name: string, bits: seq<byte>) {
    Is(p.name, name) && p.bits == bits
  }

  lemma {:induction false} PropertiesAt(ps: seq<(seq<byte>, seq<byte>)>)
    ensures forall i :: 0 <= i < |ps| ==> Properties(ps)[i] == Property(ps[i].0, ps[i].1)
  {
    if ps != [] {
      PropertiesAt(ps[1..]);
    }
  }

  lemma TitleString(title: seq<byte>)
    requires |title| < 256
    ensures StringBytes(title) == [2] + NameBytes(title)
  {
  }

  // ---------- whole runs ----------

  function Filed(o: Output): seq<byte> {
    if o.ToFile? then o.bytes else []
  }

  /** What ends up in the file. */
  function FileBytes(outs: seq<Output>): seq<byte> {
    if outs == [] then [] else Filed(outs[0]) + FileBytes(outs[1..])
  }

  lemma {:induction false} FileBytesBoth(a: seq<Output>, b: seq<Output>)
    ensures FileBytes(a + b) == FileBytes(a) + FileBytes(b)
    decreases |a|
  {
    hide Filed;
    if a == [] {
      assert a + b == b && FileBytes(a) + FileBytes(b) == FileBytes(b);
    } else {
      FileBytesBoth(a[1..], b);
      assert (a + b)[1..] == a[1..] + b;
      Regroup(Filed(a[0]), FileBytes(a[1..]), FileBytes(b));
    }
  }

  lemma {:induction false} NothingForFile(outs: seq<Output>)
    requires forall o :: o in outs ==> !o.ToFile?
    ensures FileBytes(outs) == []
    decreases |outs|
  {
    if outs != [] {
      NothingForFile(outs[1..]);
    }
  }

  predicate IsMedia(m: Message) {
    m.mtype == 8 || m.mtype == 9
  }

  /** The header copy still holds the size and the type of the message. */
  predicate Consistent(m: Message)
    requires WellSized(m)
  {
    m.noted[3..6] == ToBe24(|m.payload|) && m.noted[6] == m.mtype
  }

  predicate AllWellSized(log: seq<Message>) {
    forall m :: m in log ==> WellSized(m)
  }

  predicate AllConsistent(log: seq<Message>)
    requires AllWellSized(log)
  {
    forall m :: m in log ==> Consistent(m)
  }

  predicate NoMeta(log: seq<Message>) {
    forall m :: m in log ==> !IsMeta(m)
  }

  /** The tags the audio and video messages of a log are to become. */
  function MediaTags(log: seq<Message>): seq<Tag> {
    if log == [] then []
    else (if IsMedia(log[0]) then [Tag(log[0].mtype, log[0].timeStamp % 0x100_0000, log[0].payload)] else [])
         + MediaTags(log[1..])
  }

  predicate Recording(c: Control, flvOpen: bool) {
    c.saveFlv && c.flvOpen == flvOpen
  }

  /** A message other than onMetaData writes one tag if it is audio or video and nothing
      otherwise; without an open file audio and video fail. */
  lemma OneMessageWrites(c: Control, m: Message)
    requires WellSized(m) && c.saveFlv && !IsMeta(m) && Handle(c, m).code == Done
    ensures Recording(Handle(c, m).ctl, c.flvOpen) && (IsMedia(m) ==> c.flvOpen)
    ensures FileBytes(Handle(c, m).outs) ==
            if IsMedia(m) then TagBytes(m.noted[6], m.noted[3..6], m.timeStamp, m.payload) else []
  {
    hide TagBytes, MetaTagBytes, CreateBundle, PlayBundle, IdByte, PopString, PopNumber, CStr, Is, ReadMeta;
    var outs := Handle(c, m).outs;
    if IsMedia(m) {
      assert outs[1..] == [];
    } else {
      NothingForFile(outs);
    }
  }

  lemma MetaWrites(c: Control, m: Message)
    requires WellSized(m) && c.saveFlv && IsMeta(m) && Handle(c, m).code == Done
    ensures Recording(Handle(c, m).ctl, true)
    ensures FileBytes(Handle(c, m).outs) == FILE_HEADER + MetaTagBytes(m.noted[6], ReadMeta(m.payload).meta)
  {
    hide TagBytes, MetaTagBytes, PopString, CStr, Is, ReadMeta;
    var outs := Handle(c, m).outs;
    assert outs == [outs[0]] + [outs[1]];
    FileBytesBoth([outs[0]], [outs[1]]);
    assert [outs[0]][1..] == [] && [outs[1]][1..] == [];
  }

  lemma HandleAllStep(c: Control, log: seq<Message>)
    requires log != [] && AllWellSized(log) && HandleAll(c, log).code == Done
    ensures AllWellSized(log[1..])
    ensures var r := Handle(c, log[0]);
            && r.code == Done && HandleAll(r.ctl, log[1..]).code == Done
            && HandleAll(c, log).ctl == HandleAll(r.ctl, log[1..]).ctl
            && FileBytes(HandleAll(c, log).outs) == FileBytes(r.outs) + FileBytes(HandleAll(r.ctl, log[1..]).outs)
  {
    hide Handle;
    var r := Handle(c, log[0]);
    FileBytesBoth(r.outs, HandleAll(r.ctl, log[1..]).outs);
  }

  /** Without onMetaData the log is read back as its audio and video messages. */
  lemma {:induction false} MediaReadsBack(c: Control, log: seq<Message>)
    requires AllWellSized(log) && AllConsistent(log) && NoMeta(log) && c.saveFlv && HandleAll(c, log).code == Done
    ensures ReadTags(FileBytes(HandleAll(c, log).outs)) == Some(MediaTags(log))
    ensures !c.flvOpen ==> MediaTags(log) == [] && FileBytes(HandleAll(c, log).outs) == []
    ensures Recording(HandleAll(c, log).ctl, c.flvOpen)
    decreases |log|
  {
    hide Handle, IsMeta, TagBytes, ReadTags, HandleAll, FileBytes;
    if log == [] {
      NothingRead(c);
    } else {
      var m := log[0];
      HandleAllStep(c, log);
      OneMessageWrites(c, m);
      var r := Handle(c, m);
      var rest := FileBytes(HandleAll(r.ctl, log[1..]).outs);
      MediaReadsBack(r.ctl, log[1..]);
      assert Consistent(m);
      if IsMedia(m) {
        FirstTag(m.mtype, m.timeStamp, m.payload, rest);
      } else {
        assert [] + rest == rest && MediaTags(log) == MediaTags(log[1..]);
      }
    }
  }

  lemma NothingRead(c: Control)
    ensures HandleAll(c, []) == Handled(Done, c, []) && FileBytes([]) == [] && ReadTags([]) == Some([])
  {
  }

  /** Exactly one onMetaData, at k. */
  predicate OneMeta(log: seq<Message>, k: nat) {
    k < |log| && NoMeta(log[..k]) && IsMeta(log[k]) && NoMeta(log[k + 1..])
  }

  /** The tags of a file: that of the metadata, and those of the audio and video behind. */
  function FileTags(log: seq<Message>, k: nat): seq<Tag>
    requires k < |log|
  {
    [Tag(0x12, 0, MetaBody(ReadMeta(log[k].payload).meta))] + MediaTags(log[k + 1..])
  }

  /** For every run with one onMetaData, also one that ends with a failing handler: the
      file reads as one metadata tag and behind it one tag for each audio or video message
      in front of the failure, in order. */
  lemma FileReadsBack(c: Control, log: seq<Message>, k: nat)
    requires AllWellSized(log) && AllConsistent(log) && c.saveFlv && !c.flvOpen && OneMeta(Kept(c, log), k)
    ensures ReadFile(FileBytes(HandleAll(c, log).outs)) == Some(Media(FileTags(Kept(c, log), k)))
    ensures MediaTags(Kept(c, log)[..k]) == []
  {
    hide HandleAll, Kept, WellSized, Consistent, FileTags, MediaTags, ReadFile, FileBytes, OneMeta, NoMeta, AllConsistent;
    KeptFits(c, log);
    var kept := Kept(c, log);
    SplitAt(kept, k);
    HandledFileReadsBack(c, kept[..k], kept[k], kept[k + 1..]);
    TagsOfFile(kept, k);
  }

  lemma TagsOfFile(log: seq<Message>, k: nat)
    requires k < |log|
    ensures FileTags(log, k) == [Tag(0x12, 0, MetaBody(ReadMeta(log[k].payload).meta))] + MediaTags(log[k + 1..])
  {
    hide MetaBody, ReadMeta, MediaTags;
  }

  lemma SplitAt(log: seq<Message>, k: nat)
    requires OneMeta(log, k)
    ensures k < |log| && NoMeta(log[..k]) && IsMeta(log[k]) && NoMeta(log[k + 1..])
    ensures log[..k] + [log[k]] + log[k + 1..] == log
  {
    hide NoMeta, IsMeta;
  }

  lemma KeptFits(c: Control, log: seq<Message>)
    requires AllWellSized(log) && AllConsistent(log)
    ensures var kept := Kept(c, log);
            && AllWellSized(kept) && AllConsistent(kept)
            && HandleAll(c, kept).code == Done && HandleAll(c, kept).outs == HandleAll(c, log).outs
  {
    hide HandleAll, Kept, WellSized, Consistent;
    KeptIsHandled(c, log);
    var kept := Kept(c, log);
    forall m | m in kept
      ensures m in log
    {
      var i :| 0 <= i < |kept| && kept[i] == m;
      assert log[i] == m;
    }
  }

  /** A run without onMetaData in front of its failure writes no file. */
  lemma NoFileWithoutMeta(c: Control, log: seq<Message>)
    requires AllWellSized(log) && AllConsistent(log) && c.saveFlv && !c.flvOpen && NoMeta(Kept(c, log))
    ensures FileBytes(HandleAll(c, log).outs) == []
  {
    hide HandleAll, Kept, WellSized, Consistent, FileTags, MediaTags, ReadFile, FileBytes, OneMeta, NoMeta, AllConsistent;
    KeptFits(c, log);
    MediaReadsBack(c, Kept(c, log));
  }

  /** A run without failure. */
  lemma HandledFileReadsBack(c: Control, before: seq<Message>, meta: Message, media: seq<Message>)
    requires AllWellSized(before + [meta] + media) && AllConsistent(before + [meta] + media)
    requires NoMeta(before) && IsMeta(meta) && NoMeta(media) && c.saveFlv && !c.flvOpen
    requires HandleAll(c, before + [meta] + media).code == Done
    ensures ReadFile(FileBytes(HandleAll(c, before + [meta] + media).outs)) ==
            Some(Media([Tag(0x12, 0, MetaBody(ReadMeta(meta.payload).meta))] + MediaTags(media)))
    ensures MediaTags(before) == []
  {
    hide Handle, IsMeta, TagBytes, ReadTags, HandleAll, FileBytes, MediaTags, ReadMeta, MetaBody, Is;
    var tail := [meta] + media;
    var log := before + tail;
    assert before + [meta] + media == log;
    Parts(before, meta, media);
    DoneParts(c, before, tail);
    MediaReadsBack(c, before);
    var mid := HandleAll(c, before).ctl;
    HandleBoth(c, before, tail);
    FileBytesBoth(HandleAll(c, before).outs, HandleAll(mid, tail).outs);
    assert tail[1..] == media;
    HandleAllStep(mid, tail);
    MetaWrites(mid, meta);
    var r := Handle(mid, meta);
    MediaReadsBack(r.ctl, media);
    var rest := FileBytes(HandleAll(r.ctl, media).outs);
    MetaType(meta);
    MetaFileReadsBack(meta, ReadMeta(meta.payload).meta, rest);
    assert FileBytes(HandleAll(c, log).outs) == FileBytes(HandleAll(mid, tail).outs);
  }

  lemma MetaType(m: Message)
    requires IsMeta(m)
    ensures m.mtype == 0x12
  {
  }

  lemma Parts(before: seq<Message>, meta: Message, media: seq<Message>)
    requires AllWellSized(before + [meta] + media) && AllConsistent(before + [meta] + media)
    ensures AllWellSized(before) && AllConsistent(before) && AllWellSized([meta] + media)
    ensures AllWellSized(media) && AllConsistent(media) && WellSized(meta) && Consistent(meta)
  {
    hide WellSized, Consistent;
    var log := before + [meta] + media;
    assert log[|before|] == meta;
    assert forall m :: m in before ==> m in log;
    assert forall m :: m in [meta] + media ==> m in log;
    assert forall m :: m in media ==> m in log;
  }

  lemma MetaFileReadsBack(m: Message, meta: Meta, rest: seq<byte>)
    requires WellSized(m) && Consistent(m) && m.mtype == 0x12 && ReadTags(rest).Some?
    ensures ReadFile(FILE_HEADER + MetaTagBytes(m.noted[6], meta) + rest) ==
            Some(Media([Tag(0x12, 0, MetaBody(meta))] + ReadTags(rest).value))
  {
    hide ReadTags, TagBytes, MetaBody;
    var tag := MetaTagBytes(m.noted[6], meta);
    var d := FILE_HEADER + tag + rest;
    assert d == FILE_HEADER + (tag + rest);
    assert d[..13] == FILE_HEADER && d[13..] == tag + rest;
    HeaderReads(d);
    FirstTag(0x12, 0, MetaBody(meta), rest);
  }

  lemma HeaderReads(d: seq<byte>)
    requires |d| >= 13 && d[..13] == FILE_HEADER
    ensures Is(d[..3], "FLV") && d[3] == 1 && d[4] == 5 && Be32(d, 5) == 9 && Be32(d, 9) == 0
  {
    assert forall i :: 0 <= i < 13 ==> d[i] == FILE_HEADER[i];
  }

  // ---------- the properties the server has sent ----------

  /** What the file says of a numeric key when the server has sent these entries. */
  function Told(es: seq<Entry>, k: Key): seq<byte> {
    match LastValue(es, k)
    case None => ZERO
    case Some(v) => v
  }

  lemma {:induction false} LastValueFits(es: seq<Entry>, k: Key)
    requires !HoldsText(k) && forall e :: e in es ==> Storable(e)
    ensures LastValue(es, k).Some? ==> |LastValue(es, k).value| == 8
    decreases |es|
  {
    if es != [] {
      assert es[|es| - 1] in es;
      LastValueFits(es[..|es| - 1], k);
    }
  }

  lemma NumberIsTold(payload: seq<byte>, es: seq<Entry>, rest: seq<byte>, k: Key)
    requires !HoldsText(k) && (forall e :: e in es ==> Storable(e)) && EndsEntries(rest)
    requires payload == StringBytes(Ascii("onMetaData")) + OBJECT_BEGIN + EntriesBytes(es) + rest
    ensures NumberOf(ReadMeta(payload).meta, k) == Told(es, k)
  {
    hide ReadMeta, EntriesBytes, LastValue, StringBytes, Ascii, EndsEntries;
    LastValueFits(es, k);
    MetaHoldsLastValues(Ascii("onMetaData"), es, rest, k);
  }

  /** Width, height, frame rate and codec of the file are the last ones the server has given
      in front of the end, or of where its object cannot be read on; the other three properties are constants. */
  lemma FileTellsLastValues(payload: seq<byte>, es: seq<Entry>, rest: seq<byte>)
    requires (forall e :: e in es ==> Storable(e)) && EndsEntries(rest)
    requires payload == StringBytes(Ascii("onMetaData")) + OBJECT_BEGIN + EntriesBytes(es) + rest
    ensures |Told(es, Width)| == |Told(es, Height)| == |Told(es, FrameRate)| == |Told(es, VideoCodecId)| == 8
    ensures Written(ReadMeta(payload).meta) ==
            Seven(Told(es, Width), Told(es, Height), Told(es, FrameRate), Told(es, VideoCodecId))
  {
    hide ReadMeta, EntriesBytes, LastValue, StringBytes, Ascii, Told, NumberOf, Seven, Storable, EndsEntries;
    NumberIsTold(payload, es, rest, Width);
    NumberIsTold(payload, es, rest, Height);
    NumberIsTold(payload, es, rest, FrameRate);
    NumberIsTold(payload, es, rest, VideoCodecId);
  }

  // ---------- the header copy ----------

  predicate CopyFits(st: Stream) {
    st.noted[3..6] == ToBe24(st.size) && st.noted[6] == st.mtype
  }

  /** The header copy stays right over a chunk that continues a message exactly when the
      chunk has a short header or repeats the size and the type of the message. */
  lemma CopyStays(s: State, d: seq<byte>)
    requires Valid(s) && ReadHeader(d).Whole?
    requires var st := s.streams[ReadHeader(d).h.csid]; st.left > 0 && CopyFits(st)
    ensures var h := ReadHeader(d).h; var st := s.streams[h.csid];
            CopyFits(Prepare(s, d).streams[h.csid]) <==> h.fmt >= 2 || (h.size == st.size && h.mtype == st.mtype)
  {
    hide Prepare, CopyHeader, ToBe24, ReadHeader;
    PreparedCopy(s, d);
    var h := ReadHeader(d).h;
    HeaderFields(d);
    var st := s.streams[h.csid];
    if h.fmt < 2 {
      CopiedFields(s.streams, d);
      SameField(d[4..7], st.size);
    } else {
      NothingCopied(s.streams, d);
    }
  }

  lemma PreparedCopy(s: State, d: seq<byte>)
    requires Valid(s)
    ensures Prepare(s, d).streams == CopyHeader(s.streams, d)
  {
    hide CopyHeader, ReadHeader, StampOf;
  }

  lemma HeaderFields(d: seq<byte>)
    requires ReadHeader(d).Whole?
    ensures var h := ReadHeader(d).h;
            && d != [] && h.fmt == d[0] / 64 && h.csid == d[0] % 64 && (h.fmt >= 2 <==> !CopiesHeader(d))
            && (h.fmt < 2 ==> |d| >= 8 && h.size == Be24(d[4..7], 0) && h.mtype == d[7])
  {
    hide Be24;
    if ReadHeader(d).h.fmt < 2 {
      FieldAt(d, 4);
    }
  }

  lemma CopiedFields(streams: seq<Stream>, d: seq<byte>)
    requires |streams| == MAX_CHUNK_ID && CopiesHeader(d)
    ensures var csid: nat := d[0] % 64; var st := CopyHeader(streams, d)[csid];
            st == streams[csid].(noted := st.noted) && st.noted[3..6] == d[4..7] && st.noted[6] == d[7]
  {
    var csid: nat, n := d[0] % 64, HeaderLen(d[0] / 64);
    var noted := d[1..n + 1] + streams[csid].noted[n..];
    assert CopyHeader(streams, d)[csid] == streams[csid].(noted := noted);
    NotedFields(d, n, streams[csid].noted[n..]);
  }

  lemma NotedFields(d: seq<byte>, n: nat, rest: seq<byte>)
    requires 7 <= n < |d|
    ensures (d[1..n + 1] + rest)[3..6] == d[4..7] && (d[1..n + 1] + rest)[6] == d[7]
  {
    Sub(d, 1, n + 1, 3, 6);
    assert d[1..n + 1][6] == d[7];
  }

  lemma SameField(f: seq<byte>, n: nat)
    requires |f| == 3 && n < 0x100_0000
    ensures f == ToBe24(n) <==> Be24(f, 0) == n
  {
  }

  // ---------- from the stream to the file ----------

  /** What a mirrored sender has sent arrives with a consistent header copy. */
  lemma CarriedIsConsistent(log: seq<Message>, done: seq<OutMessage>)
    requires AllWellSized(log) && CarriesAll(log, done)
    ensures AllConsistent(log)
  {
    forall m | m in log
      ensures Consistent(m)
    {
      var i :| 0 <= i < |log| && log[i] == m;
      assert Carries(log[i], done[i]);
    }
  }

  /** For every schedule of chunks, every way the network cuts it, and everything that has
      arrived of it, whether or not a handler has failed, if one onMetaData was handled:
      the file holds the metadata tag and one tag for each audio or video message handled
      behind it, in the order of completion, with the payload that was sent.  All messages
      delivered were handled well except perhaps the last. */
  lemma StreamToFile(snd: Sender, s: State, actions: seq<Action>, pieces: seq<seq<byte>>, later: seq<byte>, k: nat)
    requires Mirrors(snd, s) && Schedule(snd, actions) && s.ctl.saveFlv && !s.ctl.flvOpen
    requires Flatten(pieces) + later == EmitAll(snd, actions).bytes
    requires AllWellSized(Feed(s, pieces).log) && OneMeta(Kept(s.ctl, Feed(s, pieces).log), k)
    ensures var f := Feed(s, pieces); var done := EmitAll(snd, actions).done; var kept := Kept(s.ctl, f.log);
            && |f.log| <= |done| && CarriesAll(f.log, done[..|f.log|]) && |kept| + 1 >= |f.log|
            && ReadFile(FileBytes(HandleAll(s.ctl, f.log).outs)) == Some(Media(FileTags(kept, k)))
  {
    hide *;
    MirrorsValid(snd, s);
    var e, f := EmitAll(snd, actions), Feed(s, pieces);
    AnyCutDelivers(snd, s, actions, pieces, later);
    FeedKept(s, pieces);
    CarriedIsConsistent(f.log, e.done[..|f.log|]);
    SplitAt(Kept(s.ctl, f.log), k);
    FileReadsBack(s.ctl, f.log, k);
  }
}
