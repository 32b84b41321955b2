/** Reading the onMetaData object. */
module MetaData {
  import opened Bytes
  import opened Amf0

  datatype Key =
    | Server | Width | Height | DisplayWidth | DisplayHeight | Duration | FrameRate | Fps
    | VideoDataRate | VideoCodecId | AudioDataRate | AudioCodecId | Profile | Level

  function NameOf(k: Key): string {
    match k
    case Server => "Server"
    case Width => "width"
    case Height => "height"
    case DisplayWidth => "displayWidth"
    case DisplayHeight => "displayHeight"
    case Duration => "duration"
    case FrameRate => "framerate"
    case Fps => "fps"
    case VideoDataRate => "videodatarate"
    case VideoCodecId => "videocodecid"
    case AudioDataRate => "audiodatarate"
    case AudioCodecId => "audiocodecid"
    case Profile => "profile"
    case Level => "level"
  }

  predicate IsText(k: Key) {
    k == Server || k == Profile || k == Level
  }

  /** The chain of comparisons, in the order of the code. */
  function KeyOf(name: seq<byte>): Option<Key> {
    if Is(name, NameOf(Server)) then Some(Server)
    else if Is(name, NameOf(Width)) then Some(Width)
    else if Is(name, NameOf(Height)) then Some(Height)
    else if Is(name, NameOf(DisplayWidth)) then Some(DisplayWidth)
    else if Is(name, NameOf(DisplayHeight)) then Some(DisplayHeight)
    else if Is(name, NameOf(Duration)) then Some(Duration)
    else if Is(name, NameOf(FrameRate)) then Some(FrameRate)
    else if Is(name, NameOf(Fps)) then Some(Fps)
    else if Is(name, NameOf(VideoDataRate)) then Some(VideoDataRate)
    else if Is(name, NameOf(VideoCodecId)) then Some(VideoCodecId)
    else if Is(name, NameOf(AudioDataRate)) then Some(AudioDataRate)
    else if Is(name, NameOf(AudioCodecId)) then Some(AudioCodecId)
    else if Is(name, NameOf(Profile)) then Some(Profile)
    else if Is(name, NameOf(Level)) then Some(Level)
    else None
  }

  /** Length and first letter tell the names apart. */
  function Shape(k: Key): (nat, char) {
    match k
    case Server => (6, 'S')
    case Width => (5, 'w')
    case Height => (6, 'h')
    case DisplayWidth => (12, 'd')
    case DisplayHeight => (13, 'd')
    case Duration => (8, 'd')
    case FrameRate => (9, 'f')
    case Fps => (3, 'f')
    case VideoDataRate => (13, 'v')
    case VideoCodecId => (12, 'v')
    case AudioDataRate => (13, 'a')
    case AudioCodecId => (12, 'a')
    case Profile => (7, 'p')
    case Level => (5, 'l')
  }

  lemma ShapeOfName(k: Key)
    ensures |NameOf(k)| == Shape(k).0 && NameOf(k)[0] == Shape(k).1
  {
  }

  lemma NamesDiffer(name: seq<byte>, k: Key, j: Key)
    requires Is(name, NameOf(k)) && k != j
    ensures !Is(name, NameOf(j))
  {
    hide NameOf;
    ShapeOfName(k);
    ShapeOfName(j);
    assert Shape(k) != Shape(j);
  }

  lemma KeyOfName(name: seq<byte>, k: Key)
    requires Is(name, NameOf(k))
    ensures KeyOf(name) == Some(k)
  {
    hide Is, NameOf;
    forall j | j != k
      ensures !Is(name, NameOf(j))
    {
      NamesDiffer(name, k, j);
    }
  }

  type Meta = map<Key, seq<byte>>

  datatype MetaResult = MetaResult(ok: bool, meta: Meta)

  const NAME_CAP := 256
  const TEXT_CAP := 128

  function PopValue(k: Key, d: seq<byte>): (r: Option<Popped>)
    ensures r.Some? ==> 3 <= r.value.used <= |d|
  {
    if IsText(k) then PopString(d, TEXT_CAP) else PopNumber(d)
  }

  /** One round of the entry loop: it ends, or goes on behind what it has read. */
  datatype Turn = Stop(result: MetaResult) | Next(used: nat, meta: Meta)

  /** Behind a name that is not recognised the length of that name is skipped a second
      time, which may run past the end of the message. */
  function TakeEntry(d: seq<byte>, meta: Meta): (t: Turn)
    ensures t.Next? ==> 3 <= t.used <= |d|
  {
    if |d| == 0 then Stop(MetaResult(PopObjectEnd(d).Some?, meta))
    else
      match PopName(d, NAME_CAP)
      case None => Stop(MetaResult(false, meta))
      case Some(p) =>
        if p.used == 0 then Stop(MetaResult(PopObjectEnd(d).Some?, meta))
        else
          match KeyOf(CStr(p.value))
          case None => if 2 * p.used > |d| then Stop(MetaResult(false, meta)) else Next(2 * p.used, meta)
          case Some(k) =>
            match PopValue(k, d[p.used..])
            case None => Stop(MetaResult(false, meta))
            case Some(v) => Next(p.used + v.used, meta[k := v.value])
  }

  function ReadEntries(d: seq<byte>, meta: Meta): MetaResult
    decreases |d|
  {
    match TakeEntry(d, meta)
    case Stop(r) => r
    case Next(used, next) => ReadEntries(d[used..], next)
  }

  /** The whole message: a name, the start of the object, the entries. */
  function ReadMeta(d: seq<byte>): MetaResult {
    match PopString(d, NAME_CAP)
    case None => MetaResult(false, map[])
    case Some(p) =>
      match PopObjectBegin(d[p.used..])
      case None => MetaResult(false, map[])
      case Some(n) => ReadEntries(d[p.used + n..], map[])
  }

  /** The same as a loop over a moving position.  Every named entry takes at least three
      bytes, and nothing is read outside the message. */
  method ProcessMetaData(d: seq<byte>) returns (r: MetaResult)
    ensures r == ReadMeta(d)
  {
    hide ReadEntries, KeyOf, PopName, PopValue, PopString, PopObjectEnd, CStr;
    var meta: Meta := map[];
    var name := PopString(d, NAME_CAP);
    if name == None {
      return MetaResult(false, meta);
    }
    var pos := name.value.used;
    var begin := PopObjectBegin(d[pos..]);
    if begin == None {
      return MetaResult(false, meta);
    }
    pos := pos + begin.value;
    var dataLen: int := |d| - pos;
    while dataLen > 0
      invariant dataLen == |d| - pos
      invariant dataLen >= 0 ==> ReadEntries(d[pos..], meta) == ReadMeta(d)
      invariant dataLen < 0 ==> MetaResult(false, meta) == ReadMeta(d)
      decreases dataLen
    {
      ghost var here, turn := pos, TakeEntry(d[pos..], meta);
      Unroll(d[pos..], meta);
      var prop := PopName(d[pos..], NAME_CAP);
      if prop == None {
        return MetaResult(false, meta);
      }
      if prop.value.used == 0 {
        break;
      }
      var ret := prop.value.used;
      DropTwice(d, here, ret);
      pos, dataLen := pos + ret, dataLen - ret;
      var key := KeyOf(CStr(prop.value.value));
      if key.Some? {
        var value := PopValue(key.value, d[pos..]);
        if value == None {
          return MetaResult(false, meta);
        }
        meta := meta[key.value := value.value.value];
        ret := value.value.used;
      }
      pos, dataLen := pos + ret, dataLen - ret;
      if dataLen >= 0 {
        assert turn == Next(pos - here, meta);
        DropTwice(d, here, pos - here);
      }
    }
    if dataLen < 0 {
      return MetaResult(false, meta);
    }
    Unroll(d[pos..], meta);
    return MetaResult(PopObjectEnd(d[pos..]).Some?, meta);
  }

  lemma Unroll(d: seq<byte>, meta: Meta)
    ensures ReadEntries(d, meta) == match TakeEntry(d, meta)
                                    case Stop(r) => r
                                    case Next(used, next) => ReadEntries(d[used..], next)
  {
  }

  // ---------- names that are not recognised ----------

  /** A name that is none of the keys. */
  predicate Foreign(name: seq<byte>): (b: bool)
    ensures b ==> 0 < |name| < NAME_CAP
  {
    0 < |name| < NAME_CAP && forall k: Key :: !Is(CStr(name), NameOf(k))
  }

  lemma ForeignHasNoKey(name: seq<byte>)
    requires Foreign(name)
    ensures KeyOf(CStr(name)) == None
  {
    hide Is, NameOf, CStr;
  }

  /** Behind a name of n bytes that is not recognised n + 2 bytes are skipped, whatever they
      are, and the object fails if they are not there. */
  lemma ForeignName(name: seq<byte>, rest: seq<byte>, meta: Meta)
    requires Foreign(name)
    ensures ReadEntries(NameBytes(name) + rest, meta) ==
            if |rest| < |name| + 2 then MetaResult(false, meta) else ReadEntries(rest[|name| + 2..], meta)
  {
    hide ReadEntries, KeyOf, PopValue, CStr, NameBytes, Foreign, PopName;
    var d := NameBytes(name) + rest;
    ForeignHasNoKey(name);
    NameInFront(name, rest, NAME_CAP);
    Unroll(d, meta);
    if |rest| >= |name| + 2 {
      assert d[2 * (|name| + 2)..] == rest[|name| + 2..];
    }
  }

  lemma NoName(d: seq<byte>, meta: Meta)
    requires |d| < 2 || (d[0] == 0xFF) || d == [0, 9]
    ensures !ReadEntries(d, meta).ok
  {
    hide KeyOf, PopValue;
  }

  /** A value of another length is not skipped right: filled up with 0xFF, it makes an object
      fail that would have ended behind it. */
  lemma Misread(name: seq<byte>, value: seq<byte>, meta: Meta)
    requires Foreign(name) && |value| != |name| + 2 && forall i :: 3 <= i < |value| ==> value[i] == 0xFF
    ensures !ReadEntries(NameBytes(name) + value + OBJECT_END, meta).ok
    ensures ReadEntries(OBJECT_END, meta).ok
  {
    hide ReadEntries, NameBytes, Foreign;
    var rest := value + OBJECT_END;
    NoEntry([], meta);
    assert OBJECT_END + [] == OBJECT_END;
    assert NameBytes(name) + value + OBJECT_END == NameBytes(name) + rest;
    ForeignName(name, rest, meta);
    if |rest| >= |name| + 2 {
      var d := rest[|name| + 2..];
      if |name| + 2 < |value| {
        assert d[0] == value[|name| + 2];
      } else {
        assert d == OBJECT_END[|name| + 2 - |value|..];
        assert |d| == 2 ==> d == [0, 9];
      }
      NoName(d, meta);
    }
  }

  /** Whatever number stands behind the name, and whatever follows, the number is skipped. */
  ghost predicate SkipsNumbers(name: seq<byte>)
    requires Foreign(name)
  {
    forall bits: seq<byte>, rest: seq<byte>, meta: Meta :: |bits| == 8 ==>
      ReadEntries(NameBytes(name) + NumberBytes(bits) + rest, meta) == ReadEntries(rest, meta)
  }

  /** The same of texts of one length. */
  ghost predicate SkipsTexts(name: seq<byte>, n: nat)
    requires Foreign(name) && n < 0x1_0000
  {
    forall text: seq<byte>, rest: seq<byte>, meta: Meta :: |text| == n ==>
      ReadEntries(NameBytes(name) + StringBytes(text) + rest, meta) == ReadEntries(rest, meta)
  }

  lemma FittingValue(name: seq<byte>, value: seq<byte>, rest: seq<byte>, meta: Meta)
    requires Foreign(name) && |value| == |name| + 2
    ensures ReadEntries(NameBytes(name) + value + rest, meta) == ReadEntries(rest, meta)
  {
    hide ReadEntries, NameBytes, Foreign;
    assert NameBytes(name) + value + rest == NameBytes(name) + (value + rest);
    ForeignName(name, value + rest, meta);
    assert (value + rest)[|name| + 2..] == rest;
  }

  /** Behind a name that is not recognised, a number is skipped exactly if the name has
      7 bytes. */
  lemma NumbersSkippedExactlyWhen(name: seq<byte>)
    requires Foreign(name)
    ensures SkipsNumbers(name) <==> |name| == 7
  {
    hide ReadEntries, NameBytes, NumberBytes, Foreign;
    if |name| == 7 {
      forall bits: seq<byte>, rest: seq<byte>, meta: Meta | |bits| == 8
        ensures ReadEntries(NameBytes(name) + NumberBytes(bits) + rest, meta) == ReadEntries(rest, meta)
      {
        FittingValue(name, NumberBytes(bits), rest, meta);
      }
    } else {
      var bits: seq<byte> := [0xFF, 0xFF, 0xFF, 0xFF, 0xFF, 0xFF, 0xFF, 0xFF];
      NumberIsFull(bits);
      Misread(name, NumberBytes(bits), map[]);
    }
  }

  lemma NumberIsFull(bits: seq<byte>)
    requires forall i :: 0 <= i < |bits| ==> bits[i] == 0xFF
    ensures forall i :: 3 <= i < |NumberBytes(bits)| ==> NumberBytes(bits)[i] == 0xFF
  {
  }

  /** And a text exactly if it has one byte less than the name. */
  lemma TextsSkippedExactlyWhen(name: seq<byte>, n: nat)
    requires Foreign(name) && n < 0x1_0000
    ensures SkipsTexts(name, n) <==> n + 1 == |name|
  {
    hide ReadEntries, NameBytes, StringBytes, Foreign;
    if n + 1 == |name| {
      forall text: seq<byte>, rest: seq<byte>, meta: Meta | |text| == n
        ensures ReadEntries(NameBytes(name) + StringBytes(text) + rest, meta) == ReadEntries(rest, meta)
      {
        FittingValue(name, StringBytes(text), rest, meta);
      }
    } else {
      var text: seq<byte> := seq(n, _ => 0xFF);
      TextIsFull(text);
      Misread(name, StringBytes(text), map[]);
    }
  }

  lemma TextIsFull(text: seq<byte>)
    requires |text| < 0x1_0000 && forall i :: 0 <= i < |text| ==> text[i] == 0xFF
    ensures forall i :: 3 <= i < |StringBytes(text)| ==> StringBytes(text)[i] == 0xFF
  {
  }

  // ---------- objects ----------

  /** A recognised key with its value, or another name with a value. */
  datatype Entry = Entry(key: Key, value: seq<byte>) | Other(name: seq<byte>, value: seq<byte>)

  /** The keys whose value is a text; that of the others is a number. */
  predicate HoldsText(k: Key) {
    NameOf(k) in ["Server", "profile", "level"]
  }

  lemma TextKeys(k: Key)
    ensures HoldsText(k) <==> IsText(k)
  {
    ShapeOfName(k);
  }

  /** The value of a key has its type; that of another name has as many bytes as the name
      and its length. */
  predicate Storable(e: Entry) {
    match e
    case Entry(key, value) => if HoldsText(key) then |value| < 128 else |value| == 8
    case Other(name, value) => Foreign(name) && |value| == |name| + 2
  }

  function EntryBytes(e: Entry): seq<byte>
    requires Storable(e)
  {
    match e
    case Entry(key, value) => NameBytes(NameText(key)) + ValueBytes(key, value)
    case Other(name, value) => NameBytes(name) + value
  }

  function ValueBytes(key: Key, value: seq<byte>): seq<byte>
    requires HoldsText(key) ==> |value| < 128
  {
    if HoldsText(key) then StringBytes(value) else NumberBytes(value)
  }

  /** A key's name as bytes. */
  function NameText(k: Key): (r: seq<byte>)
    ensures Is(r, NameOf(k)) && 0 < |r| < 16 && 0 !in r
  {
    ShapeOfName(k);
    Ascii(NameOf(k))
  }

  function EntriesBytes(es: seq<Entry>): seq<byte>
    requires forall e :: e in es ==> Storable(e)
  {
    if es == [] then [] else EntryBytes(es[0]) + EntriesBytes(es[1..])
  }

  function Stored(meta: Meta, e: Entry): Meta {
    if e.Entry? then meta[e.key := e.value] else meta
  }

  function Assigned(meta: Meta, es: seq<Entry>): Meta
    decreases |es|
  {
    if es == [] then meta else Assigned(Stored(meta, es[0]), es[1..])
  }

  /** The last value given for a key, if there is one. */
  function LastValue(es: seq<Entry>, k: Key): Option<seq<byte>> {
    if es == [] then None
    else if es[|es| - 1].Entry? && es[|es| - 1].key == k then Some(es[|es| - 1].value)
    else LastValue(es[..|es| - 1], k)
  }

  lemma {:induction false} AssignedIsLast(meta: Meta, es: seq<Entry>, k: Key)
    ensures match LastValue(es, k)
            case None => k in Assigned(meta, es) <==> k in meta
            case Some(v) => k in Assigned(meta, es) && Assigned(meta, es)[k] == v
    ensures LastValue(es, k) == None && k in meta ==> Assigned(meta, es)[k] == meta[k]
    decreases |es|
  {
    if es != [] {
      var front, last := es[..|es| - 1], es[|es| - 1];
      AssignedIsLast(meta, front, k);
      AssignedAppend(meta, front, last);
      assert es == front + [last];
    }
  }

  lemma {:induction false} AssignedAppend(meta: Meta, es: seq<Entry>, e: Entry)
    ensures Assigned(meta, es + [e]) == Stored(Assigned(meta, es), e)
    decreases |es|
  {
    if es != [] {
      AssignedAppend(Stored(meta, es[0]), es[1..], e);
      assert (es + [e])[1..] == es[1..] + [e];
    }
  }

  lemma OneEntry(e: Entry, rest: seq<byte>, meta: Meta)
    requires Storable(e)
    ensures ReadEntries(EntryBytes(e) + rest, meta) == ReadEntries(rest, Stored(meta, e))
  {
    match e {
      case Entry(key, value) => KeyEntry(key, value, rest, meta);
      case Other(name, value) => FittingValue(name, value, rest, meta);
    }
  }

  lemma KeyEntry(key: Key, value: seq<byte>, rest: seq<byte>, meta: Meta)
    requires if HoldsText(key) then |value| < 128 else |value| == 8
    ensures ReadEntries(NameBytes(NameText(key)) + ValueBytes(key, value) + rest, meta) ==
            ReadEntries(rest, meta[key := value])
  {
    hide ReadEntries, KeyOf, PopValue, CStr, ValueBytes, NameBytes;
    var name, bytes := NameText(key), ValueBytes(key, value);
    var d := NameBytes(name) + bytes + rest;
    assert d == NameBytes(name) + (bytes + rest);
    NameReadsBack(name, bytes + rest);
    KeyOfName(name, key);
    assert d[|NameBytes(name)|..] == bytes + rest;
    ValueReadsBack(key, value, rest);
    assert d[|NameBytes(name)| + |bytes|..] == rest;
    Unroll(d, meta);
  }

  lemma NameReadsBack(name: seq<byte>, rest: seq<byte>)
    requires 0 < |name| < NAME_CAP && 0 !in name
    ensures PopName(NameBytes(name) + rest, NAME_CAP) == Some(Popped(name, |name| + 2)) && CStr(name) == name
  {
    NameInFront(name, rest, NAME_CAP);
    CStrOfCString(name);
  }

  lemma ValueReadsBack(key: Key, value: seq<byte>, rest: seq<byte>)
    requires if HoldsText(key) then |value| < 128 else |value| == 8
    ensures PopValue(key, ValueBytes(key, value) + rest) == Some(Popped(value, |ValueBytes(key, value)|))
  {
    TextKeys(key);
    if IsText(key) {
      StringInFront(value, rest, TEXT_CAP);
    } else {
      NumberInFront(value, rest);
    }
  }

  lemma NoEntry(rest: seq<byte>, meta: Meta)
    ensures ReadEntries(OBJECT_END + rest, meta) == MetaResult(true, meta)
  {
    var d := OBJECT_END + rest;
    assert d[0] == 0 && d[1] == 0 && d[2] == 9;
  }

  /** A value of the type of the key. */
  predicate ValueFits(k: Key, d: seq<byte>) {
    if HoldsText(k) then |d| >= 3 && d[0] == 2 && Be16(d, 1) < 128 && |d| >= Be16(d, 1) + 3
    else |d| >= 9 && d[0] == 0
  }

  /** No entry starts here: there is no name, or one that is too long, or no fitting value
      behind a key, or too little to skip behind another name. */
  ghost predicate EndsEntries(d: seq<byte>) {
    || |d| < 2 || Be16(d, 0) == 0 || Be16(d, 0) >= 256 || |d| < Be16(d, 0) + 2
    || var n := Be16(d, 0); var name, behind := d[2..n + 2], d[n + 2..];
       (exists k: Key :: Is(CStr(name), NameOf(k)) && !ValueFits(k, behind)) || (Foreign(name) && |behind| < n + 2)
  }

  /** Whether an object that stops here has come to its end. */
  predicate IsEnd(d: seq<byte>) {
    |d| >= 3 && d[0] == 0 && d[1] == 0
  }

  lemma NothingMore(d: seq<byte>, meta: Meta)
    requires EndsEntries(d)
    ensures ReadEntries(d, meta) == MetaResult(IsEnd(d), meta)
  {
    hide KeyOf, CStr, NameOf, Is, Foreign, ValueFits;
    if |d| >= 2 && 0 < Be16(d, 0) < 256 && |d| >= Be16(d, 0) + 2 {
      var n := Be16(d, 0);
      var name, behind := d[2..n + 2], d[n + 2..];
      if k: Key :| Is(CStr(name), NameOf(k)) && !ValueFits(k, behind) {
        KeyOfName(CStr(name), k);
        ValueIsPopped(k, behind);
      } else {
        ForeignHasNoKey(name);
      }
    }
  }

  lemma ValueIsPopped(k: Key, d: seq<byte>)
    ensures PopValue(k, d).Some? <==> ValueFits(k, d)
  {
    hide HoldsText, IsText;
    TextKeys(k);
  }

  /** For every object: entries are read up to where none starts, and those in front of it
      count, whether or not it is the end. */
  lemma {:induction false} ReadsEntries(es: seq<Entry>, rest: seq<byte>, meta: Meta)
    requires (forall e :: e in es ==> Storable(e)) && EndsEntries(rest)
    ensures ReadEntries(EntriesBytes(es) + rest, meta) == MetaResult(IsEnd(rest), Assigned(meta, es))
    decreases |es|
  {
    hide ReadEntries, EndsEntries, IsEnd;
    if es == [] {
      NothingMore(rest, meta);
      assert EntriesBytes(es) + rest == rest;
    } else {
      ReadsEntries(es[1..], rest, Stored(meta, es[0]));
      FirstEntry(es, rest, meta);
    }
  }

  lemma FirstEntry(es: seq<Entry>, rest: seq<byte>, meta: Meta)
    requires es != [] && forall e :: e in es ==> Storable(e)
    ensures ReadEntries(EntriesBytes(es) + rest, meta) == ReadEntries(EntriesBytes(es[1..]) + rest, Stored(meta, es[0]))
  {
    hide ReadEntries, EntryBytes;
    OneEntry(es[0], EntriesBytes(es[1..]) + rest, meta);
    assert EntriesBytes(es) + rest == EntryBytes(es[0]) + (EntriesBytes(es[1..]) + rest);
  }

  /** The whole message: every key holds the last value given for it in front of the place
      where no entry starts. */
  lemma MetaHoldsLastValues(title: seq<byte>, es: seq<Entry>, rest: seq<byte>, k: Key)
    requires |title| < NAME_CAP && (forall e :: e in es ==> Storable(e)) && EndsEntries(rest)
    ensures var r := ReadMeta(StringBytes(title) + OBJECT_BEGIN + EntriesBytes(es) + rest);
            && r.ok == IsEnd(rest)
            && match LastValue(es, k)
               case None => k !in r.meta
               case Some(v) => k in r.meta && r.meta[k] == v
  {
    hide EntriesBytes, ReadEntries, EndsEntries, IsEnd;
    var entries := EntriesBytes(es) + rest;
    var d := StringBytes(title) + OBJECT_BEGIN + EntriesBytes(es) + rest;
    assert d == StringBytes(title) + (OBJECT_BEGIN + entries);
    TitleReadsBack(title, OBJECT_BEGIN + entries);
    assert d[|title| + 3..] == OBJECT_BEGIN + entries;
    assert d[|title| + 3 + 1..] == entries;
    ReadsEntries(es, rest, map[]);
    AssignedIsLast(map[], es, k);
  }

  /** Nothing is read unless an object follows the title; an array does not count as one. */
  lemma MetaNeedsObject(title: seq<byte>, rest: seq<byte>)
    requires |title| < NAME_CAP && (rest == [] || rest[0] != 3)
    ensures ReadMeta(StringBytes(title) + rest) == MetaResult(false, map[])
  {
    hide StringBytes;
    TitleReadsBack(title, rest);
    assert (StringBytes(title) + rest)[|title| + 3..] == rest;
  }

  lemma EndMarkerEnds(rest: seq<byte>)
    ensures EndsEntries(OBJECT_END + rest) && IsEnd(OBJECT_END + rest)
  {
    var d := OBJECT_END + rest;
    assert d[0] == 0 && d[1] == 0;
  }

  lemma TitleReadsBack(title: seq<byte>, rest: seq<byte>)
    requires |title| < NAME_CAP
    ensures PopString(StringBytes(title) + rest, NAME_CAP) == Some(Popped(title, |title| + 3))
  {
    StringInFront(title, rest, NAME_CAP);
  }
}
