/** The AMF0 codec: writers that append to a caller's buffer and readers that refuse
    what does not fit.  A double is its eight bytes, most significant first. */
module Amf0 {
  import opened Bytes

  // ---------- what the writers put down ----------

  function StringBytes(s: seq<byte>): (r: seq<byte>)
    requires |s| < 0x1_0000
    ensures |r| == |s| + 3
  {
    [2] + ToBe16(|s|) + s
  }

  function NumberBytes(bits: seq<byte>): (r: seq<byte>)
    ensures |r| == |bits| + 1
  {
    [0] + bits
  }

  function NameBytes(s: seq<byte>): (r: seq<byte>)
    requires |s| < 0x1_0000
    ensures |r| == |s| + 2
  {
    ToBe16(|s|) + s
  }

  const OBJECT_BEGIN: seq<byte> := [3]
  const OBJECT_END: seq<byte> := [0, 0, 9]
  const NULL: seq<byte> := [5]

  function BoolBytes(b: bool): (r: seq<byte>)
    ensures |r| == 2
  {
    [1, if b then 1 else 0]
  }

  /** The common shape of all writers: `bytes` at position `at`, or nothing and -1. */
  ghost predicate Pushed(m: seq<byte>, r: seq<byte>, at: nat, room: int, fits: bool, bytes: seq<byte>, ret: int)
    requires at + room <= |m|
  {
    if fits && |bytes| <= room then ret == |bytes| && r == Splice(m, at, bytes) else ret == -1 && r == m
  }

  method PushString(dst: array<byte>, at: nat, room: int, s: cstring) returns (ret: int)
    requires at + room <= dst.Length
    modifies dst
    ensures Pushed(old(dst[..]), dst[..], at, room, |s| <= 0xFFFF, if |s| <= 0xFFFF then StringBytes(s) else [], ret)
  {
    if room < |s| + 3 || |s| > 0xFFFF {
      return -1;
    }
    Store(dst, at, StringBytes(s));
    return |s| + 3;
  }

  method PushNumber(dst: array<byte>, at: nat, room: int, bits: seq<byte>) returns (ret: int)
    requires at + room <= dst.Length && |bits| == 8
    modifies dst
    ensures Pushed(old(dst[..]), dst[..], at, room, true, NumberBytes(bits), ret)
  {
    if room < 9 {
      return -1;
    }
    Store(dst, at, NumberBytes(bits));
    return 9;
  }

  method PushObjectHeader(dst: array<byte>, at: nat, room: int) returns (ret: int)
    requires at + room <= dst.Length
    modifies dst
    ensures Pushed(old(dst[..]), dst[..], at, room, true, OBJECT_BEGIN, ret)
  {
    if room < 1 {
      return -1;
    }
    Store(dst, at, OBJECT_BEGIN);
    return 1;
  }

  method PushObjectEnder(dst: array<byte>, at: nat, room: int) returns (ret: int)
    requires at + room <= dst.Length
    modifies dst
    ensures Pushed(old(dst[..]), dst[..], at, room, true, OBJECT_END, ret)
  {
    if room < 3 {
      return -1;
    }
    Store(dst, at, OBJECT_END);
    return 3;
  }

  method PushName(dst: array<byte>, at: nat, room: int, s: cstring) returns (ret: int)
    requires at + room <= dst.Length
    modifies dst
    ensures Pushed(old(dst[..]), dst[..], at, room, |s| <= 0xFFFF, if |s| <= 0xFFFF then NameBytes(s) else [], ret)
  {
    if room < |s| + 2 || |s| > 0xFFFF {
      return -1;
    }
    Store(dst, at, NameBytes(s));
    return |s| + 2;
  }

  method PushBool(dst: array<byte>, at: nat, room: int, b: bool) returns (ret: int)
    requires at + room <= dst.Length
    modifies dst
    ensures Pushed(old(dst[..]), dst[..], at, room, true, BoolBytes(b), ret)
  {
    if room < 2 {
      return -1;
    }
    Store(dst, at, BoolBytes(b));
    return 2;
  }

  method PushNull(dst: array<byte>, at: nat, room: int) returns (ret: int)
    requires at + room <= dst.Length
    modifies dst
    ensures Pushed(old(dst[..]), dst[..], at, room, true, NULL, ret)
  {
    if room < 1 {
      return -1;
    }
    Store(dst, at, NULL);
    return 1;
  }

  // ---------- what the readers accept ----------

  /** A value and the number of bytes it took. */
  datatype Popped = Popped(value: seq<byte>, used: nat)

  /** cap is the size of the caller's buffer, one byte of which is for the NUL. */
  function PopString(d: seq<byte>, cap: int): (r: Option<Popped>)
    ensures r.Some? ==> r.value.used <= |d| && |r.value.value| < 0x1_0000 &&
                        d[..r.value.used] == StringBytes(r.value.value) && |r.value.value| < cap
  {
    if |d| < 3 || cap < 1 || d[0] != 2 then None
    else
      var n := Be16(d, 1);
      if n + 3 > |d| || n > cap - 1 then None else
      assert ToBe16(n) == d[1..3];
      Some(Popped(d[3..3 + n], n + 3))
  }

  function PopNumber(d: seq<byte>): (r: Option<Popped>)
    ensures r.Some? ==> r.value.used == 9 <= |d| && |r.value.value| == 8 && d[..9] == NumberBytes(r.value.value)
  {
    if |d| < 9 || d[0] != 0 then None else Some(Popped(d[1..9], 9))
  }

  function PopNull(d: seq<byte>): Option<nat> {
    if |d| < 1 || d[0] != 5 then None else Some(1)
  }

  function PopObjectBegin(d: seq<byte>): Option<nat> {
    if |d| < 1 || d[0] != 3 then None else Some(1)
  }

  /** The three tests are joined with &&, so one byte in place is enough. */
  function PopObjectEnd(d: seq<byte>): Option<nat> {
    if |d| < 3 || (d[0] != 0 && d[1] != 0 && d[2] != 9) then None else Some(3)
  }

  /** An empty name is reported without moving on. */
  function PopName(d: seq<byte>, cap: int): (r: Option<Popped>)
    ensures r.Some? && r.value.value != [] ==>
              r.value.used <= |d| && |r.value.value| < 0x1_0000 && d[..r.value.used] == NameBytes(r.value.value)
    ensures r.Some? && r.value.value == [] ==> r.value.used == 0
    ensures r.Some? ==> |r.value.value| < cap
  {
    if |d| < 2 || cap < 1 then None
    else
      var n := Be16(d, 0);
      if n == 0 then Some(Popped([], 0))
      else if n + 2 > |d| || n > cap - 1 then None
      else
        assert ToBe16(n) == d[..2];
        Some(Popped(d[2..2 + n], n + 2))
  }

  /** The readers that fill a caller's buffer: on success the value and a NUL. */
  method PopStringInto(dst: array<byte>, d: seq<byte>, cap: nat) returns (ret: int)
    requires cap <= dst.Length
    modifies dst
    ensures match PopString(d, cap)
            case None => ret == -1 && dst[..] == old(dst[..])
            case Some(p) => ret == p.used && dst[..] == Splice(old(dst[..]), 0, p.value + [0])
  {
    if |d| < 3 || cap < 1 {
      return -1;
    }
    if d[0] != 2 {
      return -1;
    }
    var n := Be16(d, 1);
    if n + 3 > |d| || n > cap - 1 {
      return -1;
    }
    Store(dst, 0, d[3..3 + n] + [0]);
    return n + 3;
  }

  method PopNameInto(dst: array<byte>, d: seq<byte>, cap: nat) returns (ret: int)
    requires cap <= dst.Length
    modifies dst
    ensures match PopName(d, cap)
            case None => ret == -1 && dst[..] == old(dst[..])
            case Some(p) => ret == p.used &&
                            dst[..] == if p.used == 0 then old(dst[..]) else Splice(old(dst[..]), 0, p.value + [0])
  {
    if |d| < 2 || cap < 1 {
      return -1;
    }
    var n := Be16(d, 0);
    if n == 0 {
      return 0;
    }
    if n + 2 > |d| || n > cap - 1 {
      return -1;
    }
    Store(dst, 0, d[2..2 + n] + [0]);
    return n + 2;
  }

  /** The end marker is accepted, and so is every triple with one byte in place. */
  lemma ObjectEndAcceptance(d: seq<byte>)
    requires |d| >= 3
    ensures PopObjectEnd(d) == Some(3) <==> d[0] == 0 || d[1] == 0 || d[2] == 9
    ensures d[..3] == OBJECT_END ==> PopObjectEnd(d) == Some(3)
    ensures PopObjectEnd([0, 7, 7]) == Some(3) && [0, 7, 7] != OBJECT_END
  {
    if d[..3] == OBJECT_END {
      assert d[0] == d[..3][0];
    }
  }

  // ---------- sequences ----------

  datatype Item = Str(s: seq<byte>) | Num(bits: seq<byte>) | Nil | Name(name: seq<byte>)

  /** What the writers take: C strings of at most 65535 bytes, and doubles. */
  predicate Writable(x: Item) {
    match x
    case Str(s) => |s| < 0x1_0000 && 0 !in s
    case Num(bits) => |bits| == 8
    case Nil => true
    case Name(s) => |s| < 0x1_0000 && 0 !in s
  }

  function ItemBytes(x: Item): seq<byte>
    requires Writable(x)
  {
    match x
    case Str(s) => StringBytes(s)
    case Num(bits) => NumberBytes(bits)
    case Nil => NULL
    case Name(s) => NameBytes(s)
  }

  function ItemsBytes(xs: seq<Item>): seq<byte>
    requires forall x :: x in xs ==> Writable(x)
  {
    if xs == [] then [] else ItemBytes(xs[0]) + ItemsBytes(xs[1..])
  }

  datatype PoppedItem = PoppedItem(item: Item, used: nat)

  /** Reading one item of the same kind as `like`. */
  function PopLike(like: Item, d: seq<byte>, cap: int): (r: Option<PoppedItem>)
    ensures r.Some? ==> r.value.used <= |d|
  {
    match like
    case Str(_) => (match PopString(d, cap)
                    case None => None
                    case Some(p) => Some(PoppedItem(Str(p.value), p.used)))
    case Num(_) => (match PopNumber(d)
                    case None => None
                    case Some(p) => Some(PoppedItem(Num(p.value), p.used)))
    case Nil => (match PopNull(d)
                 case None => None
                 case Some(n) => Some(PoppedItem(Nil, n)))
    case Name(_) => (match PopName(d, cap)
                     case None => None
                     case Some(p) => Some(PoppedItem(Name(p.value), p.used)))
  }

  datatype PoppedItems = PoppedItems(items: seq<Item>, used: nat)

  /** Reading a list of items of the same kinds as `likes`, one call after the other. */
  function PopAllLike(likes: seq<Item>, d: seq<byte>, cap: int): (r: Option<PoppedItems>)
    ensures r.Some? ==> r.value.used <= |d|
  {
    if likes == [] then Some(PoppedItems([], 0))
    else
      match PopLike(likes[0], d, cap)
      case None => None
      case Some(p) =>
        match PopAllLike(likes[1..], d[p.used..], cap)
        case None => None
        case Some(ps) => Some(PoppedItems([p.item] + ps.items, p.used + ps.used))
  }

  predicate Readable(x: Item, cap: int) {
    match x
    case Str(s) => |s| < cap
    case Name(s) => 0 < |s| < cap
    case _ => true
  }

  lemma StringInFront(s: seq<byte>, rest: seq<byte>, cap: int)
    requires |s| < 0x1_0000 && cap >= 1
    ensures PopString(StringBytes(s) + rest, cap) == if |s| < cap then Some(Popped(s, |s| + 3)) else None
  {
    var d := StringBytes(s) + rest;
    assert d[1..3] == ToBe16(|s|);
    assert d[3..3 + |s|] == s;
  }

  lemma NumberInFront(bits: seq<byte>, rest: seq<byte>)
    requires |bits| == 8
    ensures PopNumber(NumberBytes(bits) + rest) == Some(Popped(bits, 9))
  {
    assert (NumberBytes(bits) + rest)[1..9] == bits;
  }

  lemma NameInFront(s: seq<byte>, rest: seq<byte>, cap: int)
    requires |s| < 0x1_0000 && cap >= 1
    ensures PopName(NameBytes(s) + rest, cap) ==
            if s == [] then Some(Popped([], 0)) else if |s| < cap then Some(Popped(s, |s| + 2)) else None
  {
    var d := NameBytes(s) + rest;
    assert d[..2] == ToBe16(|s|);
    assert d[2..2 + |s|] == s;
  }

  /** One item in front of anything. */
  lemma PopWritten(x: Item, rest: seq<byte>, cap: int)
    requires Writable(x) && cap >= 1
    ensures PopLike(x, ItemBytes(x) + rest, cap) ==
            if Readable(x, cap) then Some(PoppedItem(x, |ItemBytes(x)|))
            else if x == Name([]) then Some(PoppedItem(x, 0)) else None
  {
    match x {
      case Str(s) => StringInFront(s, rest, cap);
      case Num(bits) => NumberInFront(bits, rest);
      case Nil =>
      case Name(s) => NameInFront(s, rest, cap);
    }
  }

  lemma UsedByOne(x: Item, d: seq<byte>, cap: int)
    requires Writable(x) && PopLike(x, d, cap).Some? && PopLike(x, d, cap).value.item == x
    ensures PopLike(x, d, cap).value.used <= |ItemBytes(x)|
  {
  }

  /** One step of reading a list. */
  lemma PopAllStep(xs: seq<Item>, d: seq<byte>, cap: int)
    requires xs != [] && PopAllLike(xs, d, cap).Some? && PopAllLike(xs, d, cap).value.items == xs
    ensures PopLike(xs[0], d, cap).Some? && PopLike(xs[0], d, cap).value.item == xs[0]
    ensures var used := PopLike(xs[0], d, cap).value.used; var rest := PopAllLike(xs[1..], d[used..], cap);
            rest.Some? && rest.value.items == xs[1..] && PopAllLike(xs, d, cap).value.used == used + rest.value.used
  {
    var p := PopLike(xs[0], d, cap).value;
    var ps := PopAllLike(xs[1..], d[p.used..], cap).value;
    assert ([p.item] + ps.items)[0] == p.item && ([p.item] + ps.items)[1..] == ps.items;
  }

  /** Reading a list back never takes more bytes than were written for it. */
  lemma {:induction false} UsedAtMost(xs: seq<Item>, d: seq<byte>, cap: int)
    requires forall x :: x in xs ==> Writable(x)
    requires PopAllLike(xs, d, cap).Some? && PopAllLike(xs, d, cap).value.items == xs
    ensures PopAllLike(xs, d, cap).value.used <= |ItemsBytes(xs)|
  {
    if xs != [] {
      PopAllStep(xs, d, cap);
      UsedByOne(xs[0], d, cap);
      UsedAtMost(xs[1..], d[PopLike(xs[0], d, cap).value.used..], cap);
    }
  }

  ghost predicate ReadsBack(xs: seq<Item>, d: seq<byte>, cap: int, used: nat) {
    PopAllLike(xs, d, cap) == Some(PoppedItems(xs, used))
  }

  lemma ReadsBackStep(xs: seq<Item>, d: seq<byte>, cap: int, first: nat, used: nat)
    requires xs != [] && PopLike(xs[0], d, cap) == Some(PoppedItem(xs[0], first))
    ensures ReadsBack(xs, d, cap, first + used) <==> ReadsBack(xs[1..], d[first..], cap, used)
  {
    if ReadsBack(xs, d, cap, first + used) {
      PopAllStep(xs, d, cap);
    }
    assert [xs[0]] + xs[1..] == xs;
  }

  /** A list whose first item is an empty name falls short by two bytes. */
  lemma NotReadBack(xs: seq<Item>, d: seq<byte>, cap: int)
    requires xs != [] && forall x :: x in xs ==> Writable(x)
    requires PopAllLike(xs, d, cap).Some? && PopAllLike(xs, d, cap).value.items == xs
    requires PopLike(xs[0], d, cap) == None || (xs[0] == Name([]) && PopLike(xs[0], d, cap).value.used == 0)
    ensures PopAllLike(xs, d, cap).value.used < |ItemsBytes(xs)|
  {
    PopAllStep(xs, d, cap);
    UsedAtMost(xs[1..], d[0..], cap);
  }

  /** A written list is read back whole exactly when no name in it is empty and every
      text leaves room for its NUL. */
  lemma {:induction false} WrittenListReadsBack(xs: seq<Item>, rest: seq<byte>, cap: int)
    requires cap >= 1 && forall x :: x in xs ==> Writable(x)
    ensures PopAllLike(xs, ItemsBytes(xs) + rest, cap) == Some(PoppedItems(xs, |ItemsBytes(xs)|)) <==>
            forall x :: x in xs ==> Readable(x, cap)
  {
    if xs != [] {
      assert xs == [xs[0]] + xs[1..];
      if Readable(xs[0], cap) {
        WrittenListReadsBack(xs[1..], rest, cap);
        FirstReadsBack(xs, rest, cap);
      } else {
        FirstNotReadBack(xs, rest, cap);
      }
    }
  }

  lemma FirstReadsBack(xs: seq<Item>, rest: seq<byte>, cap: int)
    requires xs != [] && cap >= 1 && (forall x :: x in xs ==> Writable(x)) && Readable(xs[0], cap)
    ensures ReadsBack(xs, ItemsBytes(xs) + rest, cap, |ItemsBytes(xs)|) <==>
            ReadsBack(xs[1..], ItemsBytes(xs[1..]) + rest, cap, |ItemsBytes(xs[1..])|)
  {
    hide PopLike, ItemBytes, ReadsBack, Writable, ItemsBytes;
    assert xs[0] in xs;
    var after, first := ItemsBytes(xs[1..]) + rest, ItemBytes(xs[0]);
    FirstItem(xs);
    Regroup(first, ItemsBytes(xs[1..]), rest);
    PopWritten(xs[0], after, cap);
    assert (first + after)[|first|..] == after;
    ReadsBackStep(xs, first + after, cap, |first|, |ItemsBytes(xs[1..])|);
  }

  lemma FirstItem(xs: seq<Item>)
    requires xs != [] && forall x :: x in xs ==> Writable(x)
    ensures ItemsBytes(xs) == ItemBytes(xs[0]) + ItemsBytes(xs[1..])
  {
    hide ItemBytes;
  }

  lemma FirstNotReadBack(xs: seq<Item>, rest: seq<byte>, cap: int)
    requires xs != [] && cap >= 1 && (forall x :: x in xs ==> Writable(x)) && !Readable(xs[0], cap)
    ensures !ReadsBack(xs, ItemsBytes(xs) + rest, cap, |ItemsBytes(xs)|)
  {
    hide PopAllLike, PopLike, ItemBytes;
    var d := ItemsBytes(xs) + rest;
    assert d == ItemBytes(xs[0]) + (ItemsBytes(xs[1..]) + rest);
    PopWritten(xs[0], ItemsBytes(xs[1..]) + rest, cap);
    if ReadsBack(xs, d, cap, |ItemsBytes(xs)|) {
      NotReadBack(xs, d, cap);
    }
  }
}
