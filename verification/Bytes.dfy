/** Bytes, unsigned 32-bit words and the big-endian fields that RTMP, AMF0, FLV
    and AVC all use. */
module Bytes {
  type byte = b: int | 0 <= b < 0x100
  type u32 = n: int | 0 <= n < 0x1_0000_0000

  /** The content of a C string: everything before the terminating NUL. */
  type cstring = s: seq<byte> | 0 !in s

  datatype Option<+T> = None | Some(value: T)

  /** A text literal of the program. */
  function Ascii(s: string): (r: cstring)
    requires forall i :: 0 <= i < |s| ==> '\0' < s[i] < 128 as char
    ensures |r| == |s| && Is(r, s)
  {
    seq(|s|, i requires 0 <= i < |s| => s[i] as int)
  }

  /** strcmp(name, s) == 0. */
  predicate Is(name: seq<byte>, s: string) {
    |name| == |s| && forall i :: 0 <= i < |s| ==> name[i] == s[i] as int
  }

  function Be16(d: seq<byte>, i: nat): (n: nat)
    requires i + 2 <= |d|
    ensures n < 0x1_0000
  {
    d[i] as int * 0x100 + d[i + 1] as int
  }

  function Be24(d: seq<byte>, i: nat): (n: nat)
    requires i + 3 <= |d|
    ensures n < 0x100_0000
  {
    d[i] as int * 0x1_0000 + d[i + 1] as int * 0x100 + d[i + 2] as int
  }

  function Be32(d: seq<byte>, i: nat): u32
    requires i + 4 <= |d|
  {
    d[i] as int * 0x100_0000 + d[i + 1] as int * 0x1_0000 + d[i + 2] as int * 0x100 + d[i + 3] as int
  }

  function ToBe16(n: nat): (d: seq<byte>)
    requires n < 0x1_0000
    ensures |d| == 2 && Be16(d, 0) == n
  {
    [n / 0x100, n % 0x100]
  }

  function ToBe24(n: nat): (d: seq<byte>)
    requires n < 0x100_0000
    ensures |d| == 3 && Be24(d, 0) == n
  {
    var a := n / 0x100;
    [a / 0x100, a % 0x100, n % 0x100]
  }

  function ToBe32(n: u32): (d: seq<byte>)
    ensures |d| == 4 && Be32(d, 0) == n
  {
    var a := n / 0x100;
    var b := a / 0x100;
    [b / 0x100, b % 0x100, a % 0x100, n % 0x100]
  }

  lemma FieldAt(d: seq<byte>, i: nat)
    requires i + 3 <= |d|
    ensures Be24(d, i) == Be24(d[i..i + 3], 0)
  {
  }

  lemma WordAt(d: seq<byte>, i: nat)
    requires i + 4 <= |d|
    ensures Be32(d, i) == Be32(d[i..i + 4], 0)
  {
  }

  function Add32(a: u32, b: u32): u32 {
    (a + b) % 0x1_0000_0000
  }

  /** The part of a buffer that C's string functions see. */
  function CStr(s: seq<byte>): (r: cstring)
    ensures |r| <= |s| && r == s[..|r|] && (|r| < |s| ==> s[|r|] == 0)
  {
    if s == [] || s[0] == 0 then [] else [s[0]] + CStr(s[1..])
  }

  lemma CStrOfCString(s: cstring)
    ensures CStr(s) == s
  {
    var r := CStr(s);
    if |r| < |s| {
      assert false;
    }
  }

  /** A slice of a slice. */
  lemma Sub(s: seq<byte>, a: nat, b: nat, i: nat, j: nat)
    requires i <= j && a + j <= b <= |s|
    ensures s[a..b][i..j] == s[a + i..a + j]
  {
    forall k | 0 <= k < j - i
      ensures s[a..b][i..j][k] == s[a + i..a + j][k]
    {
    }
  }

  /** A slice in two pieces. */
  lemma Cut(s: seq<byte>, a: nat, b: nat, c: nat)
    requires a <= b <= c <= |s|
    ensures s[a..c] == s[a..b] + s[b..c]
  {
  }

  /** The memory m after s has been stored at position at. */
  function Splice(m: seq<byte>, at: nat, s: seq<byte>): (r: seq<byte>)
    requires at + |s| <= |m|
    ensures |r| == |m|
  {
    m[..at] + s + m[at + |s|..]
  }

  /** Inside the stored stretch the stored bytes are read back. */
  lemma ReadStored(m: seq<byte>, at: nat, s: seq<byte>, i: nat, j: nat)
    requires at <= i <= j <= at + |s| <= |m|
    ensures Splice(m, at, s)[i..j] == s[i - at..j - at]
  {
    var r := Splice(m, at, s);
    forall k | i <= k < j
      ensures r[k] == s[k - at]
    {
    }
  }

  /** Outside it nothing changes. */
  lemma ReadUnstored(m: seq<byte>, at: nat, s: seq<byte>, i: nat, j: nat)
    requires at + |s| <= |m| && i <= j <= |m| && (j <= at || at + |s| <= i)
    ensures Splice(m, at, s)[i..j] == m[i..j]
  {
    var r := Splice(m, at, s);
    forall k | i <= k < j
      ensures r[k] == m[k]
    {
    }
  }

  /** Storing inside a stored stretch. */
  lemma SpliceInside(m: seq<byte>, at: nat, front: seq<byte>, rest: seq<byte>, s: seq<byte>)
    requires at + |front| + |rest| <= |m| && |s| <= |rest|
    ensures Splice(Splice(m, at, front + rest), at + |front|, s) == Splice(m, at, front + (s + rest[|s|..]))
  {
  }

  /** Two memories agree except possibly on [off, off + len). */
  ghost predicate Outside(m: seq<byte>, r: seq<byte>, off: nat, len: nat) {
    |r| == |m| && off + len <= |m| && r[..off] == m[..off] && r[off + len..] == m[off + len..]
  }

  lemma SpliceOutside(m: seq<byte>, at: nat, s: seq<byte>, off: nat, len: nat)
    requires off <= at && at + |s| <= off + len <= |m|
    ensures Outside(m, Splice(m, at, s), off, len)
  {
    ReadUnstored(m, at, s, 0, off);
    ReadUnstored(m, at, s, off + len, |m|);
  }

  lemma SpliceItself(m: seq<byte>, at: nat, n: nat)
    requires at + n <= |m|
    ensures Splice(m, at, m[at..at + n]) == m
  {
  }

  /** What has been stored at the start is read from there. */
  lemma ReadWhole(m: seq<byte>, s: seq<byte>)
    requires |s| <= |m|
    ensures Splice(m, 0, s)[..|s|] == s
  {
  }

  /** Two steps into a sequence. */
  lemma DropTwice(d: seq<byte>, i: nat, j: nat)
    requires i + j <= |d|
    ensures d[i..][j..] == d[i + j..]
  {
  }

  lemma Regroup(a: seq<byte>, b: seq<byte>, c: seq<byte>)
    ensures a + (b + c) == (a + b) + c
  {
  }

  lemma IsSplice(m: seq<byte>, at: nat, s: seq<byte>, r: seq<byte>)
    requires at + |s| <= |m| == |r|
    requires forall i :: 0 <= i < |s| ==> r[at + i] == s[i]
    requires forall i :: 0 <= i < |m| && (i < at || at + |s| <= i) ==> r[i] == m[i]
    ensures r == Splice(m, at, s)
  {
  }

  /** memmove inside one array: all bytes are read before any is written. */
  method Move(mem: array<byte>, at: nat, from: nat, n: nat)
    requires at + n <= mem.Length && from + n <= mem.Length
    modifies mem
    ensures mem[..] == Splice(old(mem[..]), at, old(mem[..])[from..from + n])
  {
    ghost var m := mem[..];
    forall i | 0 <= i < n {
      mem[at + i] := mem[from + i];
    }
    IsSplice(m, at, m[from..from + n], mem[..]);
  }

  /** memcpy of the bytes s. */
  method Store(mem: array<byte>, at: nat, s: seq<byte>)
    requires at + |s| <= mem.Length
    modifies mem
    ensures mem[..] == Splice(old(mem[..]), at, s)
  {
    ghost var m := mem[..];
    forall i | 0 <= i < |s| {
      mem[at + i] := s[i];
    }
    IsSplice(m, at, s, mem[..]);
  }
}
