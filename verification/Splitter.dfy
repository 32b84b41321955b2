/** Cutting a message body into chunks of 128 bytes, in place and from the back. */
module Splitter {
  import opened Bytes

  /** The reference: the body with a marker byte in front of every page but the first. */
  function Pages(ct: byte, body: seq<byte>): (r: seq<byte>)
    ensures |body| > 0 ==> |r| == |body| + (|body| - 1) / 128
  {
    if |body| <= 128 then body else body[..128] + [ct] + Pages(ct, body[128..])
  }

  /** Deleting every 129th byte. */
  function Unpaged(d: seq<byte>): seq<byte> {
    if |d| <= 128 then d else d[..128] + Unpaged(d[129..])
  }

  /** No byte of the body is lost or changed by the markers. */
  lemma {:induction false} UnpagedPages(ct: byte, body: seq<byte>)
    ensures Unpaged(Pages(ct, body)) == body
  {
    if |body| > 128 {
      var d := Pages(ct, body);
      UnpagedPages(ct, body[128..]);
      assert d[..128] == body[..128];
      assert d[129..] == Pages(ct, body[128..]);
    }
  }

  /** What stands behind a page: nothing, or a marker and the following pages. */
  function PagesBehind(ct: byte, padded: seq<byte>, at: nat): seq<byte>
    requires at <= |padded|
  {
    if at == |padded| then [] else [ct] + Pages(ct, padded[at..])
  }

  lemma UnfoldPages(ct: byte, d: seq<byte>)
    requires |d| >= 128
    ensures Pages(ct, d) == d[..128] + if |d| == 128 then [] else [ct] + Pages(ct, d[128..])
  {
  }

  lemma FirstPage(ct: byte, padded: seq<byte>, at: nat)
    requires at + 128 <= |padded|
    ensures Pages(ct, padded[at..]) == padded[at..at + 128] + PagesBehind(ct, padded, at + 128)
    ensures PagesBehind(ct, padded, at) == [ct] + padded[at..at + 128] + PagesBehind(ct, padded, at + 128)
  {
    hide Pages;
    var d := padded[at..];
    UnfoldPages(ct, d);
    Sub(padded, at, |padded|, 0, 128);
    Sub(padded, at, |padded|, 128, |d|);
    assert d == padded[at..|padded|] && d[128..] == d[128..|d|];
  }

  /** A short last page is cut off the padded form of the split. */
  lemma {:induction false} PagesOfPrefix(ct: byte, padded: seq<byte>, n: nat)
    requires 0 < n <= |padded| && |padded| == ((n - 1) / 128 + 1) * 128
    ensures n + (n - 1) / 128 <= |Pages(ct, padded)|
    ensures Pages(ct, padded)[..n + (n - 1) / 128] == Pages(ct, padded[..n])
  {
    hide Pages;
    if n > 128 {
      var rest, q := padded[128..], (n - 128 - 1) / 128;
      assert (n - 1) / 128 == q + 1;
      PagesOfPrefix(ct, rest, n - 128);
      assert padded[..n][128..] == rest[..n - 128] && padded[..n][..128] == padded[..128];
      UnfoldPages(ct, padded);
      UnfoldPages(ct, padded[..n]);
      CutBehind(padded[..128] + [ct], Pages(ct, rest), n - 128 + q);
    } else {
      OnePage(ct, padded);
      OnePage(ct, padded[..n]);
    }
  }

  lemma OnePage(ct: byte, d: seq<byte>)
    requires |d| <= 128
    ensures Pages(ct, d) == d
  {
  }

  lemma CutBehind(a: seq<byte>, b: seq<byte>, n: nat)
    requires n <= |b|
    ensures (a + b)[..|a| + n] == a + b[..n]
  {
  }

  /** One round: the page moves up, its marker goes in front of it, and what has been
      placed behind stays. */
  lemma RoundKeeps(m: seq<byte>, dst: nat, ct: byte, page: seq<byte>, src: nat, end: nat)
    requires |page| == 128 && 1 <= dst && src < dst && dst + 128 <= end <= |m|
    ensures var r := Splice(m, dst - 1, [ct] + page);
            r[..src] == m[..src] && r[dst - 1..end] == [ct] + page + m[dst + 128..end]
  {
    ReadUnstored(m, dst - 1, [ct] + page, 0, src);
    StoredAndBehind(m, dst - 1, [ct] + page, end);
  }

  lemma StoredAndBehind(m: seq<byte>, at: nat, s: seq<byte>, end: nat)
    requires at + |s| <= end <= |m|
    ensures Splice(m, at, s)[at..end] == s + m[at + |s|..end]
  {
  }

  /** Moves one page from src to dst and puts the marker in front of it. */
  method MovePage(buf: array<byte>, ct: byte, src: nat, dst: nat)
    requires src < dst && dst + 128 <= buf.Length
    modifies buf
    ensures buf[..] == Splice(old(buf[..]), dst - 1, [ct] + old(buf[..])[src..src + 128])
  {
    hide Splice;
    ghost var m := buf[..];
    Move(buf, dst, src, 128);
    Store(buf, dst - 1, [ct]);
    MarkerAndPage(m, dst, ct, m[src..src + 128]);
  }

  lemma MarkerAndPage(m: seq<byte>, dst: nat, ct: byte, page: seq<byte>)
    requires 1 <= dst && dst + |page| <= |m|
    ensures Splice(Splice(m, dst, page), dst - 1, [ct]) == Splice(m, dst - 1, [ct] + page)
  {
  }

  /** The state of the loop: up to and including the page at src nothing has changed yet,
      and behind the page's place at dst stands what belongs there. */
  ghost predicate Upto(ct: byte, m: seq<byte>, r: seq<byte>, headerLen: nat, src: nat, dst: nat,
                       padded: seq<byte>, end: nat)
    ensures Upto(ct, m, r, headerLen, src, dst, padded, end) ==> dst + 128 <= end <= |m| == |r| && headerLen <= src
  {
    && |r| == |m| && headerLen <= src <= dst && dst + 128 <= end <= |m|
    && headerLen + |padded| <= |m| && padded == m[headerLen..headerLen + |padded|]
    && src - headerLen + 128 <= |padded|
    && r[..src + 128] == m[..src + 128]
    && r[dst + 128..end] == PagesBehind(ct, padded, src - headerLen + 128)
  }

  lemma Round(ct: byte, m: seq<byte>, r: seq<byte>, headerLen: nat, src: nat, dst: nat, padded: seq<byte>, end: nat)
    requires Upto(ct, m, r, headerLen, src, dst, padded, end) && headerLen + 128 <= src && src + 1 <= dst
    requires src - 128 <= dst - 129
    ensures Upto(ct, m, Splice(r, dst - 1, [ct] + r[src..src + 128]), headerLen, src - 128, dst - 129, padded, end)
  {
    hide Pages, PagesBehind, Splice;
    PageOf(m, r, headerLen, src, padded);
    RoundKeeps(r, dst, ct, r[src..src + 128], src, end);
    FirstPage(ct, padded, src - headerLen);
    CutAgain(r, m, src);
  }

  /** The splitter.  The last page is moved with its full 128 bytes even when it is
      short, so the buffer must reach that far. */
  method SplitPack(ct: byte, headerLen: nat, buf: array<byte>, pagLen: nat) returns (ret: int)
    requires pagLen <= buf.Length
    requires pagLen > headerLen + 128 ==> headerLen + (pagLen - headerLen - 1) / 128 * 129 + 128 <= buf.Length
    modifies buf
    ensures pagLen <= headerLen ==> ret == -1 && buf[..] == old(buf[..])
    ensures pagLen > headerLen ==>
              ret == headerLen + |Pages(ct, old(buf[..])[headerLen..pagLen])| <= buf.Length &&
              buf[..ret] == old(buf[..])[..headerLen] + Pages(ct, old(buf[..])[headerLen..pagLen])
  {
    hide Pages, Splice, Upto;
    ghost var m := buf[..];
    if pagLen <= headerLen {
      return -1;
    }
    var pageCount := (pagLen - headerLen - 1) / 128;
    if pageCount == 0 {
      ShortBody(ct, m, headerLen, pagLen);
      return pagLen;
    }
    var src := headerLen + pageCount * 128;
    var dst := headerLen + pageCount * 129;
    ghost var padded := m[headerLen..src + 128];
    ghost var end := dst + 128;
    Unmoved(ct, m, headerLen, src, dst, padded, end);
    for i := 0 to pageCount
      invariant src == headerLen + (pageCount - i) * 128 && dst == headerLen + (pageCount - i) * 129
      invariant Upto(ct, m, buf[..], headerLen, src, dst, padded, end)
    {
      Round(ct, m, buf[..], headerLen, src, dst, padded, end);
      MovePage(buf, ct, src, dst);
      src, dst := src - 128, dst - 129;
    }
    Assemble(ct, m, buf[..], headerLen, pagLen, padded, end);
    return pagLen + pageCount;
  }

  /** In front of the loop nothing has been moved. */
  lemma Unmoved(ct: byte, m: seq<byte>, headerLen: nat, src: nat, dst: nat, padded: seq<byte>, end: nat)
    requires headerLen <= src <= dst && dst + 128 == end <= |m| && padded == m[headerLen..src + 128]
    ensures Upto(ct, m, m, headerLen, src, dst, padded, end)
  {
  }

  lemma ShortBody(ct: byte, m: seq<byte>, headerLen: nat, pagLen: nat)
    requires headerLen < pagLen <= |m| && pagLen - headerLen <= 128
    ensures m[..pagLen] == m[..headerLen] + Pages(ct, m[headerLen..pagLen])
  {
  }

  lemma PageOf(m: seq<byte>, r: seq<byte>, headerLen: nat, src: nat, padded: seq<byte>)
    requires headerLen <= src && src + 128 <= |m| && |r| == |m| && r[..src + 128] == m[..src + 128]
    requires headerLen + |padded| <= |m| && padded == m[headerLen..headerLen + |padded|]
    requires src - headerLen + 128 <= |padded|
    ensures r[src..src + 128] == padded[src - headerLen..src - headerLen + 128]
  {
    Sub(r, 0, src + 128, src, src + 128);
    Sub(m, 0, src + 128, src, src + 128);
    Sub(m, headerLen, headerLen + |padded|, src - headerLen, src - headerLen + 128);
  }

  lemma CutAgain(r: seq<byte>, m: seq<byte>, src: nat)
    requires src + 128 <= |m| && |r| == |m| && r[..src + 128] == m[..src + 128]
    ensures r[..src] == m[..src]
  {
    Sub(r, 0, src + 128, 0, src);
    Sub(m, 0, src + 128, 0, src);
  }

  /** When the loop is done, the split form of the padded body follows the header, and
      cutting it off leaves that of the body. */
  lemma Assemble(ct: byte, m: seq<byte>, r: seq<byte>, headerLen: nat, pagLen: nat, padded: seq<byte>, end: nat)
    requires Upto(ct, m, r, headerLen, headerLen, headerLen, padded, end)
    requires headerLen < pagLen <= headerLen + |padded|
    requires |padded| == ((pagLen - headerLen - 1) / 128 + 1) * 128
    ensures var ret := pagLen + (pagLen - headerLen - 1) / 128;
            ret <= end && r[..ret] == m[..headerLen] + Pages(ct, m[headerLen..pagLen])
  {
    hide Pages, Splice;
    var n := pagLen - headerLen;
    var ret := pagLen + (n - 1) / 128;
    WholeBody(ct, m, r, headerLen, padded, end);
    PagesOfPrefix(ct, padded, n);
    Sub(m, headerLen, headerLen + |padded|, 0, n);
    Sub(r, headerLen, end, 0, ret - headerLen);
    CutAgain(r, m, headerLen);
    Cut(r, 0, headerLen, ret);
  }

  lemma WholeBody(ct: byte, m: seq<byte>, r: seq<byte>, headerLen: nat, padded: seq<byte>, end: nat)
    requires Upto(ct, m, r, headerLen, headerLen, headerLen, padded, end)
    ensures r[headerLen..end] == Pages(ct, padded)
  {
    hide Pages;
    PageOf(m, r, headerLen, headerLen, padded);
    FirstPage(ct, padded, 0);
    assert padded[0..] == padded;
    Cut(r, headerLen, headerLen + 128, end);
  }
}
