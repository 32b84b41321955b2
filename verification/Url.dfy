/** The address fields of the client and the parsing of rtmp://host:port/app/stream. */
module Url {
  import opened Bytes

  const SLASH: byte := 0x2F
  const COLON: byte := 0x3A
  const MP4: seq<byte> := [0x6D, 0x70, 0x34]
  const MP4_PREFIX: cstring := [0x6D, 0x70, 0x34, 0x3A]

  // ---------- the string functions ----------

  /** strstr for one character: its first place, or the end. */
  function Find(s: seq<byte>, b: byte): (n: nat)
    ensures n <= |s| && b !in s[..n] && (n < |s| ==> s[n] == b)
  {
    if s == [] || s[0] == b then 0 else 1 + Find(s[1..], b)
  }

  predicate HasMp4(s: seq<byte>) {
    |s| >= 3 && (s[..3] == MP4 || HasMp4(s[1..]))
  }

  /** What strncpy stores: n bytes, padded with zeros, and no NUL behind a longer source. */
  function Copied(src: cstring, n: nat): (r: seq<byte>)
    ensures |r| == n
  {
    if |src| >= n then src[..n] else src + seq(n - |src|, _ => 0)
  }

  predicate Digit(b: byte) {
    0x30 <= b <= 0x39
  }

  function Value(s: seq<byte>, before: nat): nat {
    if s == [] || !Digit(s[0]) then before else Value(s[1..], 10 * before + s[0] as int - 0x30)
  }

  predicate Space(b: byte) {
    b == 0x20 || 9 <= b <= 13
  }

  /** Blanks, a sign, digits. */
  function Atoi(s: seq<byte>): int {
    if s == [] then 0
    else if Space(s[0]) then Atoi(s[1..])
    else if s[0] == 0x2D then 0 - Value(s[1..], 0) as int
    else if s[0] == 0x2B then Value(s[1..], 0)
    else Value(s, 0)
  }

  // ---------- what parsing makes of the fields ----------

  /** The buffers rtmp_host, rtmp_app and rtmp_stream, and the port. */
  datatype FieldsRecord = Fields(host: seq<byte>, app: seq<byte>, stream: seq<byte>, port: int)

  type Fields = f: FieldsRecord | |f.host| == 512 && |f.app| == 32 && |f.stream| == 128
    witness Fields(seq(512, _ => 0), seq(32, _ => 0), seq(128, _ => 0), 0)

  /** Streams of MP4 files are asked for with a prefix. */
  function Named(stream: cstring): cstring {
    if HasMp4(stream) && COLON !in stream then MP4_PREFIX + stream else stream
  }

  /** Application and stream.  None where a text and its NUL do not fit their buffer. */
  function ReadPath(path: cstring, was: Fields): Option<Fields> {
    var n := Find(path, SLASH);
    if n == |path| then
      Some(was.(app := Splice(was.app, 0, Ascii("live") + [0]), stream := Splice(was.stream, 0, [0])))
    else
      var stream := path[n + 1..];
      if n >= 32 || |Named(stream)| >= 128 then None
      else
        Some(was.(app := Splice(was.app, 0, Copied(path, n)),
                  stream := Splice(was.stream, 0,
                                   if HasMp4(stream) && COLON !in stream then Named(stream) + [0] else Copied(stream, 128))))
  }

  datatype Server = Server(host: cstring, port: int)

  function ReadServer(info: cstring): Option<Server> {
    var n := Find(info, COLON);
    if |info| >= 1024 || n >= 512 || |info| - n > 32 then None
    else Some(Server(info[..n], if n < |info| then Atoi(info[n + 1..]) else 1935))
  }

  /** The whole address; the first seven characters are skipped unseen. */
  function ParseUrl(url: cstring, was: Fields): Option<Fields> {
    if |url| < 7 then None
    else
      var rest := url[7..];
      var n := Find(rest, SLASH);
      match if n == |rest| then Some(was) else ReadPath(rest[n + 1..], was)
      case None => None
      case Some(f) =>
        match ReadServer(rest[..n])
        case None => None
        case Some(s) => Some(f.(host := Splice(f.host, 0, s.host + [0]), port := s.port))
  }

  class Address {
    const rtmpHost: array<byte>
    const rtmpApp: array<byte>
    const rtmpStream: array<byte>
    var rtmpPort: int

    ghost predicate Valid() {
      && rtmpHost.Length == 512 && rtmpApp.Length == 32 && rtmpStream.Length == 128
      && rtmpHost != rtmpApp && rtmpHost != rtmpStream && rtmpApp != rtmpStream
    }

    ghost function View(): Fields
      reads this`rtmpPort, rtmpHost, rtmpApp, rtmpStream
      requires Valid()
    {
      Fields(rtmpHost[..], rtmpApp[..], rtmpStream[..], rtmpPort)
    }

    constructor ()
      ensures Valid() && fresh(rtmpHost) && fresh(rtmpApp) && fresh(rtmpStream)
      ensures View() == Fields(seq(512, _ => 0), seq(32, _ => 0), seq(128, _ => 0), 0)
    {
      rtmpHost := new byte[512](_ => 0);
      rtmpApp := new byte[32](_ => 0);
      rtmpStream := new byte[128](_ => 0);
      rtmpPort := 0;
    }

    /** strncpy into one of the buffers. */
    static method StrNCpy(dst: array<byte>, src: cstring, n: nat)
      requires n <= dst.Length
      modifies dst
      ensures dst[..] == Splice(old(dst[..]), 0, Copied(src, n))
    {
      Store(dst, 0, Copied(src, n));
    }

    /** The part of the address behind the server; false where the copies leave their buffers. */
    method ParsePath(path: cstring) returns (ok: bool)
      requires Valid()
      modifies rtmpApp, rtmpStream
      ensures ok == ReadPath(path, old(View())).Some?
      ensures ok ==> View() == ReadPath(path, old(View())).value
    {
      hide Splice, Find, HasMp4, Copied;
      var posApp := Find(path, SLASH);
      if posApp < |path| {
        var stream := path[posApp + 1..];
        if posApp >= 32 || |Named(stream)| >= 128 {
          return false;
        }
        StrNCpy(rtmpApp, path, posApp);
        if HasMp4(stream) {
          if COLON in stream {
            StrNCpy(rtmpStream, stream, 128);
          } else {
            Store(rtmpStream, 0, MP4_PREFIX + stream + [0]);
          }
        } else {
          StrNCpy(rtmpStream, stream, 128);
        }
      } else {
        Store(rtmpApp, 0, Ascii("live") + [0]);
        Store(rtmpStream, 0, [0]);
      }
      return true;
    }

    /** A text of n characters at most, copied into a new buffer and read from there. */
    static method ThroughBuffer(src: cstring, n: nat, size: nat) returns (s: cstring)
      requires n <= size && (n < |src| ==> n < size) && (n >= |src| ==> |src| < size)
      ensures s == if n < |src| then src[..n] else src
    {
      hide Splice, CStr;
      var buf := new byte[size](_ => 0);
      assert buf[..] == seq(size, _ => 0);
      StrNCpy(buf, src, n);
      s := CStr(buf[..]);
      TextInBuffer(size, if n < |src| then src[..n] else src, n);
      CopiedPart(src, n);
    }

    /** Host and port, each by way of a buffer on the stack. */
    method ParseServer(text: cstring, poslen: nat) returns (ok: bool)
      requires Valid() && poslen <= |text|
      modifies this`rtmpPort, rtmpHost
      ensures ok == ReadServer(text[..poslen]).Some?
      ensures ok ==> var s := ReadServer(text[..poslen]).value;
                     View() == old(View()).(host := Splice(old(View()).host, 0, s.host + [0]), port := s.port)
    {
      hide Splice, Find, Atoi;
      if poslen >= 1024 {
        return false;
      }
      var info := ThroughBuffer(text, poslen, 1024);
      assert info == text[..poslen];
      var portLen := Find(info, COLON);
      if portLen >= 512 || poslen - portLen > 32 {
        return false;
      }
      var serverport: cstring, serverhost: cstring;
      if portLen < |info| {
        serverport := ThroughBuffer(info[portLen + 1..], poslen - portLen, 32);
        serverhost := ThroughBuffer(info, portLen, 512);
      } else {
        serverport := Ascii("1935");
        DefaultPort();
        serverhost := ThroughBuffer(info, poslen, 512);
        assert info[..portLen] == info;
      }
      rtmpPort := Atoi(serverport);
      Store(rtmpHost, 0, serverhost + [0]);
      return true;
    }

    /** rtmp_parse_cur_url on a text of its full length. */
    method ParseCurUrl(url: cstring) returns (ok: bool)
      requires Valid()
      modifies this`rtmpPort, rtmpHost, rtmpApp, rtmpStream
      ensures ok == ParseUrl(url, old(View())).Some?
      ensures ok ==> View() == ParseUrl(url, old(View())).value
    {
      hide Splice, Find, ReadPath, ReadServer;
      if |url| < 7 {
        return false;
      }
      var rest := url[7..];
      var poslen := Find(rest, SLASH);
      if poslen < |rest| {
        ok := ParsePath(rest[poslen + 1..]);
        if !ok {
          return false;
        }
      }
      ok := ParseServer(rest, poslen);
    }
  }

  lemma DefaultPort()
    ensures Atoi(Ascii("1935")) == 1935
  {
    var s := Ascii("1935");
    assert s == [0x31, 0x39, 0x33, 0x35];
    assert s[1..] == [0x39, 0x33, 0x35] && s[1..][1..] == [0x33, 0x35];
    assert Value(s, 0) == Value(s[1..], 1) == Value(s[1..][1..], 19);
  }

  /** A text that has been copied to the start of an empty buffer is read from there. */
  lemma TextInBuffer(size: nat, s: cstring, n: nat)
    requires |s| <= n <= size && |s| < size
    ensures CStr(Splice(seq(size, _ => 0), 0, Copied(s, n))) == s
  {
    CStrOfText(Splice(seq(size, _ => 0), 0, Copied(s, n)), s);
  }

  lemma CopiedPart(src: cstring, n: nat)
    ensures Copied(src, n) == Copied(if n < |src| then src[..n] else src, n)
  {
  }

  lemma CStrOfText(buf: seq<byte>, s: cstring)
    requires |s| < |buf| && buf[..|s|] == s && buf[|s|] == 0
    ensures CStr(buf) == s
    decreases |s|
  {
    if s != [] {
      assert buf[0] == s[0];
      assert buf[1..][..|s| - 1] == s[1..];
      CStrOfText(buf[1..], s[1..]);
    }
  }

  // ---------- printing and parsing ----------

  /** The decimal digits of a number. */
  function Digits(n: nat): (s: cstring)
    ensures s != [] && forall i :: 0 <= i < |s| ==> Digit(s[i])
  {
    if n < 10 then [0x30 + n] else Digits(n / 10) + [0x30 + n % 10]
  }

  lemma {:induction false} ValueAppend(s: seq<byte>, d: byte, before: nat)
    requires Digit(d) && forall i :: 0 <= i < |s| ==> Digit(s[i])
    ensures Value(s + [d], before) == 10 * Value(s, before) + d as int - 0x30
    decreases |s|
  {
    if s == [] {
      assert (s + [d])[1..] == [];
    } else {
      ValueAppend(s[1..], d, 10 * before + s[0] as int - 0x30);
      assert (s + [d])[1..] == s[1..] + [d];
    }
  }

  /** Printed numbers are read back. */
  lemma {:induction false} DigitsReadBack(n: nat)
    ensures Value(Digits(n), 0) == n && Atoi(Digits(n)) == n
  {
    if n < 10 {
      assert Digits(n)[1..] == [];
    } else {
      DigitsReadBack(n / 10);
      ValueAppend(Digits(n / 10), 0x30 + n % 10, 0);
    }
    assert Digit(Digits(n)[0]);
  }

  lemma FindFirst(front: seq<byte>, b: byte, rest: seq<byte>)
    requires b !in front
    ensures Find(front + [b] + rest, b) == |front| && Find(front, b) == |front|
    decreases |front|
  {
    var s := front + [b] + rest;
    if front != [] {
      FindFirst(front[1..], b, rest);
      assert s[1..] == front[1..] + [b] + rest;
    }
  }

  function ServerText(host: cstring, port: Option<nat>): cstring {
    host + if port.None? then [] else Ascii(":") + Digits(port.value)
  }

  /** The address as users write it. */
  function Print(host: cstring, port: Option<nat>, app: cstring, stream: cstring): cstring {
    Ascii("rtmp://") + ServerText(host, port) + Ascii("/") + app + Ascii("/") + stream
  }

  lemma Separators()
    ensures Ascii("/") == [SLASH] && Ascii(":") == [COLON] && Ascii("mp4") == MP4 && Ascii("mp4:") == MP4_PREFIX
  {
  }

  /** Every text and its NUL fit the buffer they go to. */
  predicate Fits(host: cstring, port: Option<nat>, app: cstring, stream: cstring) {
    && |host| < 512 && |ServerText(host, port)| <= |host| + 32 && |ServerText(host, port)| < 1024
    && |app| < 32 && |Named(stream)| < 128
  }

  lemma ServerReadsBack(host: cstring, port: Option<nat>)
    requires COLON !in host && |host| < 512 && |ServerText(host, port)| <= |host| + 32
    requires |ServerText(host, port)| < 1024
    ensures ReadServer(ServerText(host, port)) == Some(Server(host, if port.None? then 1935 else port.value))
  {
    hide Digits, Atoi, ReadServer;
    if port.None? {
      assert ServerText(host, port) == host;
      HostAlone(host);
    } else {
      Separators();
      DigitsReadBack(port.value);
      HostWithPort(host, Digits(port.value));
      assert ServerText(host, port) == host + [COLON] + Digits(port.value);
    }
  }

  lemma HostAlone(host: cstring)
    requires COLON !in host && |host| < 512
    ensures ReadServer(host) == Some(Server(host, 1935))
  {
    FindFirst(host, COLON, []);
    assert host[..|host|] == host;
  }

  lemma HostWithPort(host: cstring, digits: cstring)
    requires COLON !in host && |host| < 512 && |digits| < 32
    ensures ReadServer(host + [COLON] + digits) == Some(Server(host, Atoi(digits)))
  {
    hide Atoi, Find;
    var info := host + [COLON] + digits;
    FindFirst(host, COLON, digits);
    assert info[..|host|] == host && info[|host| + 1..] == digits;
  }

  lemma DigitsHaveNoSlash(n: nat)
    ensures SLASH !in Digits(n)
  {
    hide Digits;
  }

  lemma PrintedParts(host: cstring, port: Option<nat>, app: cstring, stream: cstring)
    requires SLASH !in host && SLASH !in app
    ensures var url, server := Print(host, port, app, stream), ServerText(host, port);
            |url| >= 7 && url[7..] == server + [SLASH] + (app + [SLASH] + stream) && SLASH !in server
  {
    hide Digits, Ascii, Is;
    Separators();
    if port.Some? {
      DigitsHaveNoSlash(port.value);
    }
    BehindScheme(Ascii("rtmp://"), ServerText(host, port), app, stream);
  }

  lemma BehindScheme(scheme: cstring, server: cstring, app: cstring, stream: cstring)
    ensures (scheme + server + [SLASH] + app + [SLASH] + stream)[|scheme|..] ==
            server + [SLASH] + (app + [SLASH] + stream)
  {
    assert scheme + server + [SLASH] + app + [SLASH] + stream ==
           scheme + (server + [SLASH] + (app + [SLASH] + stream));
  }

  /** A text and a NUL at the start of a buffer. */
  lemma TextStored(buf: seq<byte>, s: cstring)
    requires |s| < |buf|
    ensures CStr(Splice(buf, 0, s + [0])) == s
  {
    CStrOfText(Splice(buf, 0, s + [0]), s);
  }

  lemma PaddedStored(buf: seq<byte>, s: cstring)
    requires |s| < |buf|
    ensures CStr(Splice(buf, 0, Copied(s, |buf|))) == s
  {
    CStrOfText(Splice(buf, 0, Copied(s, |buf|)), s);
  }

  /** A text copied without a NUL ends where the buffer already held one. */
  lemma BareStored(buf: seq<byte>, path: cstring, n: nat)
    requires n <= |path| && n < |buf|
    ensures CStr(Splice(buf, 0, Copied(path, n))) == path[..n] <==> buf[n] == 0
  {
    var r := Splice(buf, 0, Copied(path, n));
    assert r[..n] == path[..n] && r[n] == buf[n];
    if r[n] == 0 {
      CStrOfText(r, path[..n]);
    } else if CStr(r) == path[..n] {
      assert false;
    }
  }

  lemma PathReadsBack(app: cstring, stream: cstring, was: Fields)
    requires SLASH !in app && |app| < 32 && |Named(stream)| < 128
    ensures var r := ReadPath(app + [SLASH] + stream, was);
            && r.Some? && r.value.host == was.host
            && (CStr(r.value.app) == app <==> was.app[|app|] == 0)
            && CStr(r.value.stream) == Named(stream)
            && (Named(stream) == stream ==> r.value.stream == stream + seq(128 - |stream|, _ => 0))
  {
    hide HasMp4, CStr, Splice, Copied;
    var path := app + [SLASH] + stream;
    FindFirst(app, SLASH, stream);
    assert path[|app| + 1..] == stream && path[..|app|] == app;
    BareStored(was.app, path, |app|);
    TextStored(was.stream, Named(stream));
    PaddedStored(was.stream, stream);
    if |stream| < 128 {
      WholeBuffer(was.stream, stream);
    }
  }

  lemma WholeBuffer(buf: seq<byte>, s: cstring)
    requires |s| < |buf|
    ensures Splice(buf, 0, Copied(s, |buf|)) == s + seq(|buf| - |s|, _ => 0)
  {
  }

  /** For every host, port or none, application and stream that fit: parsing the printed
      address recovers host and port (1935 without one), and the stream, prefixed exactly
      when it names an MP4 file and has no colon.  The application is recovered exactly if
      its buffer had a zero behind it, as that of a new client has: a longer application
      from an earlier address is not cut off.  A stream without the prefix fills its buffer
      up with zeros. */
  lemma PrintedUrlReadsBack(host: cstring, port: Option<nat>, app: cstring, stream: cstring, was: Fields)
    requires COLON !in host && SLASH !in host && SLASH !in app && Fits(host, port, app, stream)
    ensures var r := ParseUrl(Print(host, port, app, stream), was);
            && r.Some?
            && CStr(r.value.host) == host && r.value.port == (if port.None? then 1935 else port.value)
            && (CStr(r.value.app) == app <==> was.app[|app|] == 0)
            && CStr(r.value.stream) == Named(stream)
            && (Named(stream) == stream ==> r.value.stream == stream + seq(128 - |stream|, _ => 0))
  {
    hide Print, ServerText, ReadPath, ReadServer, CStr, Splice, Find, Named, HasMp4;
    var url, server, path := Print(host, port, app, stream), ServerText(host, port), app + [SLASH] + stream;
    PrintedParts(host, port, app, stream);
    FindFirst(server, SLASH, path);
    assert url[7..][..|server|] == server && url[7..][|server| + 1..] == path;
    PathReadsBack(app, stream, was);
    ServerReadsBack(host, port);
    var f := ReadPath(path, was).value;
    TextStored(f.host, host);
  }

  /** A stream that has been read once is read back as it is. */
  lemma NamedTwice(stream: cstring)
    ensures Named(Named(stream)) == Named(stream)
    ensures Named(stream) == stream <==> !HasMp4(stream) || COLON in stream
  {
    hide HasMp4;
    if Named(stream) != stream {
      assert Named(stream)[3] == COLON;
    }
  }

  predicate Mp4At(s: seq<byte>, i: nat) {
    i + 3 <= |s| && Is(s[i..i + 3], "mp4")
  }

  /** The prefix goes in front of exactly the streams that have "mp4" in them and no colon. */
  lemma NamedIs(stream: cstring)
    ensures Named(stream) ==
            if (exists i: nat :: Mp4At(stream, i)) && Ascii(":")[0] !in stream then Ascii("mp4:") + stream else stream
  {
    hide HasMp4, Mp4At;
    Separators();
    HasMp4Exactly(stream);
  }

  lemma {:induction false} HasMp4Exactly(s: seq<byte>)
    ensures HasMp4(s) <==> exists i: nat :: Mp4At(s, i)
  {
    hide Mp4At;
    if |s| >= 3 {
      IsMp4(s[..3]);
      HasMp4Exactly(s[1..]);
      Mp4AtStart(s);
      if HasMp4(s[1..]) {
        var i: nat :| Mp4At(s[1..], i);
        Mp4AtNext(s, i);
      }
      if i: nat :| Mp4At(s, i) {
        if i > 0 {
          Mp4AtNext(s, i - 1);
        }
      }
    } else {
      TooShortForMp4(s);
    }
  }

  lemma Mp4AtStart(s: seq<byte>)
    requires |s| >= 3
    ensures Mp4At(s, 0) <==> Is(s[..3], "mp4")
  {
    assert s[0..0 + 3] == s[..3];
  }

  lemma Mp4AtNext(s: seq<byte>, i: nat)
    requires s != []
    ensures Mp4At(s, i + 1) <==> Mp4At(s[1..], i)
  {
    if i + 4 <= |s| {
      assert s[1..][i..i + 3] == s[i + 1..i + 1 + 3];
    }
  }

  lemma TooShortForMp4(s: seq<byte>)
    requires |s| < 3
    ensures forall i: nat :: !Mp4At(s, i)
  {
  }

  lemma IsMp4(t: seq<byte>)
    requires |t| == 3
    ensures Is(t, "mp4") <==> t == MP4
  {
    if Is(t, "mp4") {
      assert t[0] == 0x6D && t[1] == 0x70 && t[2] == 0x34;
    }
  }

  /** Printing what a parse has given and parsing again changes nothing. */
  lemma ParseTwice(host: cstring, port: Option<nat>, app: cstring, stream: cstring, was: Fields, again: Fields)
    requires COLON !in host && SLASH !in host && SLASH !in app && Fits(host, port, app, stream)
    ensures var once := ParseUrl(Print(host, port, app, stream), was);
            && once.Some?
            && var twice := ParseUrl(Print(host, port, app, CStr(once.value.stream)), again);
               twice.Some? && CStr(twice.value.stream) == CStr(once.value.stream)
  {
    hide ParseUrl, Print, CStr, Named, HasMp4;
    PrintedUrlReadsBack(host, port, app, stream, was);
    NamedTwice(stream);
    PrintedUrlReadsBack(host, port, app, Named(stream), again);
  }

  /** The address is taken exactly if every text and its NUL fit. */
  lemma PrintedUrlFits(host: cstring, port: Option<nat>, app: cstring, stream: cstring, was: Fields)
    requires COLON !in host && SLASH !in host && SLASH !in app
    ensures ParseUrl(Print(host, port, app, stream), was).Some? <==> Fits(host, port, app, stream)
  {
    hide Print, ServerText, ReadPath, ReadServer, CStr, Splice, Find, Named, HasMp4;
    var url, server, path := Print(host, port, app, stream), ServerText(host, port), app + [SLASH] + stream;
    PrintedParts(host, port, app, stream);
    FindFirst(server, SLASH, path);
    assert url[7..][..|server|] == server && url[7..][|server| + 1..] == path;
    PathFits(app, stream, was);
    ServerFits(host, port);
  }

  lemma PathFits(app: cstring, stream: cstring, was: Fields)
    requires SLASH !in app
    ensures ReadPath(app + [SLASH] + stream, was).Some? <==> |app| < 32 && |Named(stream)| < 128
  {
    hide HasMp4, Splice, Copied, Find;
    var path := app + [SLASH] + stream;
    FindFirst(app, SLASH, stream);
    assert path[|app| + 1..] == stream;
  }

  lemma ServerFits(host: cstring, port: Option<nat>)
    requires COLON !in host
    ensures ReadServer(ServerText(host, port)).Some? <==>
            |host| < 512 && |ServerText(host, port)| <= |host| + 32 && |ServerText(host, port)| < 1024
  {
    hide Digits, Atoi, Find, Ascii, Is;
    Separators();
    if port.None? {
      assert ServerText(host, port) == host;
      FindFirst(host, COLON, []);
      InfoFits(host, |host|);
    } else {
      assert ServerText(host, port) == host + [COLON] + Digits(port.value);
      FindFirst(host, COLON, Digits(port.value));
      InfoFits(ServerText(host, port), |host|);
    }
  }

  lemma InfoFits(info: cstring, n: nat)
    requires Find(info, COLON) == n
    ensures ReadServer(info).Some? <==> |info| < 1024 && n < 512 && |info| <= n + 32
  {
    hide Atoi, Find;
  }

  /** Without a second slash the application is "live" and the stream is empty. */
  lemma NoStreamInUrl(server: cstring, app: cstring, was: Fields)
    requires SLASH !in server && SLASH !in app && ReadServer(server).Some?
    ensures var r := ParseUrl(Ascii("rtmp://") + server + [SLASH] + app, was);
            r.Some? && CStr(r.value.app) == Ascii("live") && CStr(r.value.stream) == []
  {
    hide CStr, Splice, Find, ReadServer;
    var rest := server + [SLASH] + app;
    var url := Ascii("rtmp://") + server + [SLASH] + app;
    assert url[7..] == rest;
    FindFirst(server, SLASH, app);
    assert rest[..|server|] == server && rest[|server| + 1..] == app;
    FindFirst(app, SLASH, []);
    TextStored(was.app, Ascii("live"));
    TextStored(was.stream, []);
    assert [] + [0] == [0];
  }

  /** Without any slash only host and port are set. */
  lemma NoPathInUrl(host: cstring, port: Option<nat>, was: Fields)
    requires COLON !in host && SLASH !in host
    requires |host| < 512 && |ServerText(host, port)| <= |host| + 32 && |ServerText(host, port)| < 1024
    ensures var r := ParseUrl(Ascii("rtmp://") + ServerText(host, port), was);
            && r.Some?
            && CStr(r.value.host) == host && r.value.port == (if port.None? then 1935 else port.value)
            && r.value.app == was.app && r.value.stream == was.stream
  {
    hide ServerText, CStr, Splice, Find, ReadServer, Ascii, Is;
    var server := ServerText(host, port);
    var url := Ascii("rtmp://") + server;
    ServerHasNoSlash(host, port);
    FindFirst(server, SLASH, []);
    assert url[7..] == server && server[..|server|] == server;
    ServerReadsBack(host, port);
    TextStored(was.host, host);
  }

  lemma ServerHasNoSlash(host: cstring, port: Option<nat>)
    requires SLASH !in host
    ensures SLASH !in ServerText(host, port)
  {
    hide Digits, Ascii, Is;
    Separators();
    if port.Some? {
      DigitsHaveNoSlash(port.value);
    }
  }

  /** A port is read behind blanks and a sign, and up to the first other character. */
  lemma {:induction false} NumberIsRead(blanks: seq<byte>, sign: Option<byte>, n: nat, rest: seq<byte>)
    requires (forall i :: 0 <= i < |blanks| ==> Space(blanks[i])) && (rest == [] || !Digit(rest[0]))
    requires sign == None || Is([sign.value], "-") || Is([sign.value], "+")
    ensures Atoi(blanks + ((if sign == None then [] else [sign.value]) + Digits(n) + rest)) ==
            if sign.Some? && Is([sign.value], "-") then 0 - n else n
    decreases |blanks|
  {
    hide Digits, Value, Is, Atoi;
    var behind := (if sign == None then [] else [sign.value]) + Digits(n) + rest;
    if blanks == [] {
      assert blanks + behind == behind;
      SignedIsRead(sign, n, rest);
    } else {
      NumberIsRead(blanks[1..], sign, n, rest);
      assert (blanks + behind)[1..] == blanks[1..] + behind;
      BlankIsSkipped(blanks + behind);
    }
  }

  lemma BlankIsSkipped(s: seq<byte>)
    requires s != [] && Space(s[0])
    ensures Atoi(s) == Atoi(s[1..])
  {
  }

  lemma SignedIsRead(sign: Option<byte>, n: nat, rest: seq<byte>)
    requires rest == [] || !Digit(rest[0])
    requires sign == None || Is([sign.value], "-") || Is([sign.value], "+")
    ensures Atoi((if sign == None then [] else [sign.value]) + Digits(n) + rest) ==
            if sign.Some? && Is([sign.value], "-") then 0 - n else n
  {
    hide Digits, Value, Atoi, Digit, Is;
    var digits := Digits(n) + rest;
    FirstIsDigit(n, rest);
    ValueStops(Digits(n), rest, 0);
    DigitsReadBack(n);
    if sign == None {
      assert [] + Digits(n) + rest == digits;
      AtoiSteps(digits);
    } else {
      var text := [sign.value] + Digits(n) + rest;
      assert text[0] == sign.value && text[1..] == digits;
      SignIs(sign.value);
      AtoiSteps(text);
    }
  }

  lemma FirstIsDigit(n: nat, rest: seq<byte>)
    ensures Digit((Digits(n) + rest)[0])
  {
    hide Digits, Digit;
    assert (Digits(n) + rest)[0] == Digits(n)[0];
  }

  lemma SignIs(b: byte)
    ensures Is([b], "-") <==> b == 0x2D
    ensures Is([b], "+") <==> b == 0x2B
  {
    assert [b][0] == b;
  }

  /** Atoi without blanks. */
  lemma AtoiSteps(s: seq<byte>)
    requires s != []
    ensures s[0] == 0x2D ==> Atoi(s) == 0 - Value(s[1..], 0)
    ensures s[0] == 0x2B ==> Atoi(s) == Value(s[1..], 0)
    ensures Digit(s[0]) ==> Atoi(s) == Value(s, 0)
  {
    hide Value;
  }

  lemma {:induction false} ValueStops(digits: seq<byte>, rest: seq<byte>, before: nat)
    requires (forall i :: 0 <= i < |digits| ==> Digit(digits[i])) && (rest == [] || !Digit(rest[0]))
    ensures Value(digits + rest, before) == Value(digits, before)
    decreases |digits|
  {
    if digits == [] {
      assert digits + rest == rest;
    } else {
      ValueStops(digits[1..], rest, 10 * before + digits[0] as int - 0x30);
      assert (digits + rest)[1..] == digits[1..] + rest;
    }
  }
}
