// The first-packet analyzer: which octets of a client stream it strips before relaying, however the
// stream arrives, and how the two flush writes join.
module FirstPack {
  import opened Bytes

  // ---- The header delimiter ----

  const CR: byte := 13
  const LF: byte := 10

  predicate DelimiterAt(s: bytes, i: nat) {
    i + 4 <= |s| && s[i] == CR && s[i + 1] == LF && s[i + 2] == CR && s[i + 3] == LF
  }

  function FindFrom(s: bytes, from: nat): (r: Option<nat>)
    ensures r.Some? ==> from <= r.value && DelimiterAt(s, r.value)
    ensures forall i :: from <= i < (if r.Some? then r.value else |s|) ==> !DelimiterAt(s, i)
    decreases |s| - from
  {
    if from >= |s| then None
    else if DelimiterAt(s, from) then Some(from)
    else FindFrom(s, from + 1)
  }

  // The first CR LF CR LF.
  function Find(s: bytes): Option<nat> {
    FindFrom(s, 0)
  }

  // More octets at the end do not move it.
  lemma FindIsStable(s: bytes, t: bytes)
    requires Find(s).Some?
    ensures Find(s + t) == Find(s)
  {
    var i := Find(s).value;
    assert DelimiterAt(s + t, i);
    assert forall j :: 0 <= j < i ==> DelimiterAt(s + t, j) ==> DelimiterAt(s, j);
  }

  // ---- What happens to a stream, as a function of the stream ----

  datatype Kind = Socks5 | HttpConnect | HttpOther | Unknown

  // What the header parser and parseURI make of a header; they are not part of this model.
  datatype Header = Bad | Connect(host: bytes, port: u16) | Other(host: bytes, port: u16)

  datatype Verdict =
    | Failed
    | Relay                                                      // a SOCKS5 client: relayed as it is
    | Proxy(kind: Kind, strip: nat, host: bytes, port: u16)

  // From the first three octets of anything but a SOCKS5 greeting.
  function KindOf(s: bytes): Kind
    requires |s| >= 3
  {
    if Lower(s[0]) == 99 && Lower(s[1]) == 111 && Lower(s[2]) == 110 then HttpConnect
    else if Lower(s[0]) in [112, 103, 104, 100, 111, 116] then HttpOther
    else Unknown
  }

  function OnHeader(s: bytes, header: bytes, parse: bytes -> Header): Verdict
    requires |s| >= 3
  {
    match parse(header)
    case Bad => Failed
    case Connect(host, port) => Proxy(HttpConnect, |header|, host, port)
    case Other(host, port) => Proxy(KindOf(s), 0, host, port)
  }

  function Decide(s: bytes, parse: bytes -> Header): Verdict {
    if |s| < 3 then Failed
    else if s[0] == 5 && s[1] == 1 && s[2] == 0 then Relay
    else match Find(s)
      case None => Failed
      case Some(i) => OnHeader(s, s[..i + 4], parse)
  }

  // The octets relayed upstream after an accepted first packet.
  function Relayed(s: bytes, v: Verdict): bytes
    requires v.Proxy? ==> v.strip <= |s|
  {
    match v
    case Failed => []
    case Relay => s
    case Proxy(_, strip, _, _) => s[strip..]
  }

  // A SOCKS5 client that offers no authentication.
  predicate IsSocks5(s: bytes) {
    |s| >= 3 && s[0] == 5 && s[1] == 1 && s[2] == 0
  }

  // Where the first header ends, if one is needed and is there.
  predicate HeaderEnds(s: bytes, n: nat) {
    && |s| >= 3 && !IsSocks5(s) && 4 <= n <= |s| && DelimiterAt(s, n - 4)
    && forall i :: 0 <= i < n - 4 ==> !DelimiterAt(s, i)
  }

  // What a stream that is no CONNECT is taken for: by its first letters, CON and those of the methods.
  predicate LooksLike(s: bytes, kind: Kind)
    requires |s| >= 3
  {
    var con := s[0] in [67, 99] && s[1] in [79, 111] && s[2] in [78, 110];
    match kind
    case HttpConnect => con
    case HttpOther => !con && s[0] in [80, 112, 71, 103, 72, 104, 68, 100, 79, 111, 84, 116]
    case Unknown => !con && s[0] !in [80, 112, 71, 103, 72, 104, 68, 100, 79, 111, 84, 116]
    case Socks5 => false
  }

  // An accepted stream: what its header says, and how much of it is stripped.
  predicate Accepts(s: bytes, n: nat, h: Header, v: Verdict)
    requires |s| >= 3
  {
    match h
    case Bad => false
    case Connect(host, port) => v == Proxy(HttpConnect, n, host, port)
    case Other(host, port) => v.Proxy? && v == Proxy(v.kind, 0, host, port) && LooksLike(s, v.kind)
  }

  // The verdict on a stream.
  ghost predicate Judges(s: bytes, parse: bytes -> Header, v: Verdict) {
    && (v.Relay? <==> IsSocks5(s))
    && (v.Proxy? <==> exists n: nat :: HeaderEnds(s, n) && !parse(s[..n]).Bad?)
    && (forall n: nat :: HeaderEnds(s, n) && !parse(s[..n]).Bad? ==> Accepts(s, n, parse(s[..n]), v))
  }

  lemma KindLooks(s: bytes)
    requires |s| >= 3
    ensures LooksLike(s, KindOf(s))
  {
  }

  lemma HeaderEndsAt(s: bytes, n: nat)
    ensures HeaderEnds(s, n) <==> |s| >= 3 && !IsSocks5(s) && Find(s).Some? && n == Find(s).value + 4
    ensures Find(s).Some? ==> Find(s).value + 4 <= |s|
  {
    var r := Find(s);
    if HeaderEnds(s, n) {
      assert DelimiterAt(s, n - 4);
    }
  }

  lemma DecideJudges(s: bytes, parse: bytes -> Header)
    ensures Judges(s, parse, Decide(s, parse))
  {
    forall n: nat
      ensures HeaderEnds(s, n) <==> |s| >= 3 && !IsSocks5(s) && Find(s).Some? && n == Find(s).value + 4
      ensures Find(s).Some? ==> Find(s).value + 4 <= |s|
    {
      HeaderEndsAt(s, n);
    }
    if |s| >= 3 {
      KindLooks(s);
    }
    hide Find, LooksLike, KindOf;
    if |s| >= 3 && !IsSocks5(s) && Find(s).Some? {
      assert HeaderEnds(s, Find(s).value + 4);
    }
  }

  // Only an accepted CONNECT is stripped, and then of everything up to the end of its header.
  lemma StripsExactlyTheHeader(s: bytes, parse: bytes -> Header)
    ensures var v := Decide(s, parse);
            v.Proxy? ==>
              && Find(s).Some?
              && var header := s[..Find(s).value + 4];
              && v.strip == (if parse(header).Connect? then |header| else 0)
              && s == (if parse(header).Connect? then header else []) + Relayed(s, v)
  {
  }

  // Octets that come later do not change the verdict on a header that is complete.
  lemma DecideIsStable(s: bytes, t: bytes, parse: bytes -> Header)
    requires |s| >= 3 && ((s[0] == 5 && s[1] == 1 && s[2] == 0) || Find(s).Some?)
    ensures Decide(s + t, parse) == Decide(s, parse)
  {
    assert forall i :: 0 <= i < |s| ==> (s + t)[i] == s[i];
    if Find(s).Some? {
      FindIsStable(s, t);
      var i := Find(s).value;
      assert (s + t)[..i + 4] == s[..i + 4];
    }
  }

  lemma SameStart(s: bytes, t: bytes)
    requires |s| >= 3 && |t| >= 3 && s[..3] == t[..3]
    ensures s[0] == t[0] && s[1] == t[1] && s[2] == t[2]
  {
    assert s[0] == s[..3][0] && s[1] == s[..3][1] && s[2] == s[..3][2];
    assert t[0] == t[..3][0] && t[1] == t[..3][1] && t[2] == t[..3][2];
  }

  // ---- The two flush writes ----

  datatype Outcome = Completed | Errored

  datatype Join = Join(beforeComplete: nat, armed: bool, fired: seq<Outcome>)

  function WriteOk(j: Join): Join {
    if j.beforeComplete == 0 then j
    else
      var k := j.(beforeComplete := j.beforeComplete - 1);
      if k.beforeComplete == 0 && k.armed then k.(armed := false, fired := k.fired + [Completed]) else k
  }

  function WriteError(j: Join): Join {
    if j.armed then j.(armed := false, fired := j.fired + [Errored]) else j
  }

  function WriteDone(j: Join, ok: bool): Join {
    if ok then WriteOk(j) else WriteError(j)
  }

  // In whichever order the two writes end, success is reported iff both succeeded, and otherwise exactly
  // one error is.
  lemma FlushJoin(down: bool, up: bool, downFirst: bool)
    ensures var j := Join(2, true, []);
            var k := if downFirst then WriteDone(WriteDone(j, down), up)
                     else WriteDone(WriteDone(j, up), down);
            k.fired == [if down && up then Completed else Errored]
  {
  }

  // ---- The object ----

  function Concat(chunks: seq<bytes>): bytes {
    if chunks == [] then [] else chunks[0] + Concat(chunks[1..])
  }

  class FirstPackAnalyzer {
    const parse: bytes -> Header
    // What the socket will still deliver, read by read; the stream then ends.
    var socket: seq<bytes>
    var downstreamBuf: bytes

    var connectType: Kind
    var host: bytes
    var port: u16

    var beforeComplete: nat
    var armed: bool
    ghost var fired: seq<Outcome>

    constructor (socket: seq<bytes>, parse: bytes -> Header)
      ensures this.socket == socket && this.parse == parse && downstreamBuf == []
      ensures JoinView() == Join(2, true, [])
    {
      this.socket := socket;
      this.parse := parse;
      downstreamBuf := [];
      connectType, host, port := Unknown, [], 0;
      beforeComplete, armed, fired := 2, true, [];
    }

    ghost function JoinView(): Join
      reads this
    {
      Join(beforeComplete, armed, fired)
    }

    // Received and to be received.
    ghost function Stream(): bytes
      reads this
    {
      downstreamBuf + Concat(socket)
    }

    method ReadSome()
      requires socket != []
      modifies this`socket, this`downstreamBuf
      ensures Stream() == old(Stream()) && |socket| == |old(socket)| - 1
      ensures |downstreamBuf| >= |old(downstreamBuf)|
    {
      assert downstreamBuf + Concat(socket) == (downstreamBuf + socket[0]) + Concat(socket[1..]);
      downstreamBuf := downstreamBuf + socket[0];
      socket := socket[1..];
    }

    // async_read with transfer_at_least(3).
    method ReadAtLeast3() returns (ok: bool)
      modifies this`socket, this`downstreamBuf
      ensures Stream() == old(Stream())
      ensures ok ==> |downstreamBuf| >= 3
      ensures !ok ==> |Stream()| < 3
    {
      while |downstreamBuf| < 3 && socket != []
        invariant Stream() == old(Stream())
        decreases |socket|
      {
        ReadSome();
      }
      ok := |downstreamBuf| >= 3;
    }

    // async_read_until the header delimiter.
    method ReadUntilHeader() returns (ok: bool)
      modifies this`socket, this`downstreamBuf
      ensures Stream() == old(Stream()) && |downstreamBuf| >= |old(downstreamBuf)|
      ensures ok <==> Find(downstreamBuf).Some?
      ensures !ok ==> Find(Stream()).None?
    {
      while Find(downstreamBuf).None? && socket != []
        invariant Stream() == old(Stream()) && |downstreamBuf| >= |old(downstreamBuf)|
        decreases |socket|
      {
        ReadSome();
      }
      ok := Find(downstreamBuf).Some?;
      assert !ok ==> Stream() == downstreamBuf;
    }

    // From the first read to the point where relaying may start. For every way the stream is split into
    // reads the verdict is the one on the whole stream, and what was received but not stripped, with what
    // is still to come, is exactly what is to be relayed.
    method Analyse() returns (v: Verdict)
      requires downstreamBuf == []
      modifies this`socket, this`downstreamBuf, this`connectType, this`host, this`port
      ensures v == Decide(old(Stream()), parse) && Judges(old(Stream()), parse, v)
      ensures v.Relay? ==> Stream() == old(Stream()) && connectType == Socks5
      ensures v.Proxy? ==> v.strip <= |old(Stream())| && Stream() == old(Stream())[v.strip..]
      ensures v.Proxy? ==> connectType == v.kind && host == v.host && port == v.port
    {
      hide Find, Judges;
      DecideJudges(Stream(), parse);
      ghost var stream := Stream();
      var ok := ReadAtLeast3();
      if !ok {
        return Failed;
      }
      var d := downstreamBuf;
      assert stream == d + Concat(socket);
      if d[0] == 5 && d[1] == 1 && d[2] == 0 {
        DecideIsStable(d, Concat(socket), parse);
        connectType := Socks5;
        return Relay;
      }
      connectType := KindOf(d);
      ok := ReadUntilHeader();
      assert stream == downstreamBuf + Concat(socket);
      assert downstreamBuf[..3] == stream[..3] == d[..3];
      SameStart(downstreamBuf, d);
      if !ok {
        return Failed;
      }
      v := AnalyseHeader();
    }

    // do_analysis_client_first_http_header, with the delimiter in the buffer.
    method AnalyseHeader() returns (v: Verdict)
      requires |downstreamBuf| >= 3 && Find(downstreamBuf).Some?
      requires !(downstreamBuf[0] == 5 && downstreamBuf[1] == 1 && downstreamBuf[2] == 0)
      requires connectType == KindOf(downstreamBuf)
      modifies this`downstreamBuf, this`connectType, this`host, this`port
      ensures v == Decide(old(Stream()), parse) && Judges(old(Stream()), parse, v)
      ensures v.Proxy? ==> v.strip <= |old(Stream())| && Stream() == old(Stream())[v.strip..]
      ensures v.Proxy? ==> connectType == v.kind && host == v.host && port == v.port
      ensures !v.Relay?
    {
      DecideJudges(Stream(), parse);
      hide Judges;
      DecideIsStable(downstreamBuf, Concat(socket), parse);
      var it := Find(downstreamBuf).value;
      match parse(downstreamBuf[..it + 4]) {
        case Bad =>
          return Failed;
        case Connect(h, p) =>
          host, port := h, p;
          connectType := HttpConnect;
          assert Stream()[it + 4..] == downstreamBuf[it + 4..] + Concat(socket);
          downstreamBuf := downstreamBuf[it + 4..];
          return Proxy(HttpConnect, it + 4, host, port);
        case Other(h, p) =>
          host, port := h, p;
          return Proxy(connectType, 0, host, port);
      }
    }

    // do_whenComplete and do_whenError, on the completion of a flush write.
    method OnFlushWritten(ok: bool)
      requires beforeComplete > 0
      modifies this`beforeComplete, this`armed, this`fired
      ensures JoinView() == WriteDone(old(JoinView()), ok)
    {
      if ok {
        beforeComplete := beforeComplete - 1;
        if beforeComplete == 0 {
          if armed {
            fired := fired + [Completed];
            armed := false;
          }
        }
      } else {
        if armed {
          fired := fired + [Errored];
          armed := false;
        }
      }
    }
  }
}
