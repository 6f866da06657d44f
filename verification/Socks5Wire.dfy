// The SOCKS5 messages of RFC 1928 (sections 4 and 6) and RFC 1929 (section 2): what the two sides of
// the proxy accept, what they print, and how the one turns into the other.
module Socks5Wire {
  import opened Bytes
  import Ipv4Text

  // Text conversion of IPv6 addresses belongs to the socket library; it enters as a pair of functions.
  datatype Ipv6Text = Ipv6Text(toText: bytes -> bytes, fromText: bytes -> Option<bytes>) {
    // The parser inverts the printer, yields 16 octets, and takes only texts that hold a colon.
    ghost predicate Faithful() {
      && (forall a: bytes :: |a| == 16 ==>
                               fromText(toText(a)) == Some(a) && 0 !in toText(a) && |toText(a)| <= 45)
      && (forall t: bytes :: fromText(t).Some? ==> |fromText(t).value| == 16 && 58 in t)
    }
  }

  // Such a pair exists: a colon, a mark for every octet that is zero, and the octets without zeros.
  function Marks(a: bytes): (m: bytes)
    ensures |m| == |a| && forall i :: 0 <= i < |a| ==> m[i] == if a[i] == 0 then 1 else 2
  {
    seq(|a|, i requires 0 <= i < |a| => if a[i] == 0 then 1 else 2)
  }

  function NonZeros(a: bytes): (m: bytes)
    ensures |m| == |a| && forall i :: 0 <= i < |a| ==> m[i] == if a[i] == 0 then 1 else a[i]
  {
    seq(|a|, i requires 0 <= i < |a| => if a[i] == 0 then 1 else a[i])
  }

  function Unmarked(m: bytes, v: bytes): (a: bytes)
    requires |m| == |v|
    ensures |a| == |m| && forall i :: 0 <= i < |a| ==> a[i] == if m[i] == 1 then 0 else v[i]
  {
    seq(|m|, i requires 0 <= i < |m| => if m[i] == 1 then 0 else v[i])
  }

  function MarkedText(a: bytes): bytes {
    [58] + Marks(a) + NonZeros(a)
  }

  function MarkedAddress(t: bytes): (r: Option<bytes>)
    ensures r.Some? ==> |r.value| == 16 && 58 in t
  {
    if |t| == 33 && t[0] == 58 then Some(Unmarked(t[1..17], t[17..])) else None
  }

  lemma MarkedRoundTrip(a: bytes)
    requires |a| == 16
    ensures MarkedAddress(MarkedText(a)) == Some(a) && 0 !in MarkedText(a) && |MarkedText(a)| == 33
  {
    var m, v := Marks(a), NonZeros(a);
    hide Marks, NonZeros, Unmarked;
    assert ([58] + m + v)[1..17] == m && ([58] + m + v)[17..] == v;
    assert Unmarked(m, v) == a;
  }

  lemma FaithfulIsPossible()
    ensures Ipv6Text(MarkedText, MarkedAddress).Faithful()
  {
    hide MarkedText, MarkedAddress;
    forall a: bytes | |a| == 16
      ensures MarkedAddress(MarkedText(a)) == Some(a) && 0 !in MarkedText(a) && |MarkedText(a)| <= 45
    {
      MarkedRoundTrip(a);
    }
  }

  datatype Dest = V4(addr: bytes) | V6(addr: bytes) | Name(name: bytes)

  datatype RelayMode = NoMode | ConnectMode | BindMode | UdpMode

  predicate DestOk(d: Dest) {
    match d
    case V4(a) => |a| == 4
    case V6(a) => |a| == 16
    case Name(n) => |n| <= 255
  }

  // ATYP and address.
  function AddressField(d: Dest): bytes
    requires d.Name? ==> |d.name| <= 255
  {
    match d
    case V4(a) => [1] + a
    case V6(a) => [4] + a
    case Name(n) => [3, |n|] + n
  }

  // Requests and replies share one layout: VER, CMD or REP, RSV, ATYP, address, port.
  function Frame(code: byte, d: Dest, port: bytes): (f: bytes)
    requires DestOk(d) && |port| == 2
    ensures |f| <= MAX_LENGTH
  {
    [5, code, 0] + AddressField(d) + port
  }

  predicate FrameOf(data: bytes, code: byte, d: Dest, port: bytes) {
    DestOk(d) && |port| == 2 && data == Frame(code, d, port)
  }

  // ---- Frames read off their octets ----

  predicate HasLayout(data: bytes) {
    var n := |data|;
    && n >= 7 && data[0] == 5 && data[2] == 0
    && ((data[3] == 1 && n == 10) || (data[3] == 4 && n == 22)
        || (data[3] == 3 && n == (data[4] as int) + 7))
  }

  function DestOf(data: bytes): (d: Dest)
    requires HasLayout(data)
    ensures DestOk(d)
  {
    if data[3] == 1 then V4(data[4..8])
    else if data[3] == 4 then V6(data[4..20])
    else Name(data[5..|data| - 2])
  }

  lemma FlatFrame(code: byte, d: Dest, port: bytes)
    requires DestOk(d) && |port| == 2
    ensures Frame(code, d, port)
         == match d
            case V4(a) => [5, code, 0, 1] + a + port
            case V6(a) => [5, code, 0, 4] + a + port
            case Name(n) => [5, code, 0, 3, |n|] + n + port
  {
  }

  lemma CutThree(data: bytes, i: nat, j: nat)
    requires i <= j <= |data|
    ensures data == data[..i] + data[i..j] + data[j..]
  {
  }

  lemma LayoutIsFrame(data: bytes)
    requires HasLayout(data)
    ensures data == Frame(data[1], DestOf(data), data[|data| - 2..])
  {
    var n := |data|;
    FlatFrame(data[1], DestOf(data), data[n - 2..]);
    if data[3] == 3 {
      CutThree(data, 5, n - 2);
      assert data[..5] == [5, data[1], 0, 3, data[4]];
    } else {
      CutThree(data, 4, n - 2);
      assert data[..4] == [5, data[1], 0, data[3]];
    }
  }

  lemma FrameHasLayout(code: byte, d: Dest, port: bytes)
    requires DestOk(d) && |port| == 2
    ensures var f := Frame(code, d, port);
            HasLayout(f) && f[1] == code && DestOf(f) == d && f[|f| - 2..] == port
  {
    var f := Frame(code, d, port);
    var field := AddressField(d);
    assert f[3..|f| - 2] == field && f[3] == field[0] && f[4] == (field + port)[1];
    match d
    case V4(a) => assert f[4..8] == field[1..];
    case V6(a) => assert f[4..20] == field[1..];
    case Name(n) => assert f[5..|f| - 2] == field[2..];
  }

  // ---- Host text ----

  function HostText(v6: Ipv6Text, d: Dest): bytes
    requires DestOk(d)
  {
    match d
    case V4(a) => Ipv4Text.Print(a)
    case V6(a) => v6.toText(a)
    case Name(n) => n
  }

  // make_address: the host as a C string is tried as IPv6, then as IPv4; otherwise it is a name.
  function Resolve(v6: Ipv6Text, host: bytes): (d: Dest)
    ensures d.Name? ==> d.name == host
  {
    var text := CString(host);
    match v6.fromText(text)
    case Some(a) => V6(a)
    case None =>
      match Ipv4Text.Parse(text)
      case Some(a) => V4(a)
      case None => Name(host)
  }

  // The destination the upstream request will name.
  function Canonical(v6: Ipv6Text, d: Dest): Dest {
    if d.Name? then Resolve(v6, d.name) else d
  }

  lemma ResolveV4(v6: Ipv6Text, host: bytes, a: bytes)
    requires v6.Faithful() && |a| == 4
    ensures Resolve(v6, host) == V4(a) <==> CString(host) == Ipv4Text.Print(a)
  {
    Ipv4Text.ParseInvertsPrint(CString(host), a);
  }

  lemma ResolveHostText(v6: Ipv6Text, d: Dest)
    requires v6.Faithful() && DestOk(d)
    ensures Resolve(v6, HostText(v6, d)) == Canonical(v6, d)
    ensures |HostText(v6, d)| <= 255
  {
    CStringOfNulFree(if d.Name? then [] else HostText(v6, d));
    if d.V4? {
      ResolveV4(v6, HostText(v6, d), d.addr);
    }
  }

  // ---- Requests ----

  datatype Request = Request(cmd: byte, host: bytes, port: u16)

  // The checks of the request reader, in its order, on a buffer of which `n` octets were received.
  function ParseRequest(v6: Ipv6Text, buf: bytes, n: nat): (r: Option<Request>)
    requires |buf| == MAX_LENGTH && n <= MAX_LENGTH
    ensures r.Some? ==> 1 <= r.value.cmd <= 3
  {
    if n < 4 + 2 then None
    else if buf[0] != 5 || (buf[1] != 1 && buf[1] != 2 && buf[1] != 3) || buf[2] != 0 then None
    else
      var port := PortOf(buf[n - 2], buf[n - 1]);
      var len: int := buf[4];
      if buf[3] == 1 then
        if n != 4 + 4 + 2 then None else Some(Request(buf[1], Ipv4Text.Print(buf[4..8]), port))
      else if buf[3] == 3 then
        if n != 4 + 1 + len + 2 then None else Some(Request(buf[1], buf[5..5 + len], port))
      else if buf[3] == 4 then
        if n != 4 + 16 + 2 then None else Some(Request(buf[1], v6.toText(buf[4..20]), port))
      else None
  }

  function ReadRequest(v6: Ipv6Text, data: bytes): Option<Request> {
    if |data| <= MAX_LENGTH then ParseRequest(v6, ReadBuffer(data), |data|) else None
  }

  function ModeOf(cmd: byte): RelayMode {
    if cmd == 1 then ConnectMode else if cmd == 2 then BindMode else if cmd == 3 then UdpMode else NoMode
  }

  function ModeCode(mode: RelayMode): Option<byte> {
    match mode
    case ConnectMode => Some(1)
    case BindMode => Some(2)
    case UdpMode => Some(3)
    case NoMode => None
  }

  // The request sent upstream for (host, port); None where the client side gives up instead.
  function EmitRequest(v6: Ipv6Text, mode: RelayMode, host: bytes, port: u16): (r: Option<bytes>)
    ensures r.Some? && Resolve(v6, host).Name? ==> |host| <= 253
  {
    var dest := Resolve(v6, host);
    if dest.Name? && |host| > 253 then None
    else
      match ModeCode(mode)
      case None => None
      case Some(code) => Some([5, code, 0] + AddressField(dest) + PortBytes(port))
  }

  lemma BufferSlice(data: bytes, i: nat, j: nat)
    requires i <= j <= |data| <= MAX_LENGTH
    ensures ReadBuffer(data)[i..j] == data[i..j]
  {
    assert ReadBuffer(data)[i..j] == ReadBuffer(data)[..|data|][i..j];
  }

  lemma ReadRequestByLayout(v6: Ipv6Text, data: bytes)
    ensures ReadRequest(v6, data)
         == if HasLayout(data) && 1 <= data[1] <= 3 then
              var n := |data|;
              Some(Request(data[1], HostText(v6, DestOf(data)), PortOf(data[n - 2], data[n - 1])))
            else None
  {
    if |data| <= MAX_LENGTH {
      var n := |data|;
      var buf := ReadBuffer(data);
      assert forall i :: 0 <= i < n ==> buf[i] == buf[..n][i];
      if HasLayout(data) {
        BufferSlice(data, 4, n - 2);
        BufferSlice(data, 5, n - 2);
      }
    }
  }

  // The request reader accepts exactly the frames of RFC 1928 section 4.
  lemma RequestsAreFrames(v6: Ipv6Text, data: bytes)
    ensures ReadRequest(v6, data).Some?
       <==> exists cmd, d, port :: 1 <= cmd <= 3 && FrameOf(data, cmd, d, port)
  {
    ReadRequestByLayout(v6, data);
    if ReadRequest(v6, data).Some? {
      LayoutIsFrame(data);
      assert FrameOf(data, data[1], DestOf(data), data[|data| - 2..]);
    }
    forall cmd, d, port | 1 <= cmd <= 3 && FrameOf(data, cmd, d, port)
      ensures ReadRequest(v6, data).Some?
    {
      FrameHasLayout(cmd, d, port);
    }
  }

  lemma ReadRequestOfFrame(v6: Ipv6Text, cmd: byte, d: Dest, port: bytes)
    requires 1 <= cmd <= 3 && DestOk(d) && |port| == 2
    ensures ReadRequest(v6, Frame(cmd, d, port))
         == Some(Request(cmd, HostText(v6, d), PortOf(port[0], port[1])))
  {
    var f := Frame(cmd, d, port);
    FrameHasLayout(cmd, d, port);
    ReadRequestByLayout(v6, f);
    assert f[|f| - 2] == f[|f| - 2..][0] && f[|f| - 1] == f[|f| - 2..][1];
  }

  lemma EmittedIsFrame(v6: Ipv6Text, cmd: byte, host: bytes, port: bytes)
    requires v6.Faithful() && 1 <= cmd <= 3 && |port| == 2
    ensures var c := Resolve(v6, host);
            var r := EmitRequest(v6, ModeOf(cmd), host, PortOf(port[0], port[1]));
            if c.Name? && |host| > 253 then r == None
            else DestOk(c) && r == Some(Frame(cmd, c, port))
  {
    ResolvedIsOk(v6, host);
    PortRoundTrip(port);
    hide Resolve, AddressField, Ipv6Text.Faithful, PortOf, PortBytes;
  }

  lemma ResolvedIsOk(v6: Ipv6Text, host: bytes)
    requires v6.Faithful()
    ensures var c := Resolve(v6, host);
            (c.Name? ==> c.name == host && |host| <= 255) ==> DestOk(c)
  {
    hide CString, Ipv4Text.Parse;
  }

  // Translation: the request a client sends is re-emitted upstream octet for octet, except that a name
  // holding an address literal becomes that address, and a remaining name over 253 octets is refused.
  lemma RequestTranslation(v6: Ipv6Text, cmd: byte, d: Dest, port: bytes)
    requires v6.Faithful() && 1 <= cmd <= 3 && DestOk(d) && |port| == 2
    ensures var r := ReadRequest(v6, Frame(cmd, d, port));
            var c := Canonical(v6, d);
            && r.Some? && DestOk(c)
            && EmitRequest(v6, ModeOf(cmd), r.value.host, r.value.port)
               == if c.Name? && |c.name| > 253 then None else Some(Frame(cmd, c, port))
  {
    ReadRequestOfFrame(v6, cmd, d, port);
    ResolveHostText(v6, d);
    EmittedIsFrame(v6, cmd, HostText(v6, d), port);
  }

  lemma FrameInjective(code: byte, d: Dest, e: Dest, port: bytes)
    requires DestOk(d) && DestOk(e) && |port| == 2
    ensures Frame(code, d, port) == Frame(code, e, port) <==> d == e
  {
    FrameHasLayout(code, d, port);
    FrameHasLayout(code, e, port);
  }

  // Exactly when the upstream request repeats the client's octets: unless a name holds an address
  // literal or is over 253 octets long.
  lemma RequestUnchanged(v6: Ipv6Text, cmd: byte, d: Dest, port: bytes)
    requires v6.Faithful() && 1 <= cmd <= 3 && DestOk(d) && |port| == 2
    ensures var r := ReadRequest(v6, Frame(cmd, d, port));
            && r.Some?
            && (EmitRequest(v6, ModeOf(cmd), r.value.host, r.value.port) == Some(Frame(cmd, d, port))
                <==> (d.Name? ==> |d.name| <= 253
                                  && v6.fromText(CString(d.name)).None?
                                  && Ipv4Text.Parse(CString(d.name)).None?))
  {
    RequestTranslation(v6, cmd, d, port);
    EmittedIsFrame(v6, cmd, HostText(v6, d), port);
    ResolveHostText(v6, d);
    FrameInjective(cmd, Canonical(v6, d), d, port);
  }

  // ---- Replies ----

  datatype Answer = Short | Refused | BadLength | Bound(bindHost: bytes, bindPort: bytes)

  // The checks of the client side on an upstream reply, in its order.
  function ParseReply(buf: bytes, n: nat): Answer
    requires |buf| == MAX_LENGTH && n <= MAX_LENGTH
  {
    if n < 7 then Short
    else if buf[1] != 0 then Refused
    else if buf[0] != 5 || buf[1] != 0 || buf[2] != 0 || (buf[3] != 1 && buf[3] != 3 && buf[3] != 4)
    then Refused
    else if buf[3] == 3 && n != (buf[4] as int) + 4 + 1 + 2 then BadLength
    else if buf[3] == 1 && n != 4 + 4 + 2 then BadLength
    else if buf[3] == 4 && n != 4 + 16 + 2 then BadLength
    else
      var port := [buf[n - 2], buf[n - 1]];
      match buf[3]
      case 3 => Bound(buf[5..5 + (buf[4] as int)], port)
      case 1 => Bound(buf[4..8], port)
      case _ => Bound(buf[4..20], port)
  }

  function ReadReply(data: bytes): Answer {
    if |data| <= MAX_LENGTH then ParseReply(ReadBuffer(data), |data|) else Short
  }

  // The success reply for a SOCKS5 client. `requestHost` is the host the client asked for: the
  // guard of the name case tests its length, not that of the bound name.
  function PrintReply(bindHost: bytes, bindPort: bytes, requestHost: bytes): Option<bytes> {
    match |bindHost|
    case 0 => Some([5, 0, 0, 1, 0, 0, 0, 0, 0, 0])
    case 4 => Some([5, 0, 0, 1] + bindHost + bindPort)
    case 16 => Some([5, 0, 0, 4] + bindHost + bindPort)
    case _ =>
      if |requestHost| > 255 then None
      else Some([5, 0, 0, 3, |bindHost| % 256] + bindHost + bindPort)
  }

  // A bound name of 4 or 16 octets looks like an address to the printer.
  function Reclassified(d: Dest): Dest {
    if d.Name? && |d.name| == 4 then V4(d.name)
    else if d.Name? && |d.name| == 16 then V6(d.name)
    else d
  }

  lemma ReadReplyByLayout(data: bytes)
    ensures ReadReply(data).Bound? <==> HasLayout(data) && data[1] == 0
    ensures ReadReply(data).Bound? ==>
              var d := DestOf(data);
              ReadReply(data) == Bound(if d.Name? then d.name else d.addr, data[|data| - 2..])
  {
    if |data| <= MAX_LENGTH {
      var n := |data|;
      var buf := ReadBuffer(data);
      assert forall i :: 0 <= i < n ==> buf[i] == buf[..n][i];
      if HasLayout(data) {
        BufferSlice(data, 4, n - 2);
        BufferSlice(data, 5, n - 2);
        assert [buf[n - 2], buf[n - 1]] == data[n - 2..];
      }
    }
  }

  // What counts as a refusal: any REP but 0, or a head that is not that of a SOCKS5 reply.
  predicate Refusing(data: bytes)
    requires |data| >= 4
  {
    data[1] != 0 || data[0] != 5 || data[2] != 0 || (data[3] != 1 && data[3] != 3 && data[3] != 4)
  }

  // The four outcomes in terms of the octets received.
  lemma ReplyOutcomes(data: bytes)
    requires |data| <= MAX_LENGTH
    ensures ReadReply(data).Short? <==> |data| < 7
    ensures |data| >= 7 ==> (ReadReply(data).Refused? <==> Refusing(data))
    ensures |data| >= 7 ==> (ReadReply(data).BadLength? <==> !Refusing(data) && !HasLayout(data))
  {
    var buf := ReadBuffer(data);
    assert forall i :: 0 <= i < |data| ==> buf[i] == buf[..|data|][i];
  }

  // The client side takes exactly the RFC 1928 section 6 frames with REP = 0.
  lemma RepliesAreFrames(data: bytes)
    ensures ReadReply(data).Bound? <==> exists d, port :: FrameOf(data, 0, d, port)
  {
    ReadReplyByLayout(data);
    if ReadReply(data).Bound? {
      LayoutIsFrame(data);
      assert FrameOf(data, 0, DestOf(data), data[|data| - 2..]);
    }
    forall d, port | FrameOf(data, 0, d, port)
      ensures ReadReply(data).Bound?
    {
      FrameHasLayout(0, d, port);
    }
  }

  lemma ReadReplyOfFrame(d: Dest, port: bytes)
    requires DestOk(d) && |port| == 2
    ensures ReadReply(Frame(0, d, port)) == Bound(if d.Name? then d.name else d.addr, port)
  {
    FrameHasLayout(0, d, port);
    ReadReplyByLayout(Frame(0, d, port));
  }

  lemma PrintedFrame(d: Dest, port: bytes, requestHost: bytes)
    requires DestOk(d) && d != Name([]) && |port| == 2 && |requestHost| <= 255
    ensures PrintReply(if d.Name? then d.name else d.addr, port, requestHost)
         == Some(Frame(0, Reclassified(d), port))
  {
    FlatFrame(0, Reclassified(d), port);
  }

  // Reply relay: what the client side accepts is reproduced for the client octet for octet, except
  // exactly the names of 4 or 16 octets, which come out as addresses. A reply of the minimal length
  // the read waits for (8 octets) never leaves the bound host empty.
  lemma ReplyRelay(d: Dest, port: bytes, requestHost: bytes)
    requires DestOk(d) && |port| == 2 && |requestHost| <= 255
    requires |Frame(0, d, port)| >= 8
    ensures var answer := ReadReply(Frame(0, d, port));
            && answer.Bound? && answer.bindHost != []
            && PrintReply(answer.bindHost, answer.bindPort, requestHost)
               == Some(Frame(0, Reclassified(d), port))
    ensures Frame(0, Reclassified(d), port) == Frame(0, d, port)
       <==> !(d.Name? && (|d.name| == 4 || |d.name| == 16))
  {
    FlatFrame(0, d, port);
    ReadReplyOfFrame(d, port);
    PrintedFrame(d, port, requestHost);
    FrameInjective(0, Reclassified(d), d, port);
  }

  // ---- User name and password (RFC 1929) ----

  datatype Login = Login(user: bytes, pwd: bytes)

  // The frame the client side sends; the two length octets are truncating casts.
  function AuthFrame(user: bytes, pwd: bytes): bytes {
    [1, |user| % 256] + user + [|pwd| % 256] + pwd
  }

  // The server side's checks; the index 2 + ULEN is read before the length is known to cover it.
  function ParseAuth(buf: bytes, n: nat): Option<Login>
    requires |buf| == MAX_LENGTH && n <= MAX_LENGTH
  {
    var ulen: int := buf[1];
    var plen: int := buf[2 + ulen];
    if n < 2 + 1 + 1 + 1 then None
    else if n < 2 + ulen + 1 + plen then None
    else if n > 2 + ulen + 1 + plen then None
    else if buf[0] != 1 then None
    else if ulen == 0 then None
    else if plen == 0 then None
    else Some(Login(buf[2..2 + ulen], buf[2 + ulen + 1..2 + ulen + 1 + plen]))
  }

  function ReadAuth(data: bytes): Option<Login> {
    if |data| <= MAX_LENGTH then ParseAuth(ReadBuffer(data), |data|) else None
  }

  // The server side accepts a received string exactly when it is the frame of a user and a password
  // of 1 to 255 octets, and then returns those: it inverts the printer, and the frame is unambiguous.
  lemma AuthCodec(data: bytes, user: bytes, pwd: bytes)
    ensures ReadAuth(data) == Some(Login(user, pwd))
       <==> 1 <= |user| <= 255 && 1 <= |pwd| <= 255 && data == AuthFrame(user, pwd)
  {
    if 1 <= |user| <= 255 && 1 <= |pwd| <= 255 && data == AuthFrame(user, pwd) {
      ReadAuthOfFrame(user, pwd);
    }
    if ReadAuth(data) == Some(Login(user, pwd)) {
      ReadAuthIsFrame(data, user, pwd);
    }
  }

  lemma ReadAuthOfFrame(user: bytes, pwd: bytes)
    requires 1 <= |user| <= 255 && 1 <= |pwd| <= 255
    ensures ReadAuth(AuthFrame(user, pwd)) == Some(Login(user, pwd))
  {
    var data := AuthFrame(user, pwd);
    var buf := ReadBuffer(data);
    assert forall i :: 0 <= i < |data| ==> buf[i] == data[i];
    assert buf[2..2 + |user|] == user;
    assert buf[2 + |user|] == |pwd|;
    assert buf[2 + |user| + 1..2 + |user| + 1 + |pwd|] == pwd;
  }

  lemma ReadAuthIsFrame(data: bytes, user: bytes, pwd: bytes)
    requires ReadAuth(data) == Some(Login(user, pwd))
    ensures 1 <= |user| <= 255 && 1 <= |pwd| <= 255 && data == AuthFrame(user, pwd)
  {
    var buf := ReadBuffer(data);
    assert forall i :: 0 <= i < |data| ==> buf[i] == data[i];
    assert data == AuthFrame(user, pwd);
  }
}
