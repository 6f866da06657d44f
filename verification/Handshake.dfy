// The handshake as the objects of the source run it: methods that set flags, host and port, build
// messages and start writes. Every handler is proved to take the step of HandshakeSpec. The down-side
// and up-side helper objects live in the fields of this one class.
module Handshake {
  import opened Bytes
  import opened Socks5Wire
  import Socks4Wire
  import Ipv4Text
  import opened AuthClients
  import S = HandshakeSpec

  // ATYP and address are appended to the fixed head; None when a name is too long.
  method AppendAddress(v6: Ipv6Text, host: bytes) returns (r: Option<bytes>)
    ensures var d := Resolve(v6, host);
            r == if d.Name? && |host| > 253 then None else Some([5, 1, 0] + AddressField(d))
  {
    var dataSend: bytes := [5, 1, 0];
    match Resolve(v6, host) {
      case Name(n) =>
        dataSend := dataSend + [3];
        if |host| > 253 {
          return None;
        }
        dataSend := dataSend + [|host|];
        dataSend := dataSend + host;
        assert dataSend == [5, 1, 0] + ([3, |n|] + n);
      case V4(a) =>
        dataSend := dataSend + [1] + a;
        assert dataSend == [5, 1, 0] + ([1] + a);
      case V6(a) =>
        dataSend := dataSend + [4] + a;
        assert dataSend == [5, 1, 0] + ([4] + a);
    }
    return Some(dataSend);
  }

  // The port is appended, and the command octet is set last.
  method BuildRequest(v6: Ipv6Text, mode: RelayMode, host: bytes, port: u16) returns (r: Option<bytes>)
    ensures r == EmitRequest(v6, mode, host, port)
  {
    var head := AppendAddress(v6, host);
    if head.None? {
      return None;
    }
    var dataSend := head.value + [port / 256, port % 256];
    match mode {
      case ConnectMode => SetSecond(head.value, 1, PortBytes(port)); dataSend := dataSend[1 := 1];
      case BindMode => SetSecond(head.value, 2, PortBytes(port)); dataSend := dataSend[1 := 2];
      case UdpMode => SetSecond(head.value, 3, PortBytes(port)); dataSend := dataSend[1 := 3];
      case NoMode => return None;
    }
    return Some(dataSend);
  }

  lemma SetSecond(head: bytes, code: byte, port: bytes)
    requires |head| >= 3 && head[..3] == [5, 1, 0]
    ensures (head + port)[1 := code] == [5, code, 0] + head[3..] + port
  {
    assert head[0] == head[..3][0] && head[2] == head[..3][2];
  }

  // Asynchronous operations in flight, and the record of what was called, received and sent.
  datatype Io = Io(down: Option<S.DownOp>, up: Option<S.UpOp>, replies: seq<S.Reply>,
                   fired: seq<S.Outcome>, misuse: nat, hist: S.History)

  class ProxyHandshakeAuth {
    const env: S.Env

    var readyUp: bool
    var readyDown: bool
    var completeUp: bool
    var completeDown: bool
    var completeUpError: bool
    var completeDownError: bool

    // Whether the session pointer and the two callbacks are still set.
    var tcpRelaySession: bool
    var whenComplete: bool
    var whenError: bool

    var connectType: S.Kind
    var proxyRelayMode: RelayMode
    var upsideSocks5: bool
    var serverUdpEnabled: bool
    var clientUdpEnabled: bool
    var host: bytes
    var port: u16
    var bindHost: bytes
    var bindPort: bytes
    var authUser: Option<AuthUser>
    var downstreamBuf: bytes

    // The session as its sockets and its owner see it.
    var io: Io

    ghost function JoinView(): S.Join
      reads this
    {
      S.Join(readyUp, readyDown, completeUp, completeDown, completeUpError, completeDownError,
             tcpRelaySession, whenComplete, whenError, io.fired, io.misuse)
    }

    ghost function View(): S.State
      reads this
    {
      S.State(JoinView(), connectType, proxyRelayMode, upsideSocks5, serverUdpEnabled, clientUdpEnabled,
              host, port, bindHost, bindPort, authUser, downstreamBuf,
              io.down, io.up, io.replies, io.hist)
    }

    constructor (env: S.Env)
      ensures View() == S.INIT && this.env == env
    {
      this.env := env;
      readyUp, readyDown, completeUp, completeDown := false, false, false, false;
      completeUpError, completeDownError := false, false;
      tcpRelaySession, whenComplete, whenError := true, true, true;
      connectType, proxyRelayMode, upsideSocks5 := S.Unknown, NoMode, false;
      serverUdpEnabled, clientUdpEnabled := false, false;
      host, port, bindHost, bindPort := [], 0, [], [];
      authUser, downstreamBuf := None, [];
      io := Io(Some(S.ReadFirst), None, [], [], 0, S.History([], [], [], [], [], [], [], [], [], [], 0));
    }

    // ---- Callbacks and joins ----

    method Release()
      modifies this
      ensures View() == old(View()).(join := S.Release(old(JoinView())))
    {
      tcpRelaySession := false;
      whenComplete := false;
      whenError := false;
    }

    method DoWhenComplete()
      modifies this
      ensures View() == old(View()).(join := S.WhenComplete(old(JoinView())))
    {
      if whenComplete {
        io := io.(fired := io.fired + [S.Completed]);
      }
      Release();
    }

    method DoWhenError()
      modifies this
      ensures View() == S.Fail(old(View()))
    {
      if whenError {
        io := io.(fired := io.fired + [S.Errored]);
      }
      Release();
    }

    method NeverGoThere()
      modifies this
      ensures View() == old(View()).(join := S.NeverGoThere(old(JoinView())))
    {
      io := io.(misuse := io.misuse + 1);
      DoWhenError();
    }

    method CheckWhenComplete()
      modifies this
      ensures View() == old(View()).(join := S.CheckWhenComplete(old(JoinView())))
    {
      if completeDownError || completeUpError {
        DoWhenError();
      } else if completeDown && completeUp {
        if tcpRelaySession {
          DoWhenComplete();
        }
      }
    }

    method DoWhenUpEnd()
      modifies this
      ensures View() == S.UpEnd(old(View()))
    {
      hide S.CheckWhenComplete, S.NeverGoThere;
      if completeUp {
        NeverGoThere();
        return;
      }
      completeUp := true;
      CheckWhenComplete();
    }

    method DoWhenDownEnd(error: bool)
      modifies this
      ensures View() == old(View()).(join := S.WhenDownEnd(old(JoinView()), error))
    {
      hide S.WhenCompleteDown;
      if error {
        completeDownError := true;
      }
      DoWhenCompleteDown();
    }

    method DoWhenCompleteDown()
      modifies this
      ensures View() == old(View()).(join := S.WhenCompleteDown(old(JoinView())))
    {
      hide S.CheckWhenComplete, S.NeverGoThere;
      if completeDown {
        NeverGoThere();
        return;
      }
      completeDown := true;
      CheckWhenComplete();
    }

    // ---- Starting writes ----

    method StartDown(op: S.DownOp)
      modifies this
      ensures View() == S.StartDown(old(View()), op)
    {
      io := io.(down := Some(op), hist := io.hist.(toDown := io.hist.toDown + S.DownData(op)));
    }

    method StartUp(op: S.UpOp)
      modifies this
      ensures View() == S.StartUp(env, old(View()), op)
    {
      io := io.(up := Some(op), hist := io.hist.(toUp := io.hist.toUp + S.UpData(env, op)));
    }

    method SendReply(r: S.Reply)
      modifies this
      ensures View() == S.SendReply(old(View()), r)
    {
      io := io.(replies := io.replies + [r],
                hist := io.hist.(toDown := io.hist.toDown + r.data, started := io.hist.started + [r]));
    }

    // ---- Final replies ----

    // do_handshake_client_end_error of the SOCKS5 server: one octet of a fixed message is set.
    method Socks5EndError(errorType: byte)
      modifies this
      ensures View() == S.SendReply(old(View()), S.Socks5Error(errorType))
    {
      var dataSend: bytes := [5, 1, 0, 1, 0, 0, 0, 0, 0, 0];
      dataSend := dataSend[1 := errorType];
      assert dataSend == S.Socks5Error(errorType).data;
      SendReply(S.Reply(dataSend, true));
    }

    method Socks4End(code: byte)
      modifies this
      ensures View() == S.SendReply(old(View()), S.Socks4Reply(code))
    {
      var dataSend: bytes := [0, 1, 0, 0, 0, 0, 0, 0];
      dataSend := dataSend[1 := code];
      assert dataSend == S.Socks4Reply(code).data;
      SendReply(S.Reply(dataSend, code != 90));
    }

    // do_handshake_client_end: the success reply is put together from what upstream bound.
    method Socks5End()
      modifies this
      ensures View() == S.Socks5End(old(View()))
    {
      var dataSend: bytes := [5, 0, 0];
      if |bindHost| == 0 {
        dataSend := [5, 0, 0, 1, 0, 0, 0, 0, 0, 0];
      } else if |bindHost| == 4 {
        dataSend := dataSend + [1] + bindHost + bindPort;
        assert dataSend == [5, 0, 0, 1] + bindHost + bindPort;
      } else if |bindHost| == 16 {
        dataSend := dataSend + [4] + bindHost + bindPort;
        assert dataSend == [5, 0, 0, 4] + bindHost + bindPort;
      } else {
        dataSend := dataSend + [3];
        if |host| > 255 {
          DoWhenError();
          return;
        }
        dataSend := dataSend + [|bindHost| % 256] + bindHost + bindPort;
        assert dataSend == [5, 0, 0, 3, |bindHost| % 256] + bindHost + bindPort;
      }
      assert PrintReply(bindHost, bindPort, host) == Some(dataSend);
      if serverUdpEnabled {
        if !(upsideSocks5 && clientUdpEnabled) {
          Socks5EndError(7);
          return;
        }
      }
      SendReply(S.Reply(dataSend, false));
    }

    // ---- The hand-over between the sides ----

    method DoWhenUpReady()
      modifies this
      ensures View() == S.WhenUpReady(old(View()))
    {
      hide S.Socks5End, S.NeverGoThere, S.SendReply, S.Socks4Reply;
      if readyUp {
        NeverGoThere();
        return;
      }
      readyUp := true;
      match connectType
      case Socks5 => Socks5End();
      case Socks4 => Socks4End(90);
      case HttpConnect =>
      case HttpOther =>
      case Unknown => NeverGoThere();
    }

    method DoWhenUpReadyError()
      modifies this
      ensures View() == S.WhenUpReadyError(old(View()))
    {
      hide S.NeverGoThere, S.SendReply, S.Socks5Error, S.Socks4Reply;
      if readyUp {
        NeverGoThere();
        return;
      }
      readyUp := true;
      completeUpError := true;
      match connectType
      case Socks5 => Socks5EndError(1);
      case Socks4 => Socks4End(91);
      case HttpConnect =>
      case HttpOther =>
      case Unknown => NeverGoThere();
    }

    method DoWhenDownReady()
      modifies this
      ensures View() == S.WhenDownReady(env, old(View()))
    {
      if readyDown || completeUp {
        NeverGoThere();
        return;
      }
      readyDown := true;
      clientUdpEnabled := false;
      io := io.(hist := io.hist.(clients := io.hist.clients + 1));
      StartUp(S.WriteHello);
    }

    // ---- Down-side handlers ----

    // do_read_client_first_3_byte: `tail` is what memory holds after the octets received.
    method OnFirst(data: bytes, tail: bytes)
      requires |tail| >= 4
      modifies this
      ensures View() == S.OnFirst(env, old(View()), data, tail)
    {
      hide S.OnGreeting, S.OnSocks4Header;
      var d := data + tail;
      if |data| < 3 {
        DoWhenError();
        return;
      }
      if d[0] == 5 && (d[1] == 2 || d[1] == 1) && (d[2] == 2 || d[2] == 0) {
        if |data| != 2 + (d[1] as int) {
          DoWhenError();
          return;
        }
        connectType := S.Socks5;
        upsideSocks5 := true;
        OnGreeting(data);
      } else if d[0] == 4 && (d[1] == 2 || d[1] == 1) {
        if env.disableSocks4 {
          DoWhenError();
          return;
        }
        var pLenOk := |data| >= 1 + 1 + 2 + 4 + 1;
        var pEndWithNull := d[|data|] == 0;
        if !pLenOk || !pEndWithNull {
          DoWhenError();
          return;
        }
        connectType := S.Socks4;
        upsideSocks5 := true;
        OnSocks4Header(data, d[|data|]);
      } else if S.IsConnectWord(d) {
        upsideSocks5 := true;
        connectType := S.HttpConnect;
      } else if S.IsOtherMethod(d[0]) {
        connectType := S.HttpOther;
        upsideSocks5 := true;
      } else {
        DoWhenError();
      }
    }

    // do_analysis_client_first_socks5_header
    method OnGreeting(data: bytes)
      modifies this
      ensures View() == S.OnGreeting(env, old(View()), data)
    {
      if |data| < 3 || |data| != 2 + (data[1] as int) {
        DoWhenError();
        return;
      }
      if data[0] == 5 && data[1] == 1 && data[2] == 0 {
        downstreamBuf := data[3..];
        if env.NeedAuth() {
          DoWhenError();
        } else {
          StartDown(S.WriteNoAuth);
        }
      } else if data[0] == 5 && data[1] > 0 {
        var authMethodList := data[2..];
        downstreamBuf := [];
        if 2 in authMethodList {
          if env.NeedAuth() {
            StartDown(S.WriteAuthMethod);
          } else {
            StartDown(S.WriteNoAuth);
          }
        } else {
          if env.NeedAuth() {
            SendReply(S.HEADER_ERROR);
          } else {
            StartDown(S.WriteNoAuth);
          }
        }
      } else {
        SendReply(S.HEADER_ERROR);
      }
    }

    method SetAuthUser(a: AuthUser)
      modifies this
      ensures View() == S.SetAuthUser(old(View()), a)
    {
      if !tcpRelaySession {
        io := io.(misuse := io.misuse + 1);
      }
      authUser := Some(a);
    }

    // do_analysis_client_first_socks4_header
    method OnSocks4Header(data: bytes, past: byte)
      modifies this
      ensures View() == S.OnSocks4Header(env, old(View()), data, past)
    {
      hide S.OnSocks4Command, Socks4Wire.ParsePacket, S.Socks4Reply;
      var r := Socks4Wire.Analyse(data, past);
      if r.None? {
        DoWhenError();
        return;
      }
      var p := r.value;
      host := p.host;
      port := p.port;
      if env.NeedAuth() {
        if p.user == [] {
          Socks4End(92);
          return;
        }
        var au := env.LookupUser(p.user);
        if au.None? {
          Socks4End(92);
          return;
        }
        SetAuthUser(au.value);
      }
      OnSocks4Command(p.cmd);
    }

    method OnSocks4Command(cmd: byte)
      modifies this
      ensures View() == S.OnSocks4Command(env, old(View()), cmd)
    {
      hide S.WhenDownReady;
      if cmd == 1 {
        proxyRelayMode := ConnectMode;
      } else if cmd == 2 {
        downstreamBuf := [];
        Socks4End(91);
        proxyRelayMode := BindMode;
      } else {
        DoWhenError();
        return;
      }
      downstreamBuf := [];
      DoWhenDownReady();
    }

    // The completion of do_auth_client_read.
    method OnLogin(data: bytes)
      requires |data| <= MAX_LENGTH
      modifies this
      ensures View() == S.OnLogin(env, old(View()), data)
    {
      var buf := ReadBuffer(data);
      var n := |data|;
      var ulen: int := buf[1];
      var plen: int := buf[2 + ulen];
      if n < 2 + 1 + 1 + 1 || n < 2 + ulen + 1 + plen || n > 2 + ulen + 1 + plen
         || buf[0] != 1 || ulen == 0 || plen == 0 {
        DoWhenError();
        return;
      }
      var user, pwd := buf[2..2 + ulen], buf[2 + ulen + 1..2 + ulen + 1 + plen];
      var au := FindPair(env.users, user, pwd);
      if au.Some? {
        SetAuthUser(au.value);
        StartDown(S.WriteLoginOk);
      } else {
        SendReply(S.LOGIN_ERROR);
      }
    }

    // The target of a request: host and port are assigned once its address form is known to fit.
    method ReadTarget(data: bytes) returns (ok: bool)
      requires |data| <= MAX_LENGTH
      modifies this
      ensures ok == ReadRequest(env.v6, data).Some?
      ensures View() == if ok then
                          var r := ReadRequest(env.v6, data).value;
                          old(View()).(host := r.host, port := r.port)
                        else old(View())
      ensures ok ==> 1 <= ReadBuffer(data)[1] == ReadRequest(env.v6, data).value.cmd <= 3
    {
      var buf := ReadBuffer(data);
      var n := |data|;
      if n < 4 + 2
         || buf[0] != 5 || (buf[1] != 1 && buf[1] != 2 && buf[1] != 3) || buf[2] != 0 {
        return false;
      }
      var len: int := buf[4];
      if buf[3] == 1 {
        if n != 4 + 4 + 2 {
          return false;
        }
        host := Ipv4Text.Print(buf[4..8]);
      } else if buf[3] == 3 {
        if n != 4 + 1 + len + 2 {
          return false;
        }
        host := buf[5..5 + len];
      } else if buf[3] == 4 {
        if n != 4 + 16 + 2 {
          return false;
        }
        host := env.v6.toText(buf[4..20]);
      } else {
        return false;
      }
      port := PortOf(buf[n - 2], buf[n - 1]);
      ok := true;
    }

    // The completion of do_handshake_client_read.
    method OnCommand(data: bytes)
      requires |data| <= MAX_LENGTH
      modifies this
      ensures View() == S.OnCommand(env, old(View()), data)
    {
      hide S.WhenDownReady, ReadRequest, S.SendReply, S.Socks5Error, S.Fail;
      var buf := ReadBuffer(data);
      var ok := ReadTarget(data);
      if !ok {
        DoWhenError();
        return;
      }
      if buf[1] == 1 {
        proxyRelayMode := ConnectMode;
      } else if buf[1] == 2 {
        Socks5EndError(7);
        proxyRelayMode := BindMode;
      } else {
        if !upsideSocks5 {
          Socks5EndError(7);
          return;
        }
        serverUdpEnabled := true;
        proxyRelayMode := UdpMode;
      }
      DoWhenDownReady();
    }

    // ---- Up-side handlers ----

    // do_socks5_connect_write
    method ConnectWrite()
      modifies this
      ensures View() == S.ConnectWrite(env, old(View()))
    {
      hide EmitRequest;
      var dataSend := BuildRequest(env.v6, proxyRelayMode, host, port);
      if dataSend.None? {
        DoWhenError();
        return;
      }
      if proxyRelayMode == UdpMode {
        clientUdpEnabled := true;
      }
      StartUp(S.WriteRequest(dataSend.value));
    }

    // The completion of do_socks5_handshake_read.
    method OnHello(data: bytes)
      modifies this
      ensures View() == S.OnHello(env, old(View()), data)
    {
      hide S.ConnectWrite;
      if |data| < 2 || data[0] != 5 || (data[1] != 0 && data[1] != 2) {
        DoWhenError();
        return;
      }
      if data[1] == 2 {
        if env.upUser == [] {
          DoWhenError();
        } else {
          StartUp(S.WriteAuth);
        }
        return;
      }
      ConnectWrite();
    }

    // The completion of do_socks5_auth_read.
    method OnAuthStatus(data: bytes)
      modifies this
      ensures View() == S.OnAuthStatus(env, old(View()), data)
    {
      hide S.ConnectWrite;
      if |data| < 2 || data[0] != 1 || data[1] != 0 {
        DoWhenError();
        return;
      }
      ConnectWrite();
    }

    // The completion of do_socks5_connect_read.
    method OnAnswer(data: bytes)
      requires |data| <= MAX_LENGTH
      modifies this
      ensures View() == S.OnAnswer(old(View()), data)
    {
      hide S.WhenUpReady, S.WhenUpReadyError, S.UpEnd, S.Fail;
      var buf := ReadBuffer(data);
      var n := |data|;
      if n < 7 {
        DoWhenError();
        return;
      }
      if buf[1] != 0
         || buf[0] != 5 || buf[2] != 0 || (buf[3] != 1 && buf[3] != 3 && buf[3] != 4) {
        DoWhenUpReadyError();
        DoWhenUpEnd();
        return;
      }
      var len: int := buf[4];
      if (buf[3] == 3 && n != len + 4 + 1 + 2) || (buf[3] == 1 && n != 4 + 4 + 2)
         || (buf[3] == 4 && n != 4 + 16 + 2) {
        DoWhenError();
        return;
      }
      ReadBound(data);
      DoWhenUpReady();
      DoWhenUpEnd();
    }

    // The bound address of an accepted answer.
    method ReadBound(data: bytes)
      requires ReadReply(data).Bound?
      modifies this
      ensures var r := ReadReply(data);
              View() == old(View()).(bindHost := r.bindHost, bindPort := r.bindPort)
    {
      var buf := ReadBuffer(data);
      var n := |data|;
      var len: int := buf[4];
      bindPort := [buf[n - 2], buf[n - 1]];
      if buf[3] == 3 {
        bindHost := buf[5..5 + len];
      } else if buf[3] == 1 {
        bindHost := buf[4..8];
      } else {
        bindHost := buf[4..20];
      }
    }

    // ---- Completions ----

    // A completion is dispatched to the handler of the operation it belongs to.
    method Complete(e: S.Event)
      requires S.Enabled(View(), e)
      modifies this
      ensures View() == S.Step(env, old(View()), e)
    {
      hide S.DownStep, S.UpStep, S.ReplyStep;
      match e
      case DownEvent(c) =>
        var op := io.down.value;
        io := io.(down := None);
        CompleteDown(op, c);
      case UpEvent(c) =>
        var op := io.up.value;
        io := io.(up := None);
        CompleteUp(op, c);
      case ReplyEvent(i, c) =>
        var r := io.replies[i];
        io := io.(replies := io.replies[..i] + io.replies[i + 1..]);
        CompleteReply(r, c);
    }

    method CompleteReply(r: S.Reply, c: S.Completion)
      requires !c.Got?
      modifies this
      ensures View() == S.ReplyStep(old(View()), r, c)
    {
      hide S.WhenDownEnd, S.Fail;
      if c.Failed? || c.n != |r.data| {
        DoWhenError();
      } else {
        io := io.(hist := io.hist.(delivered := io.hist.delivered + [r]));
        DoWhenDownEnd(r.error);
      }
    }

    method CompleteDown(op: S.DownOp, c: S.Completion)
      requires c.Got? <==> S.IsDownRead(op) && !c.Failed?
      requires c.Got? && op.ReadFirst? ==> |c.tail| >= 4
      requires c.Got? && !op.ReadFirst? ==> |c.data| <= MAX_LENGTH
      modifies this
      ensures View() == S.DownStep(env, old(View()), op, c)
    {
      hide S.OnFirst, S.OnLogin, S.OnCommand;
      if c.Failed? || (c.Wrote? && c.n != |S.DownData(op)|) {
        DoWhenError();
        return;
      }
      match op
      case ReadFirst =>
        downstreamBuf := c.data;
        io := io.(hist := io.hist.(first := c.data));
        OnFirst(c.data, c.tail);
      case WriteAuthMethod => StartDown(S.ReadLogin);
      case ReadLogin =>
        io := io.(hist := io.hist.(login := c.data));
        OnLogin(c.data);
      case WriteLoginOk => StartDown(S.ReadCommand);
      case WriteNoAuth => StartDown(S.ReadCommand);
      case ReadCommand =>
        io := io.(hist := io.hist.(command := c.data));
        OnCommand(c.data);
    }

    method CompleteUp(op: S.UpOp, c: S.Completion)
      requires c.Got? <==> S.IsUpRead(op) && !c.Failed?
      requires c.Got? ==> |c.data| <= MAX_LENGTH
      modifies this
      ensures View() == S.UpStep(env, old(View()), op, c)
    {
      hide S.OnHello, S.OnAuthStatus, S.OnAnswer;
      if c.Failed? || (c.Wrote? && c.n != |S.UpData(env, op)|) {
        DoWhenError();
        return;
      }
      match op
      case WriteHello => StartUp(S.ReadHello);
      case ReadHello =>
        io := io.(hist := io.hist.(hello := c.data));
        OnHello(c.data);
      case WriteAuth => StartUp(S.ReadAuthStatus);
      case ReadAuthStatus =>
        io := io.(hist := io.hist.(status := c.data));
        OnAuthStatus(c.data);
      case WriteRequest(_) => StartUp(S.ReadAnswer);
      case ReadAnswer =>
        io := io.(hist := io.hist.(answer := c.data));
        OnAnswer(c.data);
    }
  }
}
