// What the octets of a session are over all runs: who was authenticated before anything went upstream,
// what was sent upstream, and what the client was told.
module HandshakeData {
  import opened Bytes
  import opened Socks5Wire
  import Socks4Wire
  import opened AuthClients
  import opened HandshakeSpec
  import opened HandshakeControl

  // ---- The invariant ----

  // What a SOCKS5 client is sent before its command is read.
  function Preamble(env: Env): bytes {
    if env.NeedAuth() then [5, 2, 1, 0] else [5, 0]
  }

  // The hello offers exactly one method: authentication if there is a user to authenticate.
  function Hello(env: Env): bytes {
    if env.upUser == [] then [5, 1, 0] else [5, 1, 2]
  }

  function HelloAuth(env: Env): bytes {
    Hello(env) + AuthFrame(env.upUser, env.upPwd)
  }

  // The session's user is a stored record, and the received octets carry its credentials.
  predicate Authentic(env: Env, s: State) {
    && s.authUser.Some? && s.authUser.value in env.users
    && var a := s.authUser.value;
    if s.kind.Socks5? then
      1 <= |a.user| <= 255 && 1 <= |a.pwd| <= 255 && s.hist.login == AuthFrame(a.user, a.pwd)
    else
      var p := Socks4Wire.ParsePacket(s.hist.first, 0);
      s.kind.Socks4? && p.Some? && p.value.user == a.user && a.user != []
  }

  predicate DownBytes(env: Env, s: State) {
    && (s.down.Some? && !s.down.value.ReadFirst? ==> s.buf == [] && s.upsideSocks5)
    && match s.down
       case None => true
       case Some(ReadFirst) => s.hist.toDown == []
       case Some(WriteAuthMethod) => env.NeedAuth() && s.hist.toDown == [5, 2]
       case Some(ReadLogin) => env.NeedAuth() && s.hist.toDown == [5, 2]
       case Some(WriteLoginOk) => env.NeedAuth() && Authentic(env, s) && s.hist.toDown == Preamble(env)
       case Some(WriteNoAuth) => !env.NeedAuth() && s.hist.toDown == Preamble(env)
       case Some(ReadCommand) =>
         (env.NeedAuth() ==> Authentic(env, s)) && s.hist.toDown == Preamble(env)
  }

  // The destination and the mode are those of the client's request.
  predicate Target(env: Env, s: State) {
    if s.kind.Socks5? then
      var r := ReadRequest(env.v6, s.hist.command);
      && r.Some? && s.host == r.value.host && s.port == r.value.port
      && s.mode == ModeOf(r.value.cmd) && s.serverUdp == s.mode.UdpMode?
    else
      var p := Socks4Wire.ParsePacket(s.hist.first, 0);
      && s.kind.Socks4? && !env.disableSocks4 && s.hist.first != [] && s.hist.first[0] == 4
      && p.Some? && s.host == p.value.host && s.port == p.value.port
      && 1 <= p.value.cmd <= 2 && s.mode == ModeOf(p.value.cmd) && !s.serverUdp
  }

  predicate ReadyBytes(env: Env, s: State) {
    if s.join.readyDown then
      (env.NeedAuth() ==> Authentic(env, s)) && Target(env, s) && s.buf == [] && s.upsideSocks5
    else
      s.hist.toUp == [] && !s.serverUdp && !s.clientUdp
  }

  predicate Starts(data: bytes, head: bytes) {
    |data| >= |head| && data[..|head|] == head
  }

  // Upstream got the hello and this request, and between them the authentication frame if and only if it
  // asked for that; it said so in its answer to the hello, and then accepted the frame.
  predicate UpstreamSaw(env: Env, s: State, request: bytes) {
    || (s.hist.toUp == Hello(env) + request && Starts(s.hist.hello, [5, 0]))
    || (env.upUser != [] && s.hist.toUp == HelloAuth(env) + request
        && Starts(s.hist.hello, [5, 2]) && Starts(s.hist.status, [1, 0]))
  }

  // The request went out.
  predicate Sent(env: Env, s: State) {
    var e := EmitRequest(env.v6, s.mode, s.host, s.port);
    && e.Some? && s.clientUdp == s.mode.UdpMode?
    && UpstreamSaw(env, s, e.value)
  }

  // Everything that can have gone upstream once the up side was started.
  predicate UpPhase(env: Env, s: State) {
    || s.hist.toUp == Hello(env)
    || AuthSent(env, s)
    || var e := EmitRequest(env.v6, s.mode, s.host, s.port);
       e.Some? && UpstreamSaw(env, s, e.value)
  }

  predicate UpBytes(env: Env, s: State) {
    && (s.join.readyDown ==> UpPhase(env, s))
    && (s.join.readyUp ==> Sent(env, s))
    && match s.up
       case None => true
       case Some(WriteHello) => s.hist.toUp == Hello(env) && !s.clientUdp
       case Some(ReadHello) => s.hist.toUp == Hello(env) && !s.clientUdp
       case Some(WriteAuth) => AuthSent(env, s) && !s.clientUdp
       case Some(ReadAuthStatus) => AuthSent(env, s) && !s.clientUdp
       case Some(WriteRequest(_)) => Sent(env, s)
       case Some(ReadAnswer) => Sent(env, s)
  }

  predicate AuthSent(env: Env, s: State) {
    env.upUser != [] && s.hist.toUp == HelloAuth(env) && Starts(s.hist.hello, [5, 2])
  }

  // The up side is ready with an error iff upstream refused.
  predicate Answered(s: State) {
    s.join.readyUp ==>
      && |s.hist.answer| >= 8
      && if s.join.upError then ReadReply(s.hist.answer).Refused?
         else ReadReply(s.hist.answer) == Bound(s.bindHost, s.bindPort)
  }

  // The success reply for this client.
  function Success(s: State): Option<bytes> {
    if s.kind.Socks5? then PrintReply(s.bindHost, s.bindPort, s.host)
    else Some(Socks4Reply(90).data)
  }

  // A general failure in the client's protocol.
  function RefusalFor(kind: Kind): bytes {
    if kind.Socks5? then [5, 1, 0, 1, 0, 0, 0, 0, 0, 0] else [0, 91, 0, 0, 0, 0, 0, 0]
  }

  // Outside BIND: what the client was sent in all, once the up side was started.
  predicate FinalBytes(env: Env, s: State) {
    s.join.readyDown && !s.mode.BindMode? ==>
      && s.hist.toDown == (if s.kind.Socks5? then Preamble(env) else [])
                          + (if s.hist.started == [] then [] else s.hist.started[0].data)
      && (s.hist.started != [] ==>
            s.join.readyUp && s.hist.started[0].error == s.join.upError)
      && (s.hist.started != [] && s.join.upError ==>
            s.hist.started[0].data == RefusalFor(s.kind))
      && (s.hist.started != [] && !s.join.upError ==> Success(s) == Some(s.hist.started[0].data))
  }

  // Why a client was turned away before the up side was started: it offered no method it can be
  // authenticated with, its login is in no record, or its SOCKS4 user id is empty or in no record.
  predicate TurnedAway(env: Env, s: State, r: Reply) {
    env.NeedAuth()
    && match s.kind
       case Socks5 =>
         || (r.data == [5, 255] && s.hist.toDown == r.data
             && |s.hist.first| >= 3 && 2 !in s.hist.first[2..])
         || (r.data == [1, 255] && s.hist.toDown == [5, 2] + r.data
             && ReadAuth(s.hist.login).Some?
             && var l := ReadAuth(s.hist.login).value;
             FindPair(env.users, l.user, l.pwd).None?)
       case Socks4 =>
         var p := Socks4Wire.ParsePacket(s.hist.first, 0);
         && r.data == [0, 92, 0, 0, 0, 0, 0, 0] && s.hist.toDown == r.data
         && p.Some? && (p.value.user == [] || forall a :: a in env.users ==> a.user != p.value.user)
       case _ => false
  }

  predicate EarlyReplies(env: Env, s: State) {
    !s.join.readyDown && s.hist.started != [] ==>
      |s.hist.started| == 1 && TurnedAway(env, s, s.hist.started[0])
  }

  predicate Data(env: Env, s: State) {
    && EarlyReplies(env, s) && DownBytes(env, s) && ReadyBytes(env, s) && UpBytes(env, s)
    && Answered(s) && FinalBytes(env, s)
  }

  // ---- Every step keeps it: the down side ----

  // An early handler's state: nothing went upstream yet.
  predicate EarlyData(s: State) {
    Early(s) && s.hist.toUp == [] && !s.serverUdp && !s.clientUdp
  }

  lemma EarlyFailData(env: Env, s: State)
    requires EarlyData(s)
    ensures Data(env, Fail(s))
  {
  }

  lemma EarlyReplyData(env: Env, s: State, r: Reply)
    requires EarlyData(s) && TurnedAway(env, SendReply(s, r), r)
    ensures Data(env, SendReply(s, r))
  {
  }

  lemma EarlyStartData(env: Env, s: State, op: DownOp)
    requires EarlyData(s) && DownBytes(env, StartDown(s, op))
    ensures Data(env, StartDown(s, op))
  {
  }

  predicate ReadyFor(env: Env, s: State) {
    && (env.NeedAuth() ==> Authentic(env, s)) && Target(env, s)
    && s.buf == [] && s.upsideSocks5 && !s.clientUdp && s.hist.toUp == []
    && s.hist.toDown == if s.kind.Socks5? then Preamble(env) else []
  }

  lemma EarlyReadyData(env: Env, s: State, mode: RelayMode)
    requires Early(s) && !mode.NoMode? && ReadyFor(env, s.(mode := mode))
    ensures Data(env, WhenDownReady(env, s.(mode := mode)))
  {
  }

  lemma EarlyBindData(env: Env, s: State, r: Reply)
    requires Early(s) && ReadyFor(env, s.(mode := BindMode))
    ensures Data(env, WhenDownReady(env, SendReply(s, r).(mode := BindMode)))
  {
  }

  lemma GreetingKeepsData(env: Env, s: State, data: bytes)
    requires EarlyData(s) && s.kind.Socks5? && s.hist.toDown == [] && s.upsideSocks5
    requires s.hist.first == data && |data| >= 3 && data[0] == 5 && data[1] > 0
    ensures Data(env, OnGreeting(env, s, data))
  {
    hide Data;
    if |data| != 2 + (data[1] as int) {
      EarlyFailData(env, s);
    } else if data[1] == 1 && data[2] == 0 {
      var t := s.(buf := data[3..]);
      if env.NeedAuth() {
        EarlyFailData(env, t);
      } else {
        EarlyStartData(env, t, WriteNoAuth);
      }
    } else {
      var t := s.(buf := []);
      if 2 in data[2..] {
        EarlyStartData(env, t, if env.NeedAuth() then WriteAuthMethod else WriteNoAuth);
      } else if env.NeedAuth() {
        EarlyReplyData(env, t, HEADER_ERROR);
      } else {
        EarlyStartData(env, t, WriteNoAuth);
      }
    }
  }

  lemma Socks4CommandKeepsData(env: Env, s: State, p: Socks4Wire.Packet)
    requires EarlyData(s) && s.kind.Socks4? && s.hist.toDown == [] && s.upsideSocks5
    requires Socks4Wire.ParsePacket(s.hist.first, 0) == Some(p) && s.host == p.host && s.port == p.port
    requires !env.disableSocks4 && s.hist.first != [] && s.hist.first[0] == 4
    requires env.NeedAuth() ==> Authentic(env, s)
    ensures Data(env, OnSocks4Command(env, s, p.cmd))
  {
    hide Data, WhenDownReady;
    var t := s.(buf := []);
    if p.cmd == 1 {
      EarlyReadyData(env, t, ConnectMode);
    } else if p.cmd == 2 {
      EarlyBindData(env, t, Socks4Reply(91));
    } else {
      EarlyFailData(env, s);
    }
  }

  lemma Socks4HeaderKeepsData(env: Env, s: State, data: bytes, past: byte)
    requires env.Ok() && EarlyData(s) && s.kind.Socks4? && s.hist.toDown == [] && s.upsideSocks5
    requires s.hist.first == data && past == 0
    requires !env.disableSocks4 && data != [] && data[0] == 4
    ensures Data(env, OnSocks4Header(env, s, data, past))
  {
    hide Data, OnSocks4Command;
    match Socks4Wire.ParsePacket(data, past)
    case None => EarlyFailData(env, s);
    case Some(p) =>
      var t := s.(host := p.host, port := p.port);
      if !env.NeedAuth() {
        Socks4CommandKeepsData(env, t, p);
      } else if p.user == [] || env.LookupUser(p.user).None? {
        EarlyReplyData(env, t, Socks4Reply(92));
      } else {
        var a := env.LookupUser(p.user).value;
        assert IsFoundUser(env.users, p.user, Some(a));
        Socks4CommandKeepsData(env, SetAuthUser(t, a), p);
      }
  }

  lemma HttpData(env: Env, s: State, kind: Kind)
    requires EarlyData(s) && (kind.HttpConnect? || kind.HttpOther?)
    ensures Data(env, s.(kind := kind, upsideSocks5 := true))
  {
  }

  lemma FirstKeepsData(env: Env, s: State, data: bytes, tail: bytes)
    requires env.Ok() && EarlyData(s) && s.hist.toDown == [] && |tail| >= 4 && s.hist.first == data
    ensures Data(env, OnFirst(env, s, data, tail))
  {
    hide Data, OnGreeting, OnSocks4Header, IsConnectWord, IsOtherMethod;
    var d := data + tail;
    EarlyFailData(env, s);
    HttpData(env, s, HttpConnect);
    HttpData(env, s, HttpOther);
    if |data| >= 3 && d[0] == 5 && d[1] > 0 {
      GreetingKeepsData(env, s.(kind := Socks5, upsideSocks5 := true), data);
    } else if |data| >= 3 && d[0] == 4 && tail[0] == 0 && !env.disableSocks4 {
      Socks4HeaderKeepsData(env, s.(kind := Socks4, upsideSocks5 := true), data, 0);
    }
  }

  lemma LoginKeepsData(env: Env, s: State, data: bytes)
    requires EarlyData(s) && s.kind.Socks5? && env.NeedAuth() && s.hist.toDown == [5, 2]
    requires s.hist.login == data && s.buf == [] && s.upsideSocks5
    ensures Data(env, OnLogin(env, s, data))
  {
    hide Data, ReadAuth, FindPair;
    match ReadAuth(data)
    case None => EarlyFailData(env, s);
    case Some(l) =>
      AuthCodec(data, l.user, l.pwd);
      match FindPair(env.users, l.user, l.pwd)
      case None => EarlyReplyData(env, s, LOGIN_ERROR);
      case Some(a) =>
        assert [5, 2] + DownData(WriteLoginOk) == Preamble(env);
        EarlyStartData(env, SetAuthUser(s, a), WriteLoginOk);
  }

  lemma CommandKeepsData(env: Env, s: State, data: bytes)
    requires EarlyData(s) && s.kind.Socks5? && s.buf == [] && s.upsideSocks5
    requires (env.NeedAuth() ==> Authentic(env, s)) && s.hist.toDown == Preamble(env)
    requires s.hist.command == data
    ensures Data(env, OnCommand(env, s, data))
  {
    hide Data, WhenDownReady, ReadRequest, Early;
    match ReadRequest(env.v6, data)
    case None => EarlyFailData(env, s);
    case Some(r) =>
      var t := s.(host := r.host, port := r.port);
      assert EarlyData(t) by { EarlyIgnoresTarget(s, r.host, r.port, false); }
      if r.cmd == 1 {
        EarlyReadyData(env, t, ConnectMode);
      } else if r.cmd == 2 {
        EarlyBindData(env, t, Socks5Error(7));
      } else if r.cmd == 3 {
        EarlyIgnoresTarget(s, r.host, r.port, true);
        EarlyReadyData(env, t.(serverUdp := true), UdpMode);
      } else {
        EarlyFailData(env, t);
      }
  }

  lemma EarlyIgnoresTarget(s: State, host: bytes, port: u16, udp: bool)
    requires Early(s)
    ensures Early(s.(host := host, port := port, serverUdp := udp))
  {
  }

  lemma DownKeepsData(env: Env, s: State, op: DownOp, c: Completion)
    requires env.Ok() && EarlyData(s) && (if op.ReadFirst? then s.kind.Unknown? else s.kind.Socks5?)
    requires DownBytes(env, s.(down := Some(op)))
    requires c.Got? <==> IsDownRead(op) && !c.Failed?
    requires c.Got? && op.ReadFirst? ==> |c.tail| >= 4
    ensures Data(env, DownStep(env, s, op, c))
  {
    hide Data, OnFirst, OnLogin, OnCommand, EarlyData;
    if c.Failed? || (c.Wrote? && c.n != |DownData(op)|) {
      EarlyFailData(env, s);
    } else {
      match op
      case ReadFirst =>
        var t := s.(buf := c.data, hist := s.hist.(first := c.data));
        EarlyIgnoresInput(s, t);
        FirstKeepsData(env, t, c.data, c.tail);
      case WriteAuthMethod => EarlyStartData(env, s, ReadLogin);
      case ReadLogin =>
        var t := s.(hist := s.hist.(login := c.data));
        EarlyIgnoresInput(s, t);
        LoginKeepsData(env, t, c.data);
      case WriteLoginOk => EarlyStartData(env, s, ReadCommand);
      case WriteNoAuth => EarlyStartData(env, s, ReadCommand);
      case ReadCommand =>
        var t := s.(hist := s.hist.(command := c.data));
        EarlyIgnoresInput(s, t);
        CommandKeepsData(env, t, c.data);
    }
  }

  lemma EarlyIgnoresInput(s: State, t: State)
    requires EarlyData(s)
    requires t == s.(buf := t.buf, hist := s.hist.(first := t.hist.first, login := t.hist.login,
                                                   command := t.hist.command))
    ensures EarlyData(t)
  {
  }

  // ---- Every step keeps it: the up side ----

  // The state of an up-side handler.
  predicate WaitingData(env: Env, s: State) {
    Waiting(s) && ReadyBytes(env, s) && UpPhase(env, s) && FinalBytes(env, s)
  }

  lemma WaitingFailData(env: Env, s: State)
    requires WaitingData(env, s)
    ensures Data(env, Fail(s))
  {
  }

  lemma WaitingStartData(env: Env, s: State, op: UpOp)
    requires WaitingData(env, s) && UpBytes(env, StartUp(env, s, op))
    ensures Data(env, StartUp(env, s, op))
  {
  }

  lemma ConnectKeepsData(env: Env, s: State)
    requires WaitingData(env, s) && !s.clientUdp && UpstreamSaw(env, s, [])
    ensures Data(env, ConnectWrite(env, s))
  {
    hide Data, EmitRequest, Waiting, ReadyBytes, FinalBytes, UpPhase, Starts;
    match EmitRequest(env.v6, s.mode, s.host, s.port)
    case None => WaitingFailData(env, s);
    case Some(data) =>
      var t := s.(clientUdp := s.mode == UdpMode);
      WaitingIgnoresUdp(env, s, s.mode == UdpMode);
      assert Hello(env) + [] == Hello(env) && HelloAuth(env) + [] == HelloAuth(env);
      assert Sent(env, StartUp(env, t, WriteRequest(data)));
      WaitingStartData(env, t, WriteRequest(data));
  }

  lemma WaitingIgnoresUdp(env: Env, s: State, udp: bool)
    requires WaitingData(env, s)
    ensures WaitingData(env, s.(clientUdp := udp))
  {
  }

  // A host taken from a SOCKS5 request is short enough for the guard of the reply printer.
  lemma HostIsShort(env: Env, s: State)
    requires env.Ok() && s.kind.Socks5? && Target(env, s)
    ensures |s.host| <= 255
  {
    ReadRequestByLayout(env.v6, s.hist.command);
    ResolveHostText(env.v6, DestOf(s.hist.command));
  }

  // The state after an answer for which the reply `r` is started.
  predicate Answering(s: State, r: Reply, err: bool, t: State) {
    && JoinOk(t.join) && t.join.readyUp && t.join.readyDown && t.join.upError == err
    && t == s.(join := t.join, replies := s.replies + [r],
               hist := s.hist.(toDown := s.hist.toDown + r.data, started := s.hist.started + [r]))
  }

  lemma AnsweringIs(s: State, r: Reply, err: bool)
    requires Waiting(s)
    ensures Answering(s, r, err, UpEnd(SendReply(s.(join := s.join.(readyUp := true, upError := err)), r)))
  {
    hide WhenUpEnd;
    var k := JoinAfterAnswer(s.join, err);
  }

  lemma AnsweringFinal(env: Env, s: State, r: Reply, err: bool, t: State)
    requires WaitingData(env, s) && r.error == err && (!err ==> Success(s) == Some(r.data))
    requires err ==> r.data == RefusalFor(s.kind)
    requires Answering(s, r, err, t)
    ensures FinalBytes(env, t)
  {
    hide PrintReply, ReadyBytes, JoinOk, Preamble;
    assert s.hist.started == [] ==> t.hist.started == [r];
  }

  lemma AnswerReplyData(env: Env, s: State, r: Reply, err: bool)
    requires WaitingData(env, s) && Sent(env, s) && r.error == err && |s.hist.answer| >= 8
    requires err ==> r.data == RefusalFor(s.kind)
    requires if err then ReadReply(s.hist.answer).Refused?
             else ReadReply(s.hist.answer) == Bound(s.bindHost, s.bindPort) && Success(s) == Some(r.data)
    ensures Data(env, UpEnd(SendReply(s.(join := s.join.(readyUp := true, upError := err)), r)))
  {
    AnsweringIs(s, r, err);
    hide EmitRequest, ReadReply, PrintReply, ReadRequest, FinalBytes, UpEnd, SendReply;
    var t := UpEnd(SendReply(s.(join := s.join.(readyUp := true, upError := err)), r));
    AnsweringFinal(env, s, r, err, t);
  }

  // A client that asked for UDP finds the up side in UDP mode.
  lemma UdpServed(env: Env, s: State)
    requires WaitingData(env, s) && Sent(env, s)
    ensures s.serverUdp ==> s.upsideSocks5 && s.clientUdp
  {
    hide EmitRequest, ReadRequest;
  }

  lemma AnswerKeepsData(env: Env, s: State, data: bytes)
    requires env.Ok() && WaitingData(env, s) && Sent(env, s)
    requires s.hist.answer == data && |data| >= 8
    ensures Data(env, OnAnswer(s, data))
  {
    hide Data, UpEnd, SendReply, Fail, EmitRequest, PrintReply, ReadReply, ReadyBytes, FinalBytes, Sent,
         Target;
    match ReadReply(data)
    case Short => WaitingFailData(env, s);
    case BadLength => WaitingFailData(env, s);
    case Refused =>
      if s.kind.Socks5? {
        AnswerReplyData(env, s, Socks5Error(1), true);
      } else {
        AnswerReplyData(env, s, Socks4Reply(91), true);
      }
    case Bound(h, p) =>
      var t := s.(bindHost := h, bindPort := p);
      WaitingIgnoresBound(env, s, h, p);
      UdpServed(env, s);
      if t.kind.Socks4? {
        AnswerReplyData(env, t, Socks4Reply(90), false);
      } else {
        HostIsShort(env, t);
        PrintedWhenShort(h, p, t.host);
        var octets := PrintReply(h, p, t.host).value;
        AnswerReplyData(env, t, Reply(octets, false), false);
      }
  }

  lemma WaitingIgnoresBound(env: Env, s: State, h: bytes, p: bytes)
    requires WaitingData(env, s) && Sent(env, s)
    ensures var t := s.(bindHost := h, bindPort := p);
            WaitingData(env, t) && Sent(env, t) && Target(env, t)
  {
    hide EmitRequest, ReadRequest, PrintReply;
  }

  lemma PrintedWhenShort(bindHost: bytes, bindPort: bytes, host: bytes)
    requires |host| <= 255
    ensures PrintReply(bindHost, bindPort, host).Some?
  {
  }

  lemma StartsOctets(data: bytes, x: byte, y: byte)
    ensures Starts(data, [x, y]) <==> |data| >= 2 && data[0] == x && data[1] == y
  {
    if |data| >= 2 {
      assert data[..2] == [data[0], data[1]];
    }
  }

  lemma HelloKeepsData(env: Env, s: State, data: bytes)
    requires WaitingData(env, s) && s.hist.toUp == Hello(env) && !s.clientUdp && s.hist.hello == data
    ensures Data(env, OnHello(env, s, data))
  {
    StartsOctets(data, 5, 0);
    StartsOctets(data, 5, 2);
    hide Data, ConnectWrite, WaitingData, Starts, UpPhase;
    WaitingIs(env, s);
    WaitingFailData(env, s);
    if Starts(data, [5, 0]) {
      assert s.hist.toUp == Hello(env) + [];
      ConnectKeepsData(env, s);
    } else if Starts(data, [5, 2]) && env.upUser != [] {
      assert AuthSent(env, StartUp(env, s, WriteAuth));
      PhaseOfAuth(env, StartUp(env, s, WriteAuth));
      WaitingStartData(env, s, WriteAuth);
    }
  }

  lemma PhaseOfAuth(env: Env, s: State)
    requires AuthSent(env, s)
    ensures UpPhase(env, s)
  {
  }

  lemma StatusKeepsData(env: Env, s: State, data: bytes)
    requires WaitingData(env, s) && AuthSent(env, s) && !s.clientUdp && s.hist.status == data
    ensures Data(env, OnAuthStatus(env, s, data))
  {
    StartsOctets(data, 1, 0);
    hide Data, ConnectWrite, WaitingData, Starts;
    WaitingFailData(env, s);
    if Starts(data, [1, 0]) {
      assert s.hist.toUp == HelloAuth(env) + [];
      ConnectKeepsData(env, s);
    }
  }

  lemma UpKeepsData(env: Env, s: State, op: UpOp, c: Completion)
    requires env.Ok() && WaitingData(env, s) && UpBytes(env, s.(up := Some(op)))
    requires c.Got? <==> IsUpRead(op) && !c.Failed?
    requires c.Got? && op.ReadAnswer? ==> |c.data| >= 8
    ensures Data(env, UpStep(env, s, op, c))
  {
    hide Data, OnHello, OnAuthStatus, OnAnswer, ConnectWrite, EmitRequest, WaitingData, Starts, UpPhase;
    if c.Failed? || (c.Wrote? && c.n != |UpData(env, op)|) {
      WaitingFailData(env, s);
    } else {
      WaitingIs(env, s);
      if op.WriteHello? || op.WriteAuth? || op.WriteRequest? {
        PhaseOfRead(env, s, ReadOf(op));
      }
      match op
      case WriteHello => WaitingStartData(env, s, ReadHello);
      case ReadHello =>
        WaitingIgnoresHello(env, s, c.data);
        HelloKeepsData(env, s.(hist := s.hist.(hello := c.data)), c.data);
      case WriteAuth => WaitingStartData(env, s, ReadAuthStatus);
      case ReadAuthStatus =>
        WaitingIgnoresStatus(env, s, c.data);
        StatusKeepsData(env, s.(hist := s.hist.(status := c.data)), c.data);
      case WriteRequest(_) => WaitingStartData(env, s, ReadAnswer);
      case ReadAnswer =>
        var t := s.(hist := s.hist.(answer := c.data));
        WaitingIgnoresAnswer(env, s, c.data);
        AnswerKeepsData(env, t, c.data);
    }
  }

  // The read that follows a write.
  function ReadOf(op: UpOp): UpOp {
    if op.WriteHello? then ReadHello else if op.WriteAuth? then ReadAuthStatus else ReadAnswer
  }

  lemma PhaseOfRead(env: Env, s: State, op: UpOp)
    requires WaitingData(env, s) && IsUpRead(op)
    ensures UpPhase(env, StartUp(env, s, op)) && StartUp(env, s, op).hist.toUp == s.hist.toUp
  {
    assert s.hist.toUp + [] == s.hist.toUp;
  }

  lemma WaitingIgnoresHello(env: Env, s: State, hello: bytes)
    requires WaitingData(env, s) && s.hist.toUp == Hello(env)
    ensures WaitingData(env, s.(hist := s.hist.(hello := hello)))
  {
    hide EmitRequest, ReadRequest, PrintReply;
  }

  lemma WaitingIgnoresStatus(env: Env, s: State, status: bytes)
    requires WaitingData(env, s) && AuthSent(env, s)
    ensures var t := s.(hist := s.hist.(status := status));
            WaitingData(env, t) && AuthSent(env, t)
  {
    hide EmitRequest, ReadRequest, PrintReply;
  }

  lemma WaitingIs(env: Env, s: State)
    requires WaitingData(env, s)
    ensures !s.join.readyUp
  {
  }

  lemma WaitingIgnoresAnswer(env: Env, s: State, answer: bytes)
    requires WaitingData(env, s)
    ensures WaitingData(env, s.(hist := s.hist.(answer := answer)))
  {
  }

  // ---- Every step keeps it: the final reply ----

  lemma ReplyKeepsData(env: Env, s: State, i: nat, c: Completion)
    requires Ctl(s) && Data(env, s) && i < |s.replies| && !c.Got?
    ensures Data(env, ReplyStep(s.(replies := s.replies[..i] + s.replies[i + 1..]), s.replies[i], c))
  {
    var r := s.replies[i];
    var t := ReplyStep(s.(replies := s.replies[..i] + s.replies[i + 1..]), r, c);
    assert s.down.None?;
    if !(c.Failed? || c.n != |r.data|) {
      var k := JoinAfterReply(s.join, r.error);
    }
    SameData(env, s, t);
  }

  // The invariant does not look at deliveries, at callbacks or at the completion of the down side.
  lemma SameData(env: Env, s: State, t: State)
    requires Data(env, s) && s.down.None?
    requires t.join.readyUp == s.join.readyUp && t.join.readyDown == s.join.readyDown
    requires t.join.upError == s.join.upError
    requires t == s.(replies := t.replies, join := t.join,
                     hist := s.hist.(delivered := t.hist.delivered))
    ensures Data(env, t)
  {
    hide EmitRequest, ReadReply, PrintReply, ReadRequest;
  }

  // ---- Runs ----

  lemma EarlyOfData(env: Env, s: State)
    requires Ctl(s) && Data(env, s) && s.down.Some?
    ensures EarlyData(s.(down := None))
  {
    EarlyOf(s);
  }

  lemma WaitingOfData(env: Env, s: State)
    requires Ctl(s) && Data(env, s) && s.up.Some?
    ensures WaitingData(env, s.(up := None))
  {
    WaitingOf(s);
  }

  // What the operations in flight say by themselves.
  lemma OpsInFlight(env: Env, s: State)
    requires Ctl(s) && Data(env, s)
    ensures DownBytes(env, s) && UpBytes(env, s)
    ensures s.down.Some? ==> if s.down.value.ReadFirst? then s.kind.Unknown? else s.kind.Socks5?
  {
  }

  lemma DownEventKeepsData(env: Env, s: State, c: Completion)
    requires env.Ok() && Ctl(s) && Data(env, s) && Enabled(s, DownEvent(c))
    ensures Data(env, DownStep(env, s.(down := None), s.down.value, c))
  {
    OpsInFlight(env, s);
    EarlyOfData(env, s);
    hide DownStep, Data, Ctl, EarlyData, DownBytes, UpBytes, Env.Ok;
    var t, op := s.(down := None), s.down.value;
    assert t.(down := Some(op)) == s;
    DownKeepsData(env, t, op, c);
  }

  lemma UpEventKeepsData(env: Env, s: State, c: Completion)
    requires env.Ok() && Ctl(s) && Data(env, s) && Enabled(s, UpEvent(c))
    ensures Data(env, UpStep(env, s.(up := None), s.up.value, c))
  {
    OpsInFlight(env, s);
    WaitingOfData(env, s);
    hide UpStep, Data, Ctl, WaitingData, DownBytes, UpBytes, Env.Ok;
    var t, op := s.(up := None), s.up.value;
    assert t.(up := Some(op)) == s;
    UpKeepsData(env, t, op, c);
  }

  lemma StepKeepsData(env: Env, s: State, e: Event)
    requires env.Ok() && Ctl(s) && Data(env, s) && Enabled(s, e)
    ensures Data(env, Step(env, s, e))
  {
    hide DownStep, UpStep, ReplyStep, Data, Ctl, Env.Ok;
    match e
    case DownEvent(c) => DownEventKeepsData(env, s, c);
    case UpEvent(c) => UpEventKeepsData(env, s, c);
    case ReplyEvent(i, c) => ReplyKeepsData(env, s, i, c);
  }

  lemma {:induction false} RunKeepsData(env: Env, run: Run)
    requires env.Ok() && run.Of(env)
    ensures Data(env, run.Last()) && Ctl(run.Last())
    decreases |run.events|
  {
    hide Step, Enabled, Ctl;
    RunKeepsCtl(env, run);
    if run.events != [] {
      var k := |run.events| - 1;
      UptoIsRun(env, run, k);
      RunKeepsData(env, run.Upto(k));
      assert run.StepsAt(env, k);
      StepKeepsData(env, run.states[k], run.events[k]);
    } else {
      assert run.Last() == INIT;
    }
  }
}
