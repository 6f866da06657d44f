// Runs that do happen: when sessions complete, exactly, and what BIND sessions come to. They show that
// the theorems about completed sessions and about authentication are not about nothing.
module HandshakeRuns {
  import opened Bytes
  import opened Socks5Wire
  import Socks4Wire
  import opened AuthClients
  import opened HandshakeSpec
  import opened HandshakeControl
  import opened HandshakeData
  import opened HandshakeTheorems

  // ---- Environments ----

  function UserIndex(users: seq<AuthUser>): (m: map<bytes, AuthUser>)
    ensures forall user :: user in m ==> m[user] in users && m[user].user == user
    ensures forall a :: a in users ==> a.user in m
  {
    if users == [] then map[] else UserIndex(users[1..])[users[0].user := users[0]]
  }

  // Every store has an environment of the kind the theorems are about.
  lemma EnvironmentOf(users: seq<AuthUser>, disableSocks4: bool, upUser: bytes, upPwd: bytes)
    returns (env: Env)
    ensures env.Ok() && env.users == users && env.disableSocks4 == disableSocks4
    ensures env.upUser == upUser && env.upPwd == upPwd
  {
    hide UserIndex, MarkedText, MarkedAddress, Ipv6Text.Faithful;
    FaithfulIsPossible();
    env := Env(users, UserIndex(users), disableSocks4, upUser, upPwd, Ipv6Text(MarkedText, MarkedAddress));
  }

  // ---- From the first octet to the start of the up side ----

  // The client can authenticate, if it must.
  predicate CanLogin(env: Env, user: bytes, pwd: bytes) {
    env.NeedAuth() ==>
      1 <= |user| <= 255 && 1 <= |pwd| <= 255 && FindPair(env.users, user, pwd).Some?
  }

  predicate Untouched(s: State) {
    s.join == INIT_JOIN && s.replies == [] && s.hist.delivered == []
  }

  lemma LoginRun(env: Env, user: bytes, pwd: bytes) returns (run: Run)
    requires CanLogin(env, user, pwd)
    ensures run.Of(env) && run.Last().down == Some(ReadCommand) && run.Last().kind.Socks5?
    ensures Untouched(run.Last()) && !run.Last().serverUdp && run.Last().upsideSocks5
  {
    hide ReadAuth, AuthFrame, FindPair;
    run := Run([], [INIT]);
    run := GreetingRun(env, run);
    if env.NeedAuth() {
      AuthCodec(AuthFrame(user, pwd), user, pwd);
      AuthFrameFits(user, pwd);
      run := Extend(env, run, DownEvent(Wrote(2)));
      run := Extend(env, run, DownEvent(Got(AuthFrame(user, pwd), [])));
      run := Extend(env, run, DownEvent(Wrote(2)));
    } else {
      run := Extend(env, run, DownEvent(Wrote(2)));
    }
  }

  lemma AuthFrameFits(user: bytes, pwd: bytes)
    requires |user| <= 255 && |pwd| <= 255
    ensures |AuthFrame(user, pwd)| <= MAX_LENGTH
  {
  }

  lemma Extend(env: Env, run: Run, e: Event) returns (t: Run)
    requires run.Of(env) && Enabled(run.Last(), e)
    ensures t == run.Extended(env, e) && t.Of(env) && t.Last() == Step(env, run.Last(), e)
  {
    ExtendedIsRun(env, run, e);
    t := run.Extended(env, e);
  }

  lemma GreetingRun(env: Env, run0: Run) returns (run: Run)
    requires run0.Of(env) && run0.Last() == INIT
    ensures run.Of(env) && Untouched(run.Last()) && run.Last().kind.Socks5?
    ensures run.Last().down == Some(if env.NeedAuth() then WriteAuthMethod else WriteNoAuth)
    ensures !run.Last().serverUdp && run.Last().upsideSocks5
  {
    run := Extend(env, run0, DownEvent(Got([5, 1, 2], [0, 0, 0, 0])));
  }

  // The up side was just started for this target, with these final replies in flight.
  predicate Started(s: State, kind: Kind, mode: RelayMode, host: bytes, port: u16, replies: seq<Reply>) {
    && s.up == Some(WriteHello) && s.kind == kind && s.mode == mode && s.host == host && s.port == port
    && s.upsideSocks5 && s.serverUdp == mode.UdpMode? && !s.clientUdp
    && s.join == INIT_JOIN.(readyDown := true) && s.replies == replies && s.hist.delivered == []
  }

  lemma Socks5Start(env: Env, user: bytes, pwd: bytes, cmd: byte, d: Dest, port: bytes) returns (run: Run)
    requires CanLogin(env, user, pwd) && 1 <= cmd <= 3 && DestOk(d) && |port| == 2
    ensures run.Of(env) && run.Last().hist.command == Frame(cmd, d, port)
    ensures Started(run.Last(), Socks5, ModeOf(cmd), HostText(env.v6, d), PortOf(port[0], port[1]),
                    if cmd == 2 then [Socks5Error(7)] else [])
  {
    hide ReadRequest, Frame;
    ReadRequestOfFrame(env.v6, cmd, d, port);
    run := LoginRun(env, user, pwd);
    run := Extend(env, run, DownEvent(Got(Frame(cmd, d, port), [])));
  }

  // A SOCKS4 packet that is let in.
  predicate CanEnter(env: Env, data: bytes, p: Socks4Wire.Packet) {
    && data != [] && data[0] == 4 && Socks4Wire.ParsePacket(data, 0) == Some(p) && 1 <= p.cmd <= 2
    && !env.disableSocks4
    && (env.NeedAuth() ==> p.user != [] && exists a :: a in env.users && a.user == p.user)
  }

  lemma Socks4Start(env: Env, data: bytes, p: Socks4Wire.Packet) returns (run: Run)
    requires env.Ok() && CanEnter(env, data, p)
    ensures run.Of(env) && run.Last().hist.first == data
    ensures Started(run.Last(), Socks4, ModeOf(p.cmd), p.host, p.port,
                    if p.cmd == 2 then [Socks4Reply(91)] else [])
  {
    hide Socks4Wire.ParsePacket, Socks4Reply, IsConnectWord, IsOtherMethod, OnGreeting;
    assert IsFoundUser(env.users, p.user, env.LookupUser(p.user));
    run := Extend(env, Run([], [INIT]), DownEvent(Got(data, [0, 0, 0, 0])));
  }

  // ---- From there to the answer ----

  // What the up-side steps leave as it is.
  predicate SameSession(s: State, t: State) {
    && t.mode == s.mode && t.kind == s.kind && t.join == s.join
    && t.serverUdp == s.serverUdp && t.upsideSocks5 == s.upsideSocks5
    && t.host == s.host && t.port == s.port && t.replies == s.replies
    && t.hist.delivered == s.hist.delivered
    && t.hist.first == s.hist.first && t.hist.command == s.hist.command
  }

  lemma RequestRun(env: Env, run0: Run) returns (run: Run)
    requires run0.Of(env) && run0.Last().up == Some(WriteHello)
    requires var s := run0.Last(); EmitRequest(env.v6, s.mode, s.host, s.port).Some?
    ensures run.Of(env) && run.Last().up == Some(ReadAnswer) && SameSession(run0.Last(), run.Last())
    ensures run.Last().mode.UdpMode? ==> run.Last().clientUdp
  {
    hide EmitRequest;
    var s := run0.Last();
    var data := EmitRequest(env.v6, s.mode, s.host, s.port).value;
    run := Extend(env, run0, UpEvent(Wrote(3)));
    run := Extend(env, run, UpEvent(Got([5, 0], [])));
    assert run.Last().up == Some(WriteRequest(data));
    run := Extend(env, run, UpEvent(Wrote(|data|)));
  }

  // An answer that accepts.
  predicate Accepts(answer: bytes) {
    ReadReply(answer).Bound? && 8 <= |answer| <= MAX_LENGTH
  }

  // The up side is done, and a success reply is the last one in flight.
  predicate Answered(s: State, t: State) {
    && t.join == INIT_JOIN.(readyDown := true, readyUp := true, completeUp := true)
    && |t.replies| == |s.replies| + 1 && t.replies[..|s.replies|] == s.replies
    && !t.replies[|s.replies|].error
    && t.hist.delivered == s.hist.delivered && t.mode == s.mode && t.kind == s.kind
    && t.hist.first == s.hist.first && t.hist.command == s.hist.command
  }

  lemma AcceptedRun(env: Env, run0: Run, answer: bytes) returns (run: Run)
    requires run0.Of(env) && Accepts(answer)
    requires var s := run0.Last();
             && s.up == Some(ReadAnswer) && s.join == INIT_JOIN.(readyDown := true)
             && (s.serverUdp ==> s.upsideSocks5 && s.clientUdp)
             && ((s.kind.Socks5? && |s.host| <= 255) || s.kind.Socks4?)
    ensures run.Of(env) && Answered(run0.Last(), run.Last())
  {
    hide ReadReply, PrintReply;
    var s := run0.Last();
    if s.kind.Socks5? {
      PrintedWhenShort(ReadReply(answer).bindHost, ReadReply(answer).bindPort, s.host);
    }
    run := Extend(env, run0, UpEvent(Got(answer, [])));
  }

  lemma AnsweredRun(env: Env, run0: Run, kind: Kind, mode: RelayMode, host: bytes, port: u16,
                    replies: seq<Reply>, answer: bytes) returns (run: Run)
    requires run0.Of(env) && Started(run0.Last(), kind, mode, host, port, replies)
    requires EmitRequest(env.v6, mode, host, port).Some? && Accepts(answer)
    requires (kind.Socks5? && |host| <= 255) || kind.Socks4?
    ensures run.Of(env) && Answered(run0.Last(), run.Last())
  {
    hide EmitRequest, Accepts;
    run := RequestRun(env, run0);
    run := AcceptedRun(env, run, answer);
  }

  // ---- Sessions complete ----

  lemma DeliverOnly(env: Env, run0: Run) returns (run: Run)
    requires run0.Of(env)
    requires var s := run0.Last();
             && s.join == INIT_JOIN.(readyDown := true, readyUp := true, completeUp := true)
             && |s.replies| == 1 && !s.replies[0].error
    ensures run.Of(env)
    ensures var s, t := run0.Last(), run.Last();
            && t.join.fired == [Completed] && t.mode == s.mode && t.kind == s.kind
            && t.hist.first == s.hist.first && t.hist.command == s.hist.command
  {
    run := Extend(env, run0, ReplyEvent(0, Wrote(|run0.Last().replies[0].data|)));
  }

  // For every CONNECT or UDP request whose destination can be relayed, a client that can log in and an
  // upstream that accepts, there is a run that calls the success callback.
  lemma Socks5Completes(env: Env, user: bytes, pwd: bytes, cmd: byte, d: Dest, port: bytes, answer: bytes)
    returns (run: Run)
    requires env.Ok() && CanLogin(env, user, pwd) && DestOk(d) && |port| == 2
    requires (cmd == 1 || cmd == 3) && Relayable(Canonical(env.v6, d)) && Accepts(answer)
    ensures run.Of(env)
    ensures var s := run.Last();
            && s.join.fired == [Completed] && s.kind.Socks5? && s.mode == ModeOf(cmd)
            && s.hist.command == Frame(cmd, d, port)
  {
    hide Step, Enabled, EmitRequest, Canonical, Accepts, Frame;
    var host, p := HostText(env.v6, d), PortOf(port[0], port[1]);
    ResolveHostText(env.v6, d);
    EmittedIsFrame(env.v6, cmd, host, port);
    run := Socks5Start(env, user, pwd, cmd, d, port);
    run := AnsweredRun(env, run, Socks5, ModeOf(cmd), host, p, [], answer);
    run := DeliverOnly(env, run);
  }

  lemma Socks4Completes(env: Env, data: bytes, p: Socks4Wire.Packet, answer: bytes) returns (run: Run)
    requires env.Ok() && CanEnter(env, data, p) && p.cmd == 1
    requires Relayable(Resolve(env.v6, p.host)) && Accepts(answer)
    ensures run.Of(env)
    ensures var s := run.Last();
            && s.join.fired == [Completed] && s.kind.Socks4? && s.mode.ConnectMode?
            && s.hist.first == data
  {
    hide Step, Enabled, EmitRequest, Accepts, CanEnter;
    Emits(env, 1, p.host, p.port);
    run := Socks4Start(env, data, p);
    run := AnsweredRun(env, run, Socks4, ConnectMode, p.host, p.port, [], answer);
    run := DeliverOnly(env, run);
  }

  lemma Emits(env: Env, cmd: byte, host: bytes, port: u16)
    requires env.Ok() && 1 <= cmd <= 3 && Relayable(Resolve(env.v6, host))
    ensures EmitRequest(env.v6, ModeOf(cmd), host, port).Some?
  {
    EmittedIsFrame(env.v6, cmd, host, PortBytes(port));
  }

  // ---- Exactly when ----

  ghost predicate Socks5Session(env: Env, run: Run, request: bytes) {
    && run.Of(env) && Completed in run.Last().join.fired
    && run.Last().kind.Socks5? && run.Last().hist.command == request
  }

  ghost predicate Socks4Session(env: Env, run: Run, data: bytes) {
    && run.Of(env) && Completed in run.Last().join.fired && !run.Last().mode.BindMode?
    && run.Last().kind.Socks4? && run.Last().hist.first == data
  }

  function SomeAnswer(): bytes {
    [5, 0, 0, 1, 0, 0, 0, 0, 0, 0]
  }

  lemma SomeAnswerAccepts()
    ensures Accepts(SomeAnswer())
  {
    ReadReplyOfFrame(V4([0, 0, 0, 0]), [0, 0]);
    assert Frame(0, V4([0, 0, 0, 0]), [0, 0]) == SomeAnswer();
  }

  // A CONNECT or UDP request can complete if and only if its destination can be relayed and, when clients
  // must authenticate, some stored login fits into an RFC 1929 frame.
  lemma Socks5CompletesIff(env: Env, cmd: byte, d: Dest, port: bytes)
    requires env.Ok() && (cmd == 1 || cmd == 3) && DestOk(d) && |port| == 2
    ensures (exists run :: Socks5Session(env, run, Frame(cmd, d, port)))
       <==> Relayable(Canonical(env.v6, d)) && exists user, pwd :: CanLogin(env, user, pwd)
  {
    hide Canonical, Frame, CanLogin, Relayable;
    if run :| Socks5Session(env, run, Frame(cmd, d, port)) {
      CompletedIsRelayable(env, run, cmd, d, port);
      var user, pwd := CompletedCanLogin(env, run);
    }
    if Relayable(Canonical(env.v6, d)) {
      if user, pwd :| CanLogin(env, user, pwd) {
        SomeAnswerAccepts();
        var run := Socks5Completes(env, user, pwd, cmd, d, port, SomeAnswer());
        assert Completed in run.Last().join.fired by { assert run.Last().join.fired[0] == Completed; }
        assert Socks5Session(env, run, Frame(cmd, d, port));
      }
    }
  }

  lemma CompletedIsRelayable(env: Env, run: Run, cmd: byte, d: Dest, port: bytes)
    requires env.Ok() && (cmd == 1 || cmd == 3) && DestOk(d) && |port| == 2
    requires Socks5Session(env, run, Frame(cmd, d, port))
    ensures Relayable(Canonical(env.v6, d))
  {
    hide Frame, Canonical, Data, Ctl, EmitRequest, UpstreamSaw, Relayable;
    RunKeepsData(env, run);
    FrameHasLayout(cmd, d, port);
    CommandMode(env, run.Last());
    CompletedSocks5(env, run);
  }

  // The mode a request sets.
  lemma CommandMode(env: Env, s: State)
    requires Data(env, s) && Ctl(s) && Completed in s.join.fired && s.kind.Socks5?
    ensures HasLayout(s.hist.command) && s.mode == ModeOf(s.hist.command[1])
  {
    ReadRequestByLayout(env.v6, s.hist.command);
  }

  lemma CompletedCanLogin(env: Env, run: Run) returns (user: bytes, pwd: bytes)
    requires env.Ok() && run.Of(env) && Completed in run.Last().join.fired && run.Last().kind.Socks5?
    ensures CanLogin(env, user, pwd)
  {
    user, pwd := [], [];
    if env.NeedAuth() {
      var s := run.Last();
      RunKeepsData(env, run);
      assert Authentic(env, s);
      user, pwd := s.authUser.value.user, s.authUser.value.pwd;
    }
  }

  // A SOCKS4 packet can complete if and only if it is a CONNECT packet that is let in and its destination
  // can be relayed.
  lemma Socks4CompletesIff(env: Env, data: bytes)
    requires env.Ok()
    ensures (exists run :: Socks4Session(env, run, data))
       <==> exists p :: CanEnter(env, data, p) && p.cmd == 1 && Relayable(Resolve(env.v6, p.host))
  {
    hide CanEnter, Relayable, Resolve;
    if run :| Socks4Session(env, run, data) {
      var p := CompletedCanEnter(env, run);
    }
    if p :| CanEnter(env, data, p) && p.cmd == 1 && Relayable(Resolve(env.v6, p.host)) {
      SomeAnswerAccepts();
      var run := Socks4Completes(env, data, p, SomeAnswer());
      assert Completed in run.Last().join.fired by { assert run.Last().join.fired[0] == Completed; }
      assert Socks4Session(env, run, data);
    }
  }

  lemma CompletedCanEnter(env: Env, run: Run) returns (p: Socks4Wire.Packet)
    requires env.Ok() && run.Of(env) && Socks4Session(env, run, run.Last().hist.first)
    ensures CanEnter(env, run.Last().hist.first, p) && p.cmd == 1 && Relayable(Resolve(env.v6, p.host))
  {
    hide Socks4Wire.ParsePacket, EmitRequest, ReadReply;
    var s := run.Last();
    RunKeepsData(env, run);
    assert Target(env, s) && Sent(env, s);
    p := Socks4Wire.ParsePacket(s.hist.first, 0).value;
    EmittedIsFrame(env.v6, 1, p.host, PortBytes(p.port));
    if env.NeedAuth() {
      assert Authentic(env, s);
    }
  }

  // ---- BIND ----

  // A BIND session that gets as far as an accepting upstream sends two final replies, the second of them
  // a success, and then enters a "never go there" guard. The success reply is written last here.
  lemma Socks5BindSendsTwoReplies(env: Env, user: bytes, pwd: bytes, d: Dest, port: bytes, answer: bytes)
    returns (run: Run)
    requires env.Ok() && CanLogin(env, user, pwd) && DestOk(d) && |port| == 2
    requires Relayable(Canonical(env.v6, d)) && Accepts(answer)
    ensures run.Of(env) && TwoReplies(run.Last()) && run.Last().kind.Socks5?
  {
    hide Step, Enabled, EmitRequest, Canonical, Accepts, Frame;
    var host, p := HostText(env.v6, d), PortOf(port[0], port[1]);
    ResolveHostText(env.v6, d);
    EmittedIsFrame(env.v6, 2, host, port);
    run := Socks5Start(env, user, pwd, 2, d, port);
    run := AnsweredRun(env, run, Socks5, BindMode, host, p, [Socks5Error(7)], answer);
    run := BindDelivers(env, run, Socks5Error(7));
  }

  lemma Socks4BindSendsTwoReplies(env: Env, data: bytes, p: Socks4Wire.Packet, answer: bytes)
    returns (run: Run)
    requires env.Ok() && CanEnter(env, data, p) && p.cmd == 2
    requires Relayable(Resolve(env.v6, p.host)) && Accepts(answer)
    ensures run.Of(env) && TwoReplies(run.Last()) && run.Last().kind.Socks4?
  {
    hide Step, Enabled, EmitRequest, Accepts, CanEnter;
    Emits(env, 2, p.host, p.port);
    run := Socks4Start(env, data, p);
    run := AnsweredRun(env, run, Socks4, BindMode, p.host, p.port, [Socks4Reply(91)], answer);
    run := BindDelivers(env, run, Socks4Reply(91));
  }

  predicate TwoReplies(s: State) {
    && |s.hist.delivered| == 2 && s.hist.delivered[0].error && !s.hist.delivered[1].error
    && s.join.misuse == 1 && s.join.fired == [Errored]
  }

  lemma BindDelivers(env: Env, run0: Run, r: Reply) returns (run: Run)
    requires run0.Of(env) && r.error
    requires var s := run0.Last();
             && s.join == INIT_JOIN.(readyDown := true, readyUp := true, completeUp := true)
             && |s.replies| == 2 && s.replies[..1] == [r] && !s.replies[1].error
             && s.hist.delivered == []
    ensures run.Of(env) && TwoReplies(run.Last()) && run.Last().kind == run0.Last().kind
  {
    assert run0.Last().replies[0] == run0.Last().replies[..1][0];
    run := Extend(env, run0, ReplyEvent(0, Wrote(|r.data|)));
    assert run.Last().replies == [run0.Last().replies[1]];
    run := Extend(env, run, ReplyEvent(0, Wrote(|run.Last().replies[0].data|)));
  }
}
