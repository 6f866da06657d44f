// What every completion does to a session, in octets: for each operation that can end, in any reachable
// state, what is sent to either side, what is started next, and which callback is called.
module HandshakeSteps {
  import opened Bytes
  import opened Socks5Wire
  import Socks4Wire
  import opened AuthClients
  import opened HandshakeSpec
  import opened HandshakeControl
  import opened HandshakeData
  import opened HandshakeTheorems

  lemma StepOf(env: Env, run: Run, i: nat)
    requires env.Ok() && run.Of(env) && i < |run.events|
    ensures Ctl(run.states[i]) && Data(env, run.states[i]) && run.StepsAt(env, i)
  {
    UptoIsRun(env, run, i);
    RunKeepsData(env, run.Upto(i));
  }

  // The handler that runs at step `i`, before it does.
  lemma DownStepOf(env: Env, run: Run, i: nat, c: Completion)
    requires env.Ok() && run.Of(env) && i < |run.events| && run.events[i] == DownEvent(c)
    ensures var s := run.states[i];
            && Ctl(s) && Data(env, s) && s.down.Some? && (c.Got? <==> IsDownRead(s.down.value) && !c.Failed?)
            && (c.Got? && s.down.value.ReadFirst? ==> |c.tail| >= 4)
            && run.states[i + 1] == DownStep(env, s.(down := None), s.down.value, c)
  {
    hide DownStep, Ctl, Data;
    StepOf(env, run, i);
  }

  lemma UpStepOf(env: Env, run: Run, i: nat, c: Completion)
    requires env.Ok() && run.Of(env) && i < |run.events| && run.events[i] == UpEvent(c)
    ensures var s := run.states[i];
            && Ctl(s) && Data(env, s) && s.up.Some? && (c.Got? <==> IsUpRead(s.up.value) && !c.Failed?)
            && (c.Got? && s.up.value.ReadAnswer? ==> 8 <= |c.data| <= MAX_LENGTH)
            && run.states[i + 1] == UpStep(env, s.(up := None), s.up.value, c)
  {
    hide UpStep, Ctl, Data;
    StepOf(env, run, i);
  }

  // What the control invariant says while an early down-side operation or an up-side one is in flight.
  lemma DownContext(s: State)
    requires Ctl(s) && s.down.Some?
    ensures s.join == INIT_JOIN && JoinOk(s.join) && s.up.None? && s.replies == []
    ensures s.hist.started == [] && s.hist.delivered == [] && s.hist.clients == 0 && s.mode.NoMode?
  {
    EarlyOf(s);
  }

  lemma UpContext(s: State)
    requires Ctl(s) && s.up.Some?
    ensures JoinOk(s.join) && s.down.None? && Waiting(s.(up := None))
  {
    WaitingOf(s);
  }

  // ---- Outcomes ----

  predicate Quiet(s: State, t: State) {
    t.hist.toDown == s.hist.toDown && t.hist.toUp == s.hist.toUp && t.hist.started == s.hist.started
  }

  // The session ends with an error: nothing is sent or started any more.
  predicate Closes(s: State, t: State) {
    && Quiet(s, t) && t.hist.delivered == s.hist.delivered && t.down.None? && t.up.None?
    && t.join.fired == if s.join.fired == [] then [Errored] else s.join.fired
  }

  // A last reply is started, and nothing else.
  predicate Rejects(s: State, t: State, data: bytes) {
    && t.hist.toDown == s.hist.toDown + data && t.hist.toUp == s.hist.toUp
    && t.hist.started == s.hist.started + [Reply(data, true)]
    && t.replies == s.replies + [Reply(data, true)]
    && t.down.None? && t.up.None? && t.join == s.join && t.authUser == s.authUser
  }

  // The up side is started for this target.
  predicate StartsUp(env: Env, s: State, t: State, mode: RelayMode, host: bytes, port: u16) {
    && t.up == Some(WriteHello) && t.down.None? && t.hist.toUp == s.hist.toUp + Hello(env)
    && t.mode == mode && t.host == host && t.port == port
    && t.serverUdp == mode.UdpMode? && !t.clientUdp
    && t.join == s.join.(readyDown := true) && t.hist.clients == s.hist.clients + 1
  }

  // Besides, this reply is started, or none.
  predicate WithReply(s: State, t: State, replies: seq<Reply>) {
    && t.hist.started == s.hist.started + replies && t.replies == s.replies + replies
    && t.hist.toDown == s.hist.toDown + if replies == [] then [] else replies[0].data
  }

  lemma FailCloses(s: State, u: State)
    requires JoinOk(s.join) && u.join == s.join && u.down.None? && u.up.None?
    requires Quiet(s, u) && u.hist.delivered == s.hist.delivered
    ensures Closes(s, Fail(u))
  {
  }

  // ---- The first octets ----

  const UPPER_CONNECT: bytes := [67, 79, 78, 78, 69, 67, 84]
  const LOWER_CONNECT: bytes := [99, 111, 110, 110, 101, 99, 116]

  // CONNECT in any mixture of cases.
  predicate SpellsConnect(d: bytes) {
    |d| >= 7 && forall i :: 0 <= i < 7 ==> d[i] == UPPER_CONNECT[i] || d[i] == LOWER_CONNECT[i]
  }

  // The first letters of POST, PUT, PATCH, GET, HEAD, DELETE, OPTIONS and TRACE.
  predicate StartsMethod(d: bytes) {
    d != [] && d[0] in [80, 112, 71, 103, 72, 104, 68, 100, 79, 111, 84, 116]
  }

  predicate IsGreeting(data: bytes) {
    |data| >= 3 && data[0] == 5 && |data| == 2 + (data[1] as int) && Taken(data[2..])
  }

  predicate IsPacket4(env: Env, data: bytes, past: byte) {
    |data| >= 9 && data[0] == 4 && (data[1] == 1 || data[1] == 2) && past == 0 && !env.disableSocks4
  }

  // Which protocol a client speaks. A client that speaks none is closed without an answer; one that speaks
  // HTTP leaves this model untouched.
  lemma FirstOctets(env: Env, run: Run, data: bytes, tail: bytes)
    requires env.Ok() && run.Of(env) && run.events != [] && run.events[0] == DownEvent(Got(data, tail))
    ensures var t := run.states[1];
            && |tail| >= 4
            && (t.kind.Socks5? <==> IsGreeting(data))
            && (t.kind.Socks4? <==> IsPacket4(env, data, tail[0]))
            && (t.kind.HttpConnect? <==> |data| >= 3 && SpellsConnect(data + tail))
            && (t.kind.HttpOther? <==> |data| >= 3 && !SpellsConnect(data + tail) && StartsMethod(data))
            && (t.kind.Unknown? ==> Closes(INIT, t))
            && (IsHttp(t) ==> Quiet(INIT, t) && t.join == INIT_JOIN && !Pending(t))
  {
    DownStepOf(env, run, 0, Got(data, tail));
    var s := INIT.(down := None, buf := data, hist := INIT.hist.(first := data));
    hide OnFirst, Closes, SpellsConnect, StartsMethod, IsGreeting, IsPacket4;
    assert run.states[1] == OnFirst(env, s, data, tail);
    FirstKind(env, s, data, tail);
    if run.states[1].kind.Unknown? {
      FailCloses(INIT, s);
    }
  }

  lemma FirstKind(env: Env, s: State, data: bytes, tail: bytes)
    requires |tail| >= 4 && s.kind.Unknown?
    ensures var t := OnFirst(env, s, data, tail);
            && (t.kind.Socks5? <==> IsGreeting(data))
            && (t.kind.Socks4? <==> IsPacket4(env, data, tail[0]))
            && (t.kind.HttpConnect? <==> |data| >= 3 && SpellsConnect(data + tail))
            && (t.kind.HttpOther? <==> |data| >= 3 && !SpellsConnect(data + tail) && StartsMethod(data))
            && (t.kind.Unknown? ==> t == Fail(s))
            && (IsHttp(t) ==> t == s.(kind := t.kind, upsideSocks5 := true))
  {
    var d := data + tail;
    if |data| >= 3 {
      assert d[0] == data[0] && d[1] == data[1] && d[2] == data[2] && data[2..][0] == data[2];
      ConnectWord(d);
      MethodLetter(d[0]);
    }
    GreetingKind(env, s.(kind := Socks5, upsideSocks5 := true), data);
    PacketKind(env, s.(kind := Socks4, upsideSocks5 := true), data, tail[0]);
    hide OnGreeting, OnSocks4Header, SpellsConnect, IsConnectWord, IsOtherMethod, Fail;
  }

  lemma MethodLetter(c: byte)
    ensures IsOtherMethod(c) <==> c in [80, 112, 71, 103, 72, 104, 68, 100, 79, 111, 84, 116]
  {
  }

  lemma ConnectWord(d: bytes)
    requires |d| >= 7
    ensures IsConnectWord(d) <==> SpellsConnect(d)
    ensures SpellsConnect(d) ==> d[0] == 67 || d[0] == 99
  {
    if SpellsConnect(d) {
      assert forall i :: 0 <= i < 7 ==> Lower(d[i]) == LOWER_CONNECT[i];
    }
  }

  lemma GreetingKind(env: Env, s: State, data: bytes)
    ensures OnGreeting(env, s, data).kind == s.kind
  {
  }

  lemma PacketKind(env: Env, s: State, data: bytes, past: byte)
    ensures OnSocks4Header(env, s, data, past).kind == s.kind
  {
    hide Socks4Wire.ParsePacket, OnSocks4Command;
    match Socks4Wire.ParsePacket(data, past)
    case None =>
    case Some(p) =>
      var t := s.(host := p.host, port := p.port);
      CommandKind(env, t, p.cmd);
      if p.user in env.byUser {
        CommandKind(env, SetAuthUser(t, env.byUser[p.user]), p.cmd);
      }
  }

  lemma CommandKind(env: Env, s: State, cmd: byte)
    ensures OnSocks4Command(env, s, cmd).kind == s.kind
  {
    hide NeverGoThere;
  }

  // ---- Down-side writes ----

  // A failed read or write, or one of fewer octets than handed over, ends the session.
  lemma DownFails(env: Env, run: Run, i: nat, c: Completion)
    requires env.Ok() && run.Of(env) && i < |run.events| && run.events[i] == DownEvent(c)
    requires c.Failed? || (c.Wrote? && c.n != 2)
    ensures Closes(run.states[i], run.states[i + 1])
  {
    hide Step, Enabled, DownStep, Data;
    DownStepOf(env, run, i, c);
    var s := run.states[i];
    DownContext(s);
    hide Ctl;
    FailCloses(s, s.(down := None));
    DownShort(env, s.(down := None), s.down.value, c);
  }

  lemma DownShort(env: Env, s: State, op: DownOp, c: Completion)
    requires c.Failed? || (c.Wrote? && c.n != 2 && !IsDownRead(op))
    ensures DownStep(env, s, op, c) == Fail(s)
  {
  }

  // Otherwise the next read is started, and nothing else happens.
  lemma DownWritten(env: Env, run: Run, i: nat)
    requires env.Ok() && run.Of(env) && i < |run.events| && run.events[i] == DownEvent(Wrote(2))
    ensures var s := run.states[i];
            run.states[i + 1] == s.(down := Some(if s.down == Some(WriteAuthMethod) then ReadLogin
                                                 else ReadCommand))
  {
    hide Step, Enabled, DownStep, Data, Ctl;
    DownStepOf(env, run, i, Wrote(2));
    var s := run.states[i];
    DownFull(env, s.(down := None), s.down.value);
  }

  lemma DownFull(env: Env, s: State, op: DownOp)
    requires !IsDownRead(op)
    ensures DownStep(env, s, op, Wrote(2)) == s.(down := Some(if op.WriteAuthMethod? then ReadLogin
                                                              else ReadCommand))
  {
    assert s.hist.toDown + [] == s.hist.toDown;
  }

  // ---- Logins ----

  predicate IsLogin(data: bytes, user: bytes, pwd: bytes) {
    1 <= |user| <= 255 && 1 <= |pwd| <= 255 && data == AuthFrame(user, pwd)
  }

  predicate Stored(env: Env, user: bytes, pwd: bytes) {
    exists a :: a in env.users && a.user == user && a.pwd == pwd
  }

  predicate Welcomes(env: Env, s: State, t: State, user: bytes, pwd: bytes) {
    && t.hist.toDown == s.hist.toDown + [1, 0] && t.hist.toUp == s.hist.toUp
    && t.hist.started == s.hist.started && t.join == s.join
    && t.down == Some(WriteLoginOk) && t.up.None?
    && t.authUser.Some? && t.authUser.value in env.users
    && t.authUser.value.user == user && t.authUser.value.pwd == pwd
  }

  // A login that is stored is welcomed with 01 00, one that is not gets 01 FF, and octets that are no
  // RFC 1929 frame end the session without an answer.
  lemma LoginAnswer(env: Env, run: Run, i: nat, data: bytes, tail: bytes)
    requires env.Ok() && run.Of(env) && i < |run.events|
    requires run.events[i] == DownEvent(Got(data, tail)) && run.states[i].down == Some(ReadLogin)
    ensures var s, t := run.states[i], run.states[i + 1];
            && (forall user, pwd :: IsLogin(data, user, pwd) ==>
                  if Stored(env, user, pwd) then Welcomes(env, s, t, user, pwd)
            else Rejects(s, t, [1, 255]) && t.hist.toDown == [5, 2, 1, 255])
            && ((forall user, pwd :: !IsLogin(data, user, pwd)) ==> Closes(s, t))
  {
    hide Step, Enabled, DownStep, OnLogin, AuthFrame, Closes, Rejects, Welcomes;
    DownStepOf(env, run, i, Got(data, tail));
    var s, t := run.states[i], run.states[i + 1];
    DownContext(s);
    LoginSent(env, s);
    hide Data, Ctl;
    var u := s.(down := None, hist := s.hist.(login := data));
    LoginStep(env, s.(down := None), data, tail);
    FailCloses(s, u);
    forall user, pwd | IsLogin(data, user, pwd)
      ensures if Stored(env, user, pwd) then Welcomes(env, s, t, user, pwd)
              else Rejects(s, t, [1, 255]) && t.hist.toDown == [5, 2, 1, 255]
    {
      LoginDecision(env, s, u, data, user, pwd);
    }
    if forall user, pwd :: !IsLogin(data, user, pwd) {
      NoLogin(env, u, data);
    }
  }

  lemma LoginStep(env: Env, s: State, data: bytes, tail: bytes)
    ensures DownStep(env, s, ReadLogin, Got(data, tail))
         == OnLogin(env, s.(hist := s.hist.(login := data)), data)
  {
    hide OnLogin;
  }

  lemma LoginDecision(env: Env, s: State, u: State, data: bytes, user: bytes, pwd: bytes)
    requires IsLogin(data, user, pwd) && s.hist.toDown == [5, 2] && s.join == INIT_JOIN && s.up.None?
    requires u == s.(down := None, hist := s.hist.(login := data))
    ensures var t := OnLogin(env, u, data);
            if Stored(env, user, pwd) then Welcomes(env, s, t, user, pwd)
            else Rejects(s, t, [1, 255]) && t.hist.toDown == [5, 2, 1, 255]
  {
    AuthCodec(data, user, pwd);
    hide ReadAuth, AuthFrame, FindPair;
    var a := FindPair(env.users, user, pwd);
    assert Stored(env, user, pwd) <==> a.Some?;
  }

  lemma NoLogin(env: Env, u: State, data: bytes)
    requires forall user, pwd :: !IsLogin(data, user, pwd)
    ensures OnLogin(env, u, data) == Fail(u)
  {
    hide ReadAuth, AuthFrame, Fail;
    if ReadAuth(data).Some? {
      ReadIsLogin(data);
    }
  }

  lemma ReadIsLogin(data: bytes)
    requires ReadAuth(data).Some?
    ensures var l := ReadAuth(data).value; IsLogin(data, l.user, l.pwd)
  {
    hide ReadAuth, AuthFrame;
    AuthCodec(data, ReadAuth(data).value.user, ReadAuth(data).value.pwd);
  }

  lemma LoginSent(env: Env, s: State)
    requires Data(env, s) && s.down == Some(ReadLogin)
    ensures s.hist.toDown == [5, 2]
  {
  }

  // ---- SOCKS4 packets ----

  predicate Admitted(env: Env, user: bytes) {
    env.NeedAuth() ==> user != [] && exists a :: a in env.users && a.user == user
  }

  predicate IsUser(env: Env, t: State, user: bytes) {
    t.authUser.Some? && t.authUser.value in env.users && t.authUser.value.user == user
  }

  // An accepted packet whose user is not admitted gets exactly the reply with code 92; one that is let in
  // starts the up side for its host and port, BIND after the reply with code 91; any other first octets
  // taken for SOCKS4 end the session.
  lemma PacketAnswer(env: Env, run: Run, data: bytes, tail: bytes)
    requires env.Ok() && run.Of(env) && run.events != [] && run.events[0] == DownEvent(Got(data, tail))
    requires run.states[1].kind.Socks4?
    ensures var t := run.states[1];
            match Socks4Wire.ParsePacket(data, 0)
            case None => Closes(INIT, t)
            case Some(p) =>
              if !Admitted(env, p.user) then Rejects(INIT, t, [0, 92, 0, 0, 0, 0, 0, 0])
              else
                && (env.NeedAuth() ==> IsUser(env, t, p.user))
                && StartsUp(env, INIT, t, if data[1] == 1 then ConnectMode else BindMode, p.host, p.port)
                && WithReply(INIT, t, if data[1] == 1 then []
                                      else [Reply([0, 91, 0, 0, 0, 0, 0, 0], true)])
  {
    FirstOctets(env, run, data, tail);
    StepOf(env, run, 0);
    hide Socks4Wire.ParsePacket, OnSocks4Header, Closes, Rejects, StartsUp, WithReply, Admitted, IsUser,
         IsConnectWord, IsOtherMethod, OnGreeting, Ctl, Data;
    var u := INIT.(down := None, buf := data, hist := INIT.hist.(first := data),
                   kind := Socks4, upsideSocks5 := true);
    assert run.states[1] == OnSocks4Header(env, u, data, 0);
    HeaderAnswer(env, u, data);
  }

  lemma HeaderAnswer(env: Env, u: State, data: bytes)
    requires env.Ok() && u.join == INIT_JOIN && u.down.None? && u.up.None? && u.replies == []
    requires u.hist == INIT.hist.(first := data) && u.authUser.None? && !u.serverUdp
    requires |data| >= 2 && (data[1] == 1 || data[1] == 2)
    ensures var t := OnSocks4Header(env, u, data, 0);
            match Socks4Wire.ParsePacket(data, 0)
            case None => Closes(INIT, t)
            case Some(p) =>
              if !Admitted(env, p.user) then Rejects(INIT, t, [0, 92, 0, 0, 0, 0, 0, 0])
              else
                && (env.NeedAuth() ==> IsUser(env, t, p.user))
                && StartsUp(env, INIT, t, if data[1] == 1 then ConnectMode else BindMode, p.host, p.port)
                && WithReply(INIT, t, if data[1] == 1 then []
                                      else [Reply([0, 91, 0, 0, 0, 0, 0, 0], true)])
  {
    hide Socks4Wire.ParsePacket, OnSocks4Command;
    FailCloses(INIT, u);
    match Socks4Wire.ParsePacket(data, 0)
    case None =>
    case Some(p) =>
      assert IsFoundUser(env.users, p.user, env.LookupUser(p.user));
      var v := u.(host := p.host, port := p.port);
      if !env.NeedAuth() {
        CommandStarts(env, v, p.cmd);
      } else if Admitted(env, p.user) {
        CommandStarts(env, SetAuthUser(v, env.LookupUser(p.user).value), p.cmd);
      }
  }

  lemma CommandStarts(env: Env, u: State, cmd: byte)
    requires u.join == INIT_JOIN && u.down.None? && u.up.None? && u.replies == [] && !u.serverUdp
    requires u.hist == INIT.hist.(first := u.hist.first) && (cmd == 1 || cmd == 2)
    ensures var t := OnSocks4Command(env, u, cmd);
            && t.authUser == u.authUser
            && StartsUp(env, INIT, t, if cmd == 1 then ConnectMode else BindMode, u.host, u.port)
            && WithReply(INIT, t, if cmd == 1 then [] else [Reply([0, 91, 0, 0, 0, 0, 0, 0], true)])
  {
  }

  // ---- SOCKS5 requests ----

  // A request starts the up side for its destination: CONNECT and UDP at once, BIND after the reply with
  // code 7. Octets that are no request end the session without an answer.
  lemma CommandAnswer(env: Env, run: Run, i: nat, data: bytes, tail: bytes)
    requires env.Ok() && run.Of(env) && i < |run.events|
    requires run.events[i] == DownEvent(Got(data, tail)) && run.states[i].down == Some(ReadCommand)
    ensures var s, t := run.states[i], run.states[i + 1];
            if HasLayout(data) && 1 <= data[1] <= 3 then
              var n := |data|;
              var mode := if data[1] == 1 then ConnectMode else if data[1] == 2 then BindMode else UdpMode;
              && StartsUp(env, s, t, mode, HostText(env.v6, DestOf(data)), PortOf(data[n - 2], data[n - 1]))
              && WithReply(s, t, if data[1] != 2 then []
                                 else [Reply([5, 7, 0, 1, 0, 0, 0, 0, 0, 0], true)])
            else Closes(s, t)
  {
    hide Step, Enabled, DownStep, OnCommand, HasLayout, DestOf, HostText, Closes, StartsUp, WithReply;
    DownStepOf(env, run, i, Got(data, tail));
    var s := run.states[i];
    DownContext(s);
    CommandContext(env, s);
    hide Data, Ctl;
    var u := s.(down := None, hist := s.hist.(command := data));
    CommandStep(env, s.(down := None), data, tail);
    FailCloses(s, u);
    CommandDecision(env, s, u, data);
  }

  lemma CommandStep(env: Env, s: State, data: bytes, tail: bytes)
    ensures DownStep(env, s, ReadCommand, Got(data, tail))
         == OnCommand(env, s.(hist := s.hist.(command := data)), data)
  {
    hide OnCommand;
  }

  lemma CommandDecision(env: Env, s: State, u: State, data: bytes)
    requires u == s.(down := None, hist := s.hist.(command := data))
    requires s.join == INIT_JOIN && s.up.None? && s.upsideSocks5 && !s.serverUdp
    ensures var t := OnCommand(env, u, data);
            if HasLayout(data) && 1 <= data[1] <= 3 then
              var n := |data|;
              var mode := if data[1] == 1 then ConnectMode else if data[1] == 2 then BindMode else UdpMode;
              && StartsUp(env, s, t, mode, HostText(env.v6, DestOf(data)), PortOf(data[n - 2], data[n - 1]))
              && WithReply(s, t, if data[1] != 2 then []
                                 else [Reply([5, 7, 0, 1, 0, 0, 0, 0, 0, 0], true)])
            else t == Fail(u)
  {
    ReadRequestByLayout(env.v6, data);
    hide ReadRequest, HasLayout, DestOf, HostText, Fail, NeverGoThere, PortOf;
  }

  lemma CommandContext(env: Env, s: State)
    requires Ctl(s) && Data(env, s) && s.down == Some(ReadCommand)
    ensures s.upsideSocks5 && !s.serverUdp
  {
  }

  // ---- The way upstream ----

  // What a write of the up side hands over.
  function Handed(env: Env, op: UpOp): nat {
    match op
    case WriteHello => 3
    case WriteAuth => 3 + |env.upUser| + |env.upPwd|
    case WriteRequest(data) => |data|
    case _ => 0
  }

  lemma UpFails(env: Env, run: Run, i: nat, c: Completion)
    requires env.Ok() && run.Of(env) && i < |run.events| && run.events[i] == UpEvent(c)
    requires c.Failed? || (c.Wrote? && run.states[i].up.Some? && c.n != Handed(env, run.states[i].up.value))
    ensures Closes(run.states[i], run.states[i + 1])
  {
    hide Step, Enabled, UpStep, Data;
    UpStepOf(env, run, i, c);
    var s := run.states[i];
    UpContext(s);
    hide Ctl, Waiting;
    FailCloses(s, s.(up := None));
    UpShort(env, s.(up := None), s.up.value, c);
  }

  lemma UpShort(env: Env, s: State, op: UpOp, c: Completion)
    requires c.Failed? || (c.Wrote? && c.n != Handed(env, op) && !IsUpRead(op))
    ensures UpStep(env, s, op, c) == Fail(s)
  {
  }

  lemma UpWritten(env: Env, run: Run, i: nat, n: nat)
    requires env.Ok() && run.Of(env) && i < |run.events| && run.events[i] == UpEvent(Wrote(n))
    requires run.states[i].up.Some? && n == Handed(env, run.states[i].up.value)
    ensures var s := run.states[i];
            run.states[i + 1] == s.(up := Some(match s.up.value
                                               case WriteHello => ReadHello
                                               case WriteAuth => ReadAuthStatus
                                               case _ => ReadAnswer))
  {
    hide Step, Enabled, UpStep, Data, Ctl;
    UpStepOf(env, run, i, Wrote(n));
    var s := run.states[i];
    UpFull(env, s.(up := None), s.up.value);
  }

  lemma UpFull(env: Env, s: State, op: UpOp)
    requires !IsUpRead(op)
    ensures UpStep(env, s, op, Wrote(Handed(env, op))) == s.(up := Some(match op
                                                                         case WriteHello => ReadHello
                                                                         case WriteAuth => ReadAuthStatus
                                                                         case _ => ReadAnswer))
  {
    assert s.hist.toUp + [] == s.hist.toUp;
  }

  // The request for the session's target goes out, or there is none and the session ends.
  predicate Requests(env: Env, s: State, t: State, cmd: byte) {
    var d := Resolve(env.v6, s.host);
    if Relayable(d) then
      var f := Frame(cmd, d, PortBytes(s.port));
      && t.up == Some(WriteRequest(f)) && t.hist.toUp == s.hist.toUp + f
      && t.hist.toDown == s.hist.toDown && t.hist.started == s.hist.started && t.join == s.join
    else Closes(s, t)
  }

  lemma ConnectRequests(env: Env, s: State, u: State, cmd: byte)
    requires env.Ok() && JoinOk(s.join) && s.mode == ModeOf(cmd) && 1 <= cmd <= 3
    requires u.join == s.join && u.down.None? && u.up.None? && u.mode == s.mode
    requires Quiet(s, u) && u.hist.delivered == s.hist.delivered && u.host == s.host && u.port == s.port
    ensures Requests(env, s, ConnectWrite(env, u), cmd)
  {
    FailCloses(s, u);
    EmittedIsFrame(env.v6, cmd, s.host, PortBytes(s.port));
    hide EmitRequest, Resolve, Frame, Closes;
  }

  // Every session on its way upstream has a command.
  lemma ModeIsSet(env: Env, run: Run, i: nat) returns (cmd: byte)
    requires env.Ok() && run.Of(env) && i < |run.events| && run.states[i].up.Some?
    ensures 1 <= cmd <= 3 && run.states[i].mode == ModeOf(cmd)
  {
    hide Step, Enabled;
    StepOf(env, run, i);
    UpContext(run.states[i]);
    var mode := run.states[i].mode;
    cmd := if mode.ConnectMode? then 1 else if mode.BindMode? then 2 else 3;
  }

  // The answer to the hello decides: method 0 sends the request, method 2 the authentication frame if
  // there is a user to authenticate, and everything else ends the session.
  lemma HelloAnswer(env: Env, run: Run, i: nat, data: bytes, tail: bytes, cmd: byte)
    requires env.Ok() && run.Of(env) && i < |run.events| && 1 <= cmd <= 3
    requires run.events[i] == UpEvent(Got(data, tail)) && run.states[i].up == Some(ReadHello)
    requires run.states[i].mode == ModeOf(cmd)
    ensures var s, t := run.states[i], run.states[i + 1];
            && s.hist.toUp == Hello(env) && t.hist.hello == data
            && if Starts(data, [5, 0]) then Requests(env, s, t, cmd)
               else if Starts(data, [5, 2]) && env.upUser != [] then
                 && t.up == Some(WriteAuth) && t.join == s.join && t.hist.started == s.hist.started
                 && t.hist.toDown == s.hist.toDown
                 && t.hist.toUp == s.hist.toUp + AuthFrame(env.upUser, env.upPwd)
               else Closes(s, t)
  {
    hide Step, Enabled, UpStep, OnHello, Starts, AuthFrame, Closes, Requests;
    UpStepOf(env, run, i, Got(data, tail));
    var s := run.states[i];
    UpContext(s);
    UpSent(env, s);
    hide Ctl, Data, Waiting;
    var u := s.(up := None, hist := s.hist.(hello := data));
    HelloStep(env, s.(up := None), data, tail);
    FailCloses(s, u);
    ConnectRequests(env, s, u, cmd);
    HelloDecision(env, u, data);
  }

  // What went upstream so far.
  lemma UpSent(env: Env, s: State)
    requires Data(env, s)
    ensures s.up == Some(ReadHello) ==> s.hist.toUp == Hello(env)
    ensures s.up == Some(ReadAuthStatus) ==> s.hist.toUp == HelloAuth(env)
  {
  }

  lemma HelloStep(env: Env, s: State, data: bytes, tail: bytes)
    ensures UpStep(env, s, ReadHello, Got(data, tail))
         == OnHello(env, s.(hist := s.hist.(hello := data)), data)
  {
    hide OnHello;
  }

  lemma HelloDecision(env: Env, u: State, data: bytes)
    ensures var t := OnHello(env, u, data);
            && t.hist.hello == u.hist.hello
            && t == if Starts(data, [5, 0]) then ConnectWrite(env, u)
                    else if Starts(data, [5, 2]) && env.upUser != [] then
                      u.(up := Some(WriteAuth),
                         hist := u.hist.(toUp := u.hist.toUp + AuthFrame(env.upUser, env.upPwd)))
                    else Fail(u)
  {
    StartsOctets(data, 5, 0);
    StartsOctets(data, 5, 2);
    ConnectKeepsInputs(env, u);
    hide ConnectWrite, Starts, AuthFrame, Fail;
  }

  lemma ConnectKeepsInputs(env: Env, s: State)
    ensures ConnectWrite(env, s).hist.hello == s.hist.hello
    ensures ConnectWrite(env, s).hist.status == s.hist.status
  {
    hide EmitRequest;
  }

  // So does the status of the authentication: 01 00 sends the request, everything else ends the session.
  lemma StatusAnswer(env: Env, run: Run, i: nat, data: bytes, tail: bytes, cmd: byte)
    requires env.Ok() && run.Of(env) && i < |run.events| && 1 <= cmd <= 3
    requires run.events[i] == UpEvent(Got(data, tail)) && run.states[i].up == Some(ReadAuthStatus)
    requires run.states[i].mode == ModeOf(cmd)
    ensures var s, t := run.states[i], run.states[i + 1];
            && s.hist.toUp == HelloAuth(env) && t.hist.status == data
            && if Starts(data, [1, 0]) then Requests(env, s, t, cmd) else Closes(s, t)
  {
    hide Step, Enabled, UpStep, OnAuthStatus, Starts, Closes, Requests;
    UpStepOf(env, run, i, Got(data, tail));
    var s := run.states[i];
    UpContext(s);
    UpSent(env, s);
    hide Ctl, Data, Waiting;
    var u := s.(up := None, hist := s.hist.(status := data));
    StatusStep(env, s.(up := None), data, tail);
    FailCloses(s, u);
    ConnectRequests(env, s, u, cmd);
    StatusDecision(env, u, data);
  }

  lemma StatusStep(env: Env, s: State, data: bytes, tail: bytes)
    ensures UpStep(env, s, ReadAuthStatus, Got(data, tail))
         == OnAuthStatus(env, s.(hist := s.hist.(status := data)), data)
  {
    hide OnAuthStatus;
  }

  lemma StatusDecision(env: Env, u: State, data: bytes)
    ensures var t := OnAuthStatus(env, u, data);
            && t.hist.status == u.hist.status
            && t == if Starts(data, [1, 0]) then ConnectWrite(env, u) else Fail(u)
  {
    StartsOctets(data, 1, 0);
    ConnectKeepsInputs(env, u);
    hide ConnectWrite, Starts, Fail;
  }

  // In every reachable state: the hello goes first; the authentication frame only if upstream asked for it
  // and there is a user; and the request only if upstream asked for no authentication, or accepted it.
  lemma UpstreamInOrder(env: Env, run: Run)
    requires env.Ok() && run.Of(env)
    ensures var s := run.Last();
            || s.hist.toUp == []
            || s.hist.toUp == Hello(env)
            || (env.upUser != [] && s.hist.toUp == HelloAuth(env) && Starts(s.hist.hello, [5, 2]))
            || (exists cmd, d :: 1 <= cmd <= 3 && Relayable(d)
                                 && UpstreamSaw(env, s, Frame(cmd, d, PortBytes(s.port))))
  {
    RunKeepsData(env, run);
    var s := run.Last();
    if s.join.readyDown {
      PhaseInOrder(env, s);
    }
  }

  lemma PhaseInOrder(env: Env, s: State)
    requires env.Ok() && UpPhase(env, s)
    ensures || s.hist.toUp == Hello(env)
            || (env.upUser != [] && s.hist.toUp == HelloAuth(env) && Starts(s.hist.hello, [5, 2]))
            || (exists cmd, d :: 1 <= cmd <= 3 && Relayable(d)
                                 && UpstreamSaw(env, s, Frame(cmd, d, PortBytes(s.port))))
  {
    var e := EmitRequest(env.v6, s.mode, s.host, s.port);
    if e.Some? && UpstreamSaw(env, s, e.value) {
      var cmd: byte := if s.mode.ConnectMode? then 1 else if s.mode.BindMode? then 2 else 3;
      EmittedIsFrame(env.v6, cmd, s.host, PortBytes(s.port));
      assert UpstreamSaw(env, s, Frame(cmd, Resolve(env.v6, s.host), PortBytes(s.port)));
    }
  }

  // ---- The upstream answer ----

  // What a client is told when upstream has accepted.
  function Granted(kind: Kind, data: bytes): bytes
    requires HasLayout(data)
  {
    if kind.Socks5? then Frame(0, Reclassified(DestOf(data)), data[|data| - 2..])
    else [0, 90, 0, 0, 0, 0, 0, 0]
  }

  // One more reply is started, and the up side is done.
  predicate Answers(s: State, t: State, r: Reply) {
    && t.hist.started == s.hist.started + [r] && t.replies == s.replies + [r]
    && t.hist.toDown == s.hist.toDown + r.data && t.hist.toUp == s.hist.toUp
    && t.up.None? && t.down.None? && t.join.completeUp && t.hist.delivered == s.hist.delivered
  }

  // A refusal is passed on as a general failure and ends in the error callback; an answer of the wrong
  // length ends the session without a reply; and an accepting one is relayed, and outside BIND leaves the
  // callbacks to the delivery of that reply.
  lemma AnswerAnswer(env: Env, run: Run, i: nat, data: bytes, tail: bytes)
    requires env.Ok() && run.Of(env) && i < |run.events|
    requires run.events[i] == UpEvent(Got(data, tail)) && run.states[i].up == Some(ReadAnswer)
    ensures var s, t := run.states[i], run.states[i + 1];
            && |data| >= 8
            && if Refusing(data) then
                 && Answers(s, t, Reply(RefusalFor(s.kind), true))
                 && t.join.fired == (if s.join.fired == [] then [Errored] else s.join.fired)
               else if HasLayout(data) then
                 && Answers(s, t, Reply(Granted(s.kind, data), false))
                 && (!s.mode.BindMode? ==> t.join.fired == s.join.fired)
               else Closes(s, t)
  {
    hide Step, Enabled, UpStep, OnAnswer, ReadReply, Refusing, HasLayout, Closes, Answers, Granted;
    UpStepOf(env, run, i, Got(data, tail));
    var s := run.states[i];
    AnswerContext(env, s);
    hide Ctl, Data, Waiting;
    var u := s.(up := None, hist := s.hist.(answer := data));
    AnswerStep(env, s.(up := None), data, tail);
    FailCloses(s, u);
    ReplyOutcomes(data);
    WaitingAny(s.(up := None), u);
    if Refusing(data) {
      RefusalIsPassedOn(u, data);
      AnswersSame(s, u, OnAnswer(u, data), Reply(RefusalFor(s.kind), true));
    } else if HasLayout(data) {
      AcceptanceIsRelayed(env, u, data);
      AnswersSame(s, u, OnAnswer(u, data), Reply(Granted(s.kind, data), false));
    } else {
      BadLengthFails(u, data);
    }
  }

  lemma AnswerStep(env: Env, s: State, data: bytes, tail: bytes)
    ensures UpStep(env, s, ReadAnswer, Got(data, tail))
         == OnAnswer(s.(hist := s.hist.(answer := data)), data)
  {
    hide OnAnswer;
  }

  lemma WaitingAny(s: State, u: State)
    requires Waiting(s) && u == s.(hist := s.hist.(answer := u.hist.answer))
    ensures Waiting(u)
  {
  }

  lemma AnswerContext(env: Env, s: State)
    requires env.Ok() && Ctl(s) && Data(env, s) && s.up == Some(ReadAnswer)
    ensures Waiting(s.(up := None)) && JoinOk(s.join) && s.down.None?
    ensures s.kind.Socks5? ==> |s.host| <= 255
    ensures s.serverUdp ==> s.upsideSocks5 && s.clientUdp
  {
    WaitingOf(s);
    WaitingOfData(env, s);
    if s.kind.Socks5? {
      HostIsShort(env, s);
    }
    UdpServed(env, s.(up := None));
  }

  lemma AnswersSame(s: State, u: State, t: State, r: Reply)
    requires Answers(u, t, r) && Quiet(s, u) && u.replies == s.replies && u.hist.delivered == s.hist.delivered
    ensures Answers(s, t, r)
  {
  }

  lemma BadLengthFails(u: State, data: bytes)
    requires ReadReply(data).BadLength? || ReadReply(data).Short?
    ensures OnAnswer(u, data) == Fail(u)
  {
    hide ReadReply;
  }

  lemma RefusalIsPassedOn(u: State, data: bytes)
    requires Waiting(u) && ReadReply(data).Refused?
    ensures var t := OnAnswer(u, data);
            && Answers(u, t, Reply(RefusalFor(u.kind), true))
            && t.join.fired == if u.join.fired == [] then [Errored] else u.join.fired
  {
    hide ReadReply, WhenUpEnd;
    var k := JoinAfterAnswer(u.join, true);
    assert WhenUpReadyError(u) == SendReply(u.(join := u.join.(readyUp := true, upError := true)),
                                            Reply(RefusalFor(u.kind), true));
    FiredAfterRefusal(u.join);
  }

  lemma FiredAfterRefusal(j: Join)
    requires JoinOk(j) && j.readyDown && !j.readyUp
    ensures var k := WhenUpEnd(j.(readyUp := true, upError := true));
            k.fired == if j.fired == [] then [Errored] else j.fired
  {
  }

  lemma AcceptanceIsRelayed(env: Env, u: State, data: bytes)
    requires Waiting(u) && ReadReply(data).Bound? && HasLayout(data) && |data| >= 8
    requires u.kind.Socks5? ==> |u.host| <= 255
    requires u.serverUdp ==> u.upsideSocks5 && u.clientUdp
    ensures var t := OnAnswer(u, data);
            && Answers(u, t, Reply(Granted(u.kind, data), false))
            && (!u.mode.BindMode? ==> t.join.fired == u.join.fired)
  {
    ReadReplyByLayout(data);
    LayoutIsFrame(data);
    hide ReadReply;
    if u.kind.Socks5? {
      ReplyRelay(DestOf(data), data[|data| - 2..], u.host);
    }
    var b := ReadReply(data);
    hide ReadReply, PrintReply, Frame, HasLayout, DestOf, Reclassified, WhenUpEnd;
    var v := u.(bindHost := b.bindHost, bindPort := b.bindPort);
    var k := JoinAfterAnswer(u.join, false);
    assert WhenUpReady(v) == SendReply(v.(join := v.join.(readyUp := true)), Reply(Granted(u.kind, data), false));
  }

  // Were the up side not in UDP mode, a client that asked for UDP would get error 7 instead. (It always is:
  // UdpServed.)
  lemma UdpNotServed(s: State)
    requires s.kind.Socks5? && s.serverUdp && !(s.upsideSocks5 && s.clientUdp)
    requires PrintReply(s.bindHost, s.bindPort, s.host).Some?
    ensures var r := Reply([5, 7, 0, 1, 0, 0, 0, 0, 0, 0], true);
            Socks5End(s).replies == s.replies + [r] && Socks5End(s).hist.toDown == s.hist.toDown + r.data
  {
    hide PrintReply;
  }

  // ---- Final replies ----

  // A final reply that was written in full is delivered, and calls the callback it stands for; otherwise
  // the session ends with an error.
  lemma ReplyWritten(env: Env, run: Run, i: nat, k: nat, c: Completion)
    requires env.Ok() && run.Of(env) && i < |run.events| && run.events[i] == ReplyEvent(k, c)
    requires !run.states[i].mode.BindMode?
    ensures var s, t := run.states[i], run.states[i + 1];
            && k < |s.replies| && t.replies == s.replies[..k] + s.replies[k + 1..] && Quiet(s, t)
            && var r := s.replies[k];
            if c == Wrote(|r.data|) then
              && t.hist.delivered == s.hist.delivered + [r]
              && t.join.fired == (if s.join.fired != [] then s.join.fired
                                  else if r.error then [Errored] else [Completed])
            else
              && t.hist.delivered == s.hist.delivered
              && t.join.fired == if s.join.fired != [] then s.join.fired else [Errored]
  {
    hide Ctl, Data, ReplyStep;
    StepOf(env, run, i);
    var s := run.states[i];
    ReplyContext(s, k);
    ReplyDecision(s.(replies := s.replies[..k] + s.replies[k + 1..]), s.replies[k], c);
  }

  lemma ReplyDecision(u: State, r: Reply, c: Completion)
    requires JoinOk(u.join) && !u.join.downError && !u.join.completeDown && !c.Got?
    requires !r.error ==> u.join.readyUp && !u.join.upError
    ensures var t := ReplyStep(u, r, c);
            && t == u.(join := t.join, hist := u.hist.(delivered := t.hist.delivered))
            && if c == Wrote(|r.data|) then
                 && t.hist.delivered == u.hist.delivered + [r]
                 && t.join.fired == (if u.join.fired != [] then u.join.fired
                                     else if r.error then [Errored] else [Completed])
               else
                 && t.hist.delivered == u.hist.delivered
                 && t.join.fired == if u.join.fired != [] then u.join.fired else [Errored]
  {
    hide WhenDownEnd;
    var j := JoinAfterReply(u.join, r.error);
  }

  lemma ReplyContext(s: State, k: nat)
    requires Ctl(s) && k < |s.replies| && !s.mode.BindMode?
    ensures JoinOk(s.join) && !s.join.downError && !s.join.completeDown
    ensures !s.replies[k].error ==> s.join.readyUp && !s.join.upError
  {
  }
}
