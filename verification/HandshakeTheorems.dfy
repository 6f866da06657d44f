// The main results about a SOCKS session: what holds over every run, whatever the order and the outcome
// of the asynchronous completions, and what the missing return after the BIND error reply breaks.
module HandshakeTheorems {
  import opened Bytes
  import opened Socks5Wire
  import Socks4Wire
  import opened AuthClients
  import opened HandshakeSpec
  import opened HandshakeControl
  import opened HandshakeData

  // ---- The greeting (RFC 1928 section 3) ----

  function Greeting(methods: bytes): bytes
    requires 1 <= |methods| <= 255
  {
    [5, |methods|] + methods
  }

  // The greetings that are recognised as SOCKS5.
  predicate Taken(methods: bytes) {
    1 <= |methods| <= 2 && (methods[0] == 0 || methods[0] == 2)
  }

  // What the client is sent first; nothing if its connection is just closed.
  function FirstAnswer(env: Env, methods: bytes): bytes {
    if !Taken(methods) then []
    else if !env.NeedAuth() then [5, 0]
    else if 2 in methods then [5, 2]
    else if methods == [0] then []
    else [5, 255]
  }

  // The session after its first read was a greeting: the answer is on its way, or there is none and the
  // session has failed.
  lemma GreetingAnswer(env: Env, run: Run, methods: bytes, tail: bytes)
    requires run.Of(env) && run.events != [] && 1 <= |methods| <= 255
    requires run.events[0] == DownEvent(Got(Greeting(methods), tail))
    ensures var t, answer := run.states[1], FirstAnswer(env, methods);
            && t.hist.toDown == answer && t.hist.toUp == []
            && (t.kind.Socks5? <==> Taken(methods))
            && t.join.fired == (if answer == [] then [Errored] else [])
            && t.down == (if answer == [5, 0] then Some(WriteNoAuth)
                          else if answer == [5, 2] then Some(WriteAuthMethod) else None)
            && t.replies == (if answer == [5, 255] then [Reply(answer, true)] else [])
  {
    hide OnFirst, OnGreeting, Greeting, FirstAnswer, Taken;
    assert run.StepsAt(env, 0);
    var data := Greeting(methods);
    var s := INIT.(down := None, buf := data, hist := INIT.hist.(first := data));
    assert run.states[1] == OnFirst(env, s, data, tail);
    GreetingDispatch(env, s, methods, tail);
    if Taken(methods) {
      GreetingChoice(env, s.(kind := Socks5, upsideSocks5 := true), methods);
    } else {
      NotTaken(env, methods);
    }
  }

  lemma NotTaken(env: Env, methods: bytes)
    requires !Taken(methods)
    ensures FirstAnswer(env, methods) == []
  {
  }

  lemma GreetingOctets(methods: bytes)
    requires 1 <= |methods| <= 255
    ensures var data := Greeting(methods);
            |data| >= 3 && data[0] == 5 && data[1] == |methods| && data[2..] == methods && data[2] == methods[0]
  {
  }

  lemma GreetingDispatch(env: Env, s: State, methods: bytes, tail: bytes)
    requires 1 <= |methods| <= 255 && |tail| >= 4
    ensures OnFirst(env, s, Greeting(methods), tail)
         == if Taken(methods) then OnGreeting(env, s.(kind := Socks5, upsideSocks5 := true), Greeting(methods))
            else Fail(s)
  {
    GreetingOctets(methods);
    hide OnGreeting, OnSocks4Header, Greeting, Fail;
  }

  lemma GreetingChoice(env: Env, s: State, methods: bytes)
    requires Taken(methods) && s.join == INIT_JOIN && s.down.None? && s.replies == []
    requires s.hist.toDown == [] && s.hist.toUp == []
    ensures var t, answer := OnGreeting(env, s, Greeting(methods)), FirstAnswer(env, methods);
            && t.hist.toDown == answer && t.hist.toUp == [] && t.kind == s.kind
            && t.join.fired == (if answer == [] then [Errored] else [])
            && t.down == (if answer == [5, 0] then Some(WriteNoAuth)
                          else if answer == [5, 2] then Some(WriteAuthMethod) else None)
            && t.replies == (if answer == [5, 255] then [Reply(answer, true)] else [])
  {
    GreetingOctets(methods);
    hide Greeting;
    assert methods == [0] ==> 2 !in methods;
  }

  // RFC 1928 section 3 has the server answer every greeting with one of the offered methods, or with 255.
  predicate Conforms(answer: bytes, methods: bytes) {
    |answer| == 2 && answer[0] == 5 && (answer[1] in methods || answer[1] == 255)
  }

  // So it does exactly if the greeting is taken and, when clients need not authenticate, offers method 0,
  // or, when they must, offers more than method 0 alone.
  lemma GreetingConformsIff(env: Env, methods: bytes)
    ensures Conforms(FirstAnswer(env, methods), methods)
       <==> Taken(methods) && if env.NeedAuth() then methods != [0] else 0 in methods
  {
    assert methods == [0] ==> 2 !in methods;
  }

  // ---- Authentication before anything goes upstream ----

  // When clients must authenticate, no octet is handed to the upstream socket before the session's user
  // is a stored record whose credentials the client sent: user and password in an RFC 1929 frame, or
  // the user id of the SOCKS4 packet.
  lemma AuthBeforeUpstream(env: Env, run: Run)
    requires env.Ok() && env.NeedAuth() && run.Of(env)
    ensures var s := run.Last();
            s.hist.toUp != [] ==> Authentic(env, s)
  {
    RunKeepsData(env, run);
  }

  // With the store filled from a configuration: authentication is demanded iff an entry is configured,
  // and a session that reached upstream presented the login of one of the entries, or, for SOCKS4, the
  // user of one.
  lemma OnlyConfiguredLogins(env: Env, config: seq<ClientInfo>, run: Run)
    requires env.Ok() && Loaded(config) && env.users == Load(config) && run.Of(env)
    ensures env.NeedAuth() <==> config != []
    ensures var s := run.Last();
            s.hist.toUp != [] && config != [] ==>
              && (s.kind.Socks5? || s.kind.Socks4?)
              && (s.kind.Socks5? ==>
                    exists i :: 0 <= i < |config| && s.hist.login == AuthFrame(config[i].user, config[i].pwd))
              && (s.kind.Socks4? ==>
                    var p := Socks4Wire.ParsePacket(s.hist.first, 0);
                    p.Some? && exists i :: 0 <= i < |config| && config[i].user == p.value.user)
  {
    hide HoldsFirsts, Data, Ctl, AuthFrame, Socks4Wire.ParsePacket, Load;
    DemandedIffConfigured(config);
    if config != [] {
      var s := run.Last();
      AuthBeforeUpstream(env, run);
      if s.hist.toUp != [] {
        StoredIsConfigured(config, s.authUser.value);
      }
    }
  }

  // Upstream sees nothing, too, unless the client's request was understood.
  lemma RequestBeforeUpstream(env: Env, run: Run)
    requires env.Ok() && run.Of(env)
    ensures var s := run.Last();
            s.hist.toUp != [] ==> s.join.readyDown && Target(env, s) && s.buf == []
  {
    RunKeepsData(env, run);
  }

  // ---- End to end ----

  // A destination the client side can put into a request.
  predicate Relayable(d: Dest) {
    DestOk(d) && (d.Name? ==> |d.name| <= 253)
  }

  // A completed SOCKS5 session, outside BIND: upstream got the client's request, with a name that is an
  // address literal replaced by that address; it answered with a success frame; and the client got its
  // preamble and that frame (a bound name of 4 or 16 octets as an address), delivered in full.
  lemma CompletedSocks5(env: Env, run: Run)
    requires env.Ok() && run.Of(env)
    requires var s := run.Last();
             Completed in s.join.fired && s.kind.Socks5? && !s.mode.BindMode?
    ensures var s := run.Last();
            var q, a := s.hist.command, s.hist.answer;
            && HasLayout(q) && 1 <= q[1] <= 3 && HasLayout(a) && a[1] == 0
            && Relayable(Canonical(env.v6, DestOf(q)))
            && UpstreamSaw(env, s, Frame(q[1], Canonical(env.v6, DestOf(q)), q[|q| - 2..]))
            && var reply := Frame(0, Reclassified(DestOf(a)), a[|a| - 2..]);
            && s.hist.toDown == Preamble(env) + reply
            && s.hist.delivered == [Reply(reply, false)]
  {
    hide Frame, EmitRequest, ReadRequest, ReadReply, PrintReply, Canonical, Reclassified;
    var s := run.Last();
    RunKeepsData(env, run);
    var q, a := s.hist.command, s.hist.answer;
    assert s.join.readyUp && !s.join.upError && s.join.readyDown && s.hist.started != [];
    assert Sent(env, s) && Target(env, s) && Answered(s) && Success(s) == Some(s.hist.started[0].data);
    SentCommand(env, s);
    RelayedAnswer(env, s);
    assert s.hist.delivered == s.hist.started && |s.hist.started| == 1;
  }

  lemma SentCommand(env: Env, s: State)
    requires env.Ok() && s.kind.Socks5? && Target(env, s) && Sent(env, s)
    ensures var q := s.hist.command;
            && HasLayout(q) && 1 <= q[1] <= 3 && Relayable(Canonical(env.v6, DestOf(q)))
            && s.mode == ModeOf(q[1])
            && UpstreamSaw(env, s, Frame(q[1], Canonical(env.v6, DestOf(q)), q[|q| - 2..]))
  {
    var q := s.hist.command;
    ReadRequestByLayout(env.v6, q);
    LayoutIsFrame(q);
    RequestTranslation(env.v6, q[1], DestOf(q), q[|q| - 2..]);
  }

  lemma RelayedAnswer(env: Env, s: State)
    requires env.Ok() && s.kind.Socks5? && Target(env, s) && |s.hist.answer| >= 8
    requires ReadReply(s.hist.answer) == Bound(s.bindHost, s.bindPort)
    ensures var a := s.hist.answer;
            && HasLayout(a) && a[1] == 0
            && Success(s) == Some(Frame(0, Reclassified(DestOf(a)), a[|a| - 2..]))
  {
    var a := s.hist.answer;
    ReadReplyByLayout(a);
    LayoutIsFrame(a);
    HostIsShort(env, s);
    ReplyRelay(DestOf(a), a[|a| - 2..], s.host);
  }

  // Upstream was sent the SOCKS5 request for the destination of the SOCKS4 or SOCKS4a packet `w`.
  ghost predicate UpstreamSawPacket(env: Env, s: State, w: bytes) {
    || (exists port, ip, user ::
          && Socks4Wire.PlainOk(port, ip, user) && w == Socks4Wire.Plain(1, port, ip, user)
          && UpstreamSaw(env, s, Frame(1, V4(ip), port)))
    || (exists port, x, user, host ::
          && Socks4Wire.NamedOk(port, x, user, host) && w == Socks4Wire.Named(1, port, x, user, host)
          && Relayable(Resolve(env.v6, host))
          && UpstreamSaw(env, s, Frame(1, Resolve(env.v6, host), port)))
  }

  // A completed SOCKS4 session, outside BIND: the client sent a well-formed CONNECT packet, and perhaps
  // NUL-free octets after it; upstream got a SOCKS5 request for the packet's host and port, and nothing of
  // what came after it; and the client got the granted reply.
  lemma CompletedSocks4(env: Env, run: Run)
    requires env.Ok() && run.Of(env)
    requires var s := run.Last();
             Completed in s.join.fired && s.kind.Socks4? && !s.mode.BindMode?
    ensures var s := run.Last();
            && (exists w, t :: Socks4Wire.Cut(s.hist.first, w, t) && UpstreamSawPacket(env, s, w))
            && s.hist.toDown == [0, 90, 0, 0, 0, 0, 0, 0]
            && s.hist.delivered == [Reply([0, 90, 0, 0, 0, 0, 0, 0], false)]
            && ReadReply(s.hist.answer).Bound?
  {
    hide Frame, EmitRequest, ReadReply, PrintReply, UpstreamSawPacket;
    var s := run.Last();
    RunKeepsData(env, run);
    assert s.join.readyUp && !s.join.upError && s.join.readyDown && s.hist.started != [];
    assert Sent(env, s) && Target(env, s) && Answered(s) && Success(s) == Some(s.hist.started[0].data);
    assert s.hist.delivered == s.hist.started && |s.hist.started| == 1;
    var w, t := SentPacket(env, s);
  }

  lemma SentPacket(env: Env, s: State) returns (w: bytes, t: bytes)
    requires env.Ok() && s.kind.Socks4? && !s.mode.BindMode? && Target(env, s) && Sent(env, s)
    ensures Socks4Wire.Cut(s.hist.first, w, t) && UpstreamSawPacket(env, s, w)
  {
    hide Socks4Wire.ParsePacket, EmitRequest, Frame, UpstreamSawPacket;
    var data := s.hist.first;
    w, t := Socks4Wire.CutAccepted(data, 0);
    Socks4Wire.TrailingDropped(w, t, 0);
    assert w[0] == data[0] && w[1] == data[1];
    if Socks4Wire.IsSocks4a(w) {
      var port, x, user, host := Socks4Wire.AcceptedNamed(w, 0);
      Socks4Wire.NamedTranslation(env.v6, 1, port, x, user, host);
      SawNamed(env, s, w, port, x, user, host);
    } else {
      var port, ip, user := Socks4Wire.AcceptedPlain(w, 0);
      Socks4Wire.PlainTranslation(env.v6, 1, port, ip, user);
      SawPlain(env, s, w, port, ip, user);
    }
  }

  lemma SawPlain(env: Env, s: State, w: bytes, port: bytes, ip: bytes, user: bytes)
    requires Socks4Wire.PlainOk(port, ip, user) && w == Socks4Wire.Plain(1, port, ip, user)
    requires UpstreamSaw(env, s, Frame(1, V4(ip), port))
    ensures UpstreamSawPacket(env, s, w)
  {
  }

  lemma SawNamed(env: Env, s: State, w: bytes, port: bytes, x: byte, user: bytes, host: bytes)
    requires Socks4Wire.NamedOk(port, x, user, host) && w == Socks4Wire.Named(1, port, x, user, host)
    requires Relayable(Resolve(env.v6, host)) && UpstreamSaw(env, s, Frame(1, Resolve(env.v6, host), port))
    ensures UpstreamSawPacket(env, s, w)
  {
  }

  // In every run, BIND included, the success callback means that upstream accepted.
  lemma CompletedOnlyIfAccepted(env: Env, run: Run)
    requires env.Ok() && run.Of(env) && Completed in run.Last().join.fired
    ensures var s := run.Last();
            ReadReply(s.hist.answer) == Bound(s.bindHost, s.bindPort) && s.bindHost != []
  {
    hide ReadReply, EmitRequest, PrintReply, ReadRequest;
    RunKeepsData(env, run);
    ReadReplyByLayout(run.Last().hist.answer);
  }

  // A success reply is started only if upstream accepted the request and bound a non-empty host; outside
  // BIND it is then the only final reply.
  lemma SuccessOnlyIfAccepted(env: Env, run: Run, i: nat)
    requires env.Ok() && run.Of(env) && i < |run.Last().hist.started|
    ensures var s := run.Last();
            !s.hist.started[i].error ==>
              && ReadReply(s.hist.answer) == Bound(s.bindHost, s.bindPort) && s.bindHost != []
              && (!s.mode.BindMode? ==> |s.hist.started| == 1)
  {
    RunKeepsData(env, run);
    var s := run.Last();
    ReadReplyByLayout(s.hist.answer);
  }

  // Outside BIND, an error reply tells its cause. Before the up side was started it went to a client
  // that must authenticate and did not; later it means that upstream refused. The client has got the
  // reply after what its kind of session was sent before, and no error reply goes with a success.
  lemma ErrorReplyHasCause(env: Env, run: Run)
    requires env.Ok() && run.Of(env)
    requires var s := run.Last();
             !s.mode.BindMode? && s.hist.started != [] && s.hist.started[0].error
    ensures var s := run.Last();
            var r := s.hist.started[0];
            && s.hist.started == [r] && Completed !in s.join.fired
            && if !s.join.readyDown then TurnedAway(env, s, r) && s.hist.toUp == []
               else && r.data == RefusalFor(s.kind)
                    && s.hist.toDown == (if s.kind.Socks5? then Preamble(env) else []) + r.data
                    && ReadReply(s.hist.answer).Refused?
  {
    hide EmitRequest, ReadReply, PrintReply, ReadRequest, TurnedAway, Sent, Target;
    RunKeepsData(env, run);
    var s := run.Last();
    SuccessDelivered(s);
    assert s.hist.started == [s.hist.started[0]];
  }

  // ---- BIND ----

  predicate IsAcceptedOrRefused(c: Completion) {
    c.Got? && (ReadReply(c.data).Refused? || ReadReply(c.data).Bound?)
  }

  // A second final reply is started exactly when a BIND session gets an answer from upstream that the
  // client side does not reject for its length: the first reply was the BIND error.
  lemma SecondReplyIffBind(env: Env, run: Run, i: nat)
    requires env.Ok() && run.Of(env) && i < |run.events|
    requires run.states[i].hist.started != []
    ensures var s, e := run.states[i], run.events[i];
            |run.states[i + 1].hist.started| > |s.hist.started|
            <==> s.mode.BindMode? && e.UpEvent? && s.up == Some(ReadAnswer) && IsAcceptedOrRefused(e.c)
  {
    var s, e := run.states[i], run.events[i];
    UptoIsRun(env, run, i);
    RunKeepsData(env, run.Upto(i));
    assert run.StepsAt(env, i);
    StepMoves(env, s, e);
    match e
    case DownEvent(c) =>
    case ReplyEvent(i, c) =>
    case UpEvent(c) =>
      WaitingOf(s);
      UpStarts(env, s.(up := None), s.up.value, c);
  }

  lemma UpStarts(env: Env, s: State, op: UpOp, c: Completion)
    requires env.Ok() && Waiting(s) && Target(env, s)
    requires op.ReadAnswer? ==> Sent(env, s)
    requires c.Got? <==> IsUpRead(op) && !c.Failed?
    ensures |UpStep(env, s, op, c).hist.started| > |s.hist.started|
       <==> op.ReadAnswer? && IsAcceptedOrRefused(c)
  {
    hide EmitRequest, OnAnswer, ReadReply, Waiting, Target, Sent, WhenError, AuthFrame;
    if op.ReadAnswer? && c.Got? {
      AnswerIsNoTarget(env, s, c.data);
      AnswerStarts(env, s.(hist := s.hist.(answer := c.data)), c.data);
    }
  }

  lemma AnswerIsNoTarget(env: Env, s: State, answer: bytes)
    requires Waiting(s) && Target(env, s)
    ensures var t := s.(hist := s.hist.(answer := answer)); Waiting(t) && Target(env, t)
  {
  }

  lemma WaitingKind(s: State)
    requires Waiting(s)
    ensures !s.join.readyUp && (s.kind.Socks5? || s.kind.Socks4?)
  {
  }

  lemma AnswerStarts(env: Env, s: State, data: bytes)
    requires env.Ok() && Waiting(s) && Target(env, s)
    ensures |OnAnswer(s, data).hist.started| > |s.hist.started|
       <==> ReadReply(data).Refused? || ReadReply(data).Bound?
  {
    WaitingKind(s);
    hide EmitRequest, PrintReply, ReadReply, UpEnd, WhenUpReady, WhenUpReadyError, Waiting, Target;
    match ReadReply(data)
    case Bound(h, p) =>
      if s.kind.Socks5? {
        HostIsShort(env, s);
        PrintedWhenShort(h, p, s.host);
      }
      SuccessStarts(s.(bindHost := h, bindPort := p));
    case Refused => RefusalStarts(s);
    case _ =>
  }

  lemma SuccessStarts(s: State)
    requires !s.join.readyUp && (s.kind.Socks5? || s.kind.Socks4?)
    requires s.kind.Socks5? ==> PrintReply(s.bindHost, s.bindPort, s.host).Some?
    ensures |UpEnd(WhenUpReady(s)).hist.started| == |s.hist.started| + 1
  {
    hide PrintReply, WhenUpEnd;
  }

  lemma RefusalStarts(s: State)
    requires !s.join.readyUp && (s.kind.Socks5? || s.kind.Socks4?)
    ensures |UpEnd(WhenUpReadyError(s)).hist.started| == |s.hist.started| + 1
  {
    hide WhenUpEnd;
  }
}
