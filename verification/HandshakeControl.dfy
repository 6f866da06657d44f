// Control properties of the handshake over all runs: callbacks, joins, final replies, progress.
module HandshakeControl {
  import opened Bytes
  import opened Socks5Wire
  import opened HandshakeSpec
  import Socks4Wire
  import opened AuthClients

  // ---- The invariant ----

  // Callbacks fire at most once, and exactly when the session pointer is dropped; the up side is
  // complete when it is ready; only an error completes the down side before the up side.
  predicate JoinOk(j: Join) {
    && j.canComplete == j.attached && j.canError == j.attached
    && (j.attached <==> j.fired == []) && |j.fired| <= 1
    && (j.readyUp <==> j.completeUp)
    && (j.upError ==> j.readyUp) && (j.readyUp ==> j.readyDown)
    && (j.completeDown && !j.completeUp ==> j.downError)
    && (Completed in j.fired ==> j.completeDown && j.completeUp && !j.upError)
  }

  predicate Pending(s: State) {
    s.down.Some? || s.up.Some? || s.replies != []
  }

  // While a down-side operation other than a final reply is in flight, nothing else has happened yet.
  predicate EarlyOk(s: State) {
    s.down.Some? ==>
      && s.join.attached && !s.join.readyDown && !s.join.completeDown && !s.join.downError
      && s.up.None? && s.replies == [] && s.hist.started == [] && s.hist.delivered == []
      && (s.down.value.ReadFirst? <==> s.kind.Unknown?)
      && (s.kind.Unknown? || s.kind.Socks5?)
  }

  predicate ShapeOk(s: State) {
    && s.hist.clients == (if s.join.readyDown then 1 else 0)
    && (s.up.Some? ==> s.join.readyDown && !s.join.readyUp)
    && (s.join.readyDown <==> !s.mode.NoMode?)
    && (s.join.readyDown || s.replies != [] ==> s.kind.Socks5? || s.kind.Socks4?)
    && (IsHttp(s) ==> !Pending(s) && s.join.attached)
    && (s.join.attached ==> Pending(s) || IsHttp(s))
    && (forall i :: 0 <= i < |s.replies| ==>
                      !s.replies[i].error ==> s.join.readyUp && !s.join.upError)
    && (forall i :: 0 <= i < |s.hist.started| ==>
                      !s.hist.started[i].error ==> s.join.readyUp && !s.join.upError)
  }

  // Outside BIND: no guard is hit, and there is at most one final reply.
  predicate SingleOk(s: State) {
    !s.mode.BindMode? ==>
      && s.join.misuse == 0
      && |s.hist.started| <= 1
      && (s.hist.started == [] ==>
            && s.replies == [] && s.hist.delivered == []
            && !s.join.completeDown && !s.join.downError
            && (s.join.attached ==> !s.join.readyUp))
      && (s.hist.started != [] ==>
            && s.up.None?
            && (s.replies == []
                || (s.replies == s.hist.started && s.hist.delivered == []
                    && !s.join.completeDown && !s.join.downError)))
      && (s.up.Some? ==> s.join.attached)
      && (Completed in s.join.fired ==>
            && s.hist.started != [] && s.replies == [] && s.hist.delivered == s.hist.started
            && !s.hist.started[0].error)
      && (s.hist.delivered != [] ==> s.hist.delivered == s.hist.started)
      && (s.hist.started != [] && !s.hist.started[0].error ==>
            && (s.replies != [] ==> s.join.attached)
            && (s.hist.delivered != [] ==> Completed in s.join.fired))
  }

  predicate Ctl(s: State) {
    JoinOk(s.join) && EarlyOk(s) && ShapeOk(s) && SingleOk(s)
  }

  // ---- The rank of a state, and what the handlers before a final reply leave alone ----

  function DownRank(op: Option<DownOp>): nat {
    match op
    case None => 0
    case Some(ReadFirst) => 14
    case Some(WriteAuthMethod) => 13
    case Some(ReadLogin) => 12
    case Some(WriteLoginOk) => 11
    case Some(WriteNoAuth) => 11
    case Some(ReadCommand) => 10
  }

  function UpRank(op: Option<UpOp>): nat {
    match op
    case None => 0
    case Some(WriteHello) => 8
    case Some(ReadHello) => 7
    case Some(WriteAuth) => 6
    case Some(ReadAuthStatus) => 5
    case Some(WriteRequest(_)) => 4
    case Some(ReadAnswer) => 3
  }

  function Rank(s: State): nat {
    DownRank(s.down) + UpRank(s.up) + |s.replies|
  }

  // No such handler completes the session or delivers a reply; replies in flight are counted as started.
  predicate Moved(s: State, t: State) {
    && (t.join.fired == s.join.fired || t.join.fired == [Errored])
    && t.hist.delivered == s.hist.delivered
    && |t.hist.started| - |s.hist.started| == |t.replies| - |s.replies|
  }

  predicate Keeps(s: State, t: State, rank: int) {
    Ctl(t) && Moved(s, t) && Rank(t) <= rank
  }

  // ---- Every step keeps it: the down side before the final reply ----

  // The state in which a handler of an early down-side operation runs.
  predicate Early(s: State) {
    && s.join == INIT_JOIN && s.mode.NoMode?
    && s.down.None? && s.up.None? && s.replies == []
    && s.hist.started == [] && s.hist.delivered == [] && s.hist.clients == 0
  }

  lemma EarlyOf(s: State)
    requires Ctl(s) && s.down.Some?
    ensures Early(s.(down := None)) && !IsHttp(s)
    ensures if s.down.value.ReadFirst? then s.kind.Unknown? else s.kind.Socks5?
    ensures Rank(s) == DownRank(s.down)
  {
  }

  lemma EarlyFail(s: State)
    requires Early(s) && !IsHttp(s)
    ensures Keeps(s, Fail(s), 0)
  {
  }

  lemma EarlyStart(s: State, op: DownOp)
    requires Early(s) && s.kind.Socks5? && !op.ReadFirst?
    ensures Keeps(s, StartDown(s, op), DownRank(Some(op)))
  {
  }

  lemma EarlyReply(s: State, r: Reply)
    requires Early(s) && (s.kind.Socks5? || s.kind.Socks4?) && r.error
    ensures Keeps(s, SendReply(s, r), 1)
  {
  }

  lemma EarlyReady(env: Env, s: State, mode: RelayMode)
    requires Early(s) && (s.kind.Socks5? || s.kind.Socks4?) && !mode.NoMode?
    ensures Keeps(s, WhenDownReady(env, s.(mode := mode)), 8)
  {
  }

  lemma EarlyBind(env: Env, s: State, r: Reply)
    requires Early(s) && (s.kind.Socks5? || s.kind.Socks4?) && r.error
    ensures Keeps(s, WhenDownReady(env, SendReply(s, r).(mode := BindMode)), 9)
  {
  }

  lemma EarlyHttp(s: State, kind: Kind)
    requires Early(s) && (kind.HttpConnect? || kind.HttpOther?)
    ensures Keeps(s, s.(kind := kind, upsideSocks5 := true), 0)
  {
  }

  lemma GreetingKeepsCtl(env: Env, s: State, data: bytes)
    requires Early(s) && s.kind.Socks5?
    ensures Keeps(s, OnGreeting(env, s, data), 13)
  {
    hide Ctl, Rank;
    if |data| < 3 || |data| != 2 + (data[1] as int) {
      EarlyFail(s);
    } else if data[0] == 5 && data[1] == 1 && data[2] == 0 {
      var t := s.(buf := data[3..]);
      if env.NeedAuth() {
        EarlyFail(t);
      } else {
        EarlyStart(t, WriteNoAuth);
      }
    } else if data[0] == 5 && data[1] > 0 {
      var t := s.(buf := []);
      if 2 in data[2..] {
        EarlyStart(t, if env.NeedAuth() then WriteAuthMethod else WriteNoAuth);
      } else if env.NeedAuth() {
        EarlyReply(t, HEADER_ERROR);
      } else {
        EarlyStart(t, WriteNoAuth);
      }
    } else {
      EarlyReply(s, HEADER_ERROR);
    }
  }

  lemma Socks4CommandKeepsCtl(env: Env, s: State, cmd: byte)
    requires Early(s) && s.kind.Socks4?
    ensures Keeps(s, OnSocks4Command(env, s, cmd), 9)
  {
    EarlyReady(env, s.(buf := []), ConnectMode);
    EarlyBind(env, s.(buf := []), Socks4Reply(91));
    EarlyFail(s);
  }

  lemma Socks4HeaderKeepsCtl(env: Env, s: State, data: bytes, past: byte)
    requires Early(s) && s.kind.Socks4?
    ensures Keeps(s, OnSocks4Header(env, s, data, past), 9)
  {
    EarlyFail(s);
    match Socks4Wire.ParsePacket(data, past)
    case None =>
    case Some(p) =>
      var t := s.(host := p.host, port := p.port);
      Socks4CommandKeepsCtl(env, t, p.cmd);
      EarlyReply(t, Socks4Reply(92));
      match env.LookupUser(p.user)
      case None =>
      case Some(a) => Socks4CommandKeepsCtl(env, SetAuthUser(t, a), p.cmd);
  }

  lemma FirstKeepsCtl(env: Env, s: State, data: bytes, tail: bytes)
    requires Early(s) && s.kind.Unknown? && |tail| >= 4
    ensures Keeps(s, OnFirst(env, s, data, tail), 13)
  {
    hide Ctl, Rank, OnGreeting, OnSocks4Header, IsConnectWord, IsOtherMethod;
    var d := data + tail;
    EarlyFail(s);
    EarlyHttp(s, HttpConnect);
    EarlyHttp(s, HttpOther);
    if d[0] == 5 {
      GreetingKeepsCtl(env, s.(kind := Socks5, upsideSocks5 := true), data);
    } else if d[0] == 4 {
      Socks4HeaderKeepsCtl(env, s.(kind := Socks4, upsideSocks5 := true), data, tail[0]);
    }
  }

  lemma LoginKeepsCtl(env: Env, s: State, data: bytes)
    requires Early(s) && s.kind.Socks5?
    ensures Keeps(s, OnLogin(env, s, data), 11)
  {
    EarlyFail(s);
    EarlyReply(s, LOGIN_ERROR);
    match ReadAuth(data)
    case None =>
    case Some(l) =>
      match FindPair(env.users, l.user, l.pwd)
      case None =>
      case Some(a) => EarlyStart(SetAuthUser(s, a), WriteLoginOk);
  }

  lemma CommandKeepsCtl(env: Env, s: State, data: bytes)
    requires Early(s) && s.kind.Socks5?
    ensures Keeps(s, OnCommand(env, s, data), 9)
  {
    EarlyFail(s);
    match ReadRequest(env.v6, data)
    case None =>
    case Some(r) =>
      var t := s.(host := r.host, port := r.port);
      EarlyReady(env, t, ConnectMode);
      EarlyReady(env, t.(serverUdp := true), UdpMode);
      EarlyBind(env, t, Socks5Error(7));
      EarlyReply(t, Socks5Error(7));
  }

  lemma DownKeepsCtl(env: Env, s: State, op: DownOp, c: Completion)
    requires Early(s) && (if op.ReadFirst? then s.kind.Unknown? else s.kind.Socks5?)
    requires c.Got? <==> IsDownRead(op) && !c.Failed?
    requires c.Got? && op.ReadFirst? ==> |c.tail| >= 4
    ensures Keeps(s, DownStep(env, s, op, c), DownRank(Some(op)) - 1)
  {
    hide Ctl, OnFirst, OnLogin, OnCommand;
    EarlyFail(s);
    if !(c.Failed? || (c.Wrote? && c.n != |DownData(op)|)) {
      match op
      case ReadFirst =>
        FirstKeepsCtl(env, s.(buf := c.data, hist := s.hist.(first := c.data)), c.data, c.tail);
      case WriteAuthMethod => EarlyStart(s, ReadLogin);
      case ReadLogin => LoginKeepsCtl(env, s.(hist := s.hist.(login := c.data)), c.data);
      case WriteLoginOk => EarlyStart(s, ReadCommand);
      case WriteNoAuth => EarlyStart(s, ReadCommand);
      case ReadCommand => CommandKeepsCtl(env, s.(hist := s.hist.(command := c.data)), c.data);
    }
  }

  // ---- Every step keeps it: the up side ----

  // The state in which a handler of an up-side operation runs.
  predicate Waiting(s: State) {
    && JoinOk(s.join) && s.join.readyDown && !s.join.readyUp
    && s.down.None? && s.up.None? && s.hist.clients == 1
    && !s.mode.NoMode? && (s.kind.Socks5? || s.kind.Socks4?)
    && (forall i :: 0 <= i < |s.replies| ==> s.replies[i].error)
    && (forall i :: 0 <= i < |s.hist.started| ==> s.hist.started[i].error)
    && (!s.mode.BindMode? ==>
          && s.join == INIT_JOIN.(readyDown := true)
          && s.replies == [] && s.hist.started == [] && s.hist.delivered == [])
  }

  lemma WaitingOf(s: State)
    requires Ctl(s) && s.up.Some?
    ensures Waiting(s.(up := None))
    ensures Rank(s) == |s.replies| + UpRank(s.up)
  {
  }

  lemma WaitingFail(s: State)
    requires Waiting(s)
    ensures Keeps(s, Fail(s), |s.replies|)
  {
  }

  lemma WaitingStart(env: Env, s: State, op: UpOp)
    requires Waiting(s)
    ensures Keeps(s, StartUp(env, s, op), |s.replies| + UpRank(Some(op)))
  {
  }

  lemma ConnectKeepsCtl(env: Env, s: State)
    requires Waiting(s)
    ensures Keeps(s, ConnectWrite(env, s), |s.replies| + 4)
  {
    WaitingFail(s);
    match EmitRequest(env.v6, s.mode, s.host, s.port)
    case None =>
    case Some(data) =>
      WaitingStart(env, s.(clientUdp := s.clientUdp || s.mode == UdpMode), WriteRequest(data));
  }

  // The join after the upstream answer.
  lemma JoinAfterAnswer(j: Join, err: bool) returns (k: Join)
    requires JoinOk(j) && j.readyDown && !j.readyUp
    ensures k == WhenUpEnd(j.(readyUp := true, upError := err))
    ensures JoinOk(k) && k.readyUp && k.readyDown && k.completeUp && k.upError == err
    ensures k.completeDown == j.completeDown && k.downError == j.downError && k.misuse == j.misuse
    ensures k.attached <==> j.attached && !err && !j.downError
    ensures k.fired == j.fired || k.fired == [Errored]
  {
    k := WhenUpEnd(j.(readyUp := true, upError := err));
  }

  lemma AnswerWithReply(s: State, r: Reply, err: bool)
    requires Waiting(s) && (err ==> r.error)
    ensures Keeps(s, UpEnd(SendReply(s.(join := s.join.(readyUp := true, upError := err)), r)), |s.replies| + 1)
  {
    var k := JoinAfterAnswer(s.join, err);
    var t := UpEnd(SendReply(s.(join := s.join.(readyUp := true, upError := err)), r));
    assert t.join == k;
    assert s.replies == [] ==> t.replies == [r];
    assert s.hist.started == [] ==> t.hist.started == [r];
  }

  lemma AnswerWithoutReply(s: State)
    requires Waiting(s)
    ensures Keeps(s, UpEnd(Fail(s.(join := s.join.(readyUp := true)))), |s.replies|)
  {
  }

  lemma AnswerKeepsCtl(s: State, data: bytes)
    requires Waiting(s)
    ensures Keeps(s, OnAnswer(s, data), |s.replies| + 1)
  {
    hide Ctl, Rank, UpEnd, SendReply, Fail;
    match ReadReply(data)
    case Short => WaitingFail(s);
    case BadLength => WaitingFail(s);
    case Refused =>
      if s.kind.Socks5? {
        AnswerWithReply(s, Socks5Error(1), true);
      } else {
        AnswerWithReply(s, Socks4Reply(91), true);
      }
    case Bound(h, p) =>
      var t := s.(bindHost := h, bindPort := p);
      if t.kind.Socks4? {
        AnswerWithReply(t, Socks4Reply(90), false);
      } else {
        match PrintReply(h, p, t.host)
        case None => AnswerWithoutReply(t);
        case Some(octets) =>
          AnswerWithReply(t, Socks5Error(7), false);
          AnswerWithReply(t, Reply(octets, false), false);
      }
  }

  lemma HelloKeepsCtl(env: Env, s: State, data: bytes)
    requires Waiting(s)
    ensures Keeps(s, OnHello(env, s, data), |s.replies| + 6)
  {
    hide Waiting, Ctl, ConnectWrite, Moved;
    WaitingFail(s);
    ConnectKeepsCtl(env, s);
    WaitingStart(env, s, WriteAuth);
  }

  lemma StatusKeepsCtl(env: Env, s: State, data: bytes)
    requires Waiting(s)
    ensures Keeps(s, OnAuthStatus(env, s, data), |s.replies| + 4)
  {
    hide Waiting, Ctl, ConnectWrite, Moved;
    WaitingFail(s);
    ConnectKeepsCtl(env, s);
  }

  lemma UpKeepsCtl(env: Env, s: State, op: UpOp, c: Completion)
    requires Waiting(s)
    requires c.Got? <==> IsUpRead(op) && !c.Failed?
    ensures Keeps(s, UpStep(env, s, op, c), |s.replies| + UpRank(Some(op)) - 1)
  {
    hide Ctl, OnHello, OnAuthStatus, OnAnswer;
    WaitingFail(s);
    if !(c.Failed? || (c.Wrote? && c.n != |UpData(env, op)|)) {
      match op
      case WriteHello => WaitingStart(env, s, ReadHello);
      case ReadHello => HelloKeepsCtl(env, s.(hist := s.hist.(hello := c.data)), c.data);
      case WriteAuth => WaitingStart(env, s, ReadAuthStatus);
      case ReadAuthStatus => StatusKeepsCtl(env, s.(hist := s.hist.(status := c.data)), c.data);
      case WriteRequest(_) => WaitingStart(env, s, ReadAnswer);
      case ReadAnswer => AnswerKeepsCtl(s.(hist := s.hist.(answer := c.data)), c.data);
    }
  }

  // ---- Every step keeps it: the final reply ----

  // Once a final reply was written, a callback has fired: completion iff nothing went wrong before.
  lemma JoinAfterReply(j: Join, err: bool) returns (k: Join)
    requires JoinOk(j) && (!err ==> j.readyUp && !j.upError)
    ensures k == WhenDownEnd(j, err)
    ensures JoinOk(k) && !k.attached && k.completeDown
    ensures k.readyUp == j.readyUp && k.readyDown == j.readyDown && k.upError == j.upError
    ensures k.downError == (j.downError || err)
    ensures k.misuse == j.misuse + if j.completeDown then 1 else 0
    ensures k.fired == if !j.attached then j.fired
                       else if err || j.downError || j.completeDown then [Errored] else [Completed]
  {
    k := WhenDownEnd(j, err);
  }

  // The join by itself: in whichever order the two sides end, neither alone completes the session, both
  // together do, exactly once, and an error on either side makes it the error callback instead.
  lemma JoinOfBothSides(downError: bool, upError: bool, downFirst: bool)
    ensures var j := INIT_JOIN.(readyDown := true, readyUp := true, upError := upError);
            var one := if downFirst then WhenDownEnd(j, downError) else WhenUpEnd(j);
            var two := if downFirst then WhenUpEnd(one) else WhenDownEnd(one, downError);
            && one.fired == (if upError || (downFirst && downError) then [Errored] else [])
            && two.fired == [if upError || downError then Errored else Completed]
            && two.misuse == 0 && !two.attached && !two.canComplete && !two.canError
  {
  }

  lemma ReplyKeepsCtl(s: State, i: nat, c: Completion)
    requires Ctl(s) && i < |s.replies| && !c.Got?
    ensures var t := ReplyStep(s.(replies := s.replies[..i] + s.replies[i + 1..]), s.replies[i], c);
            && Ctl(t) && Rank(t) < Rank(s)
            && |t.replies| < |s.replies| && |t.hist.delivered| <= |s.hist.delivered| + 1
            && t.hist.started == s.hist.started
  {
    var rest := s.replies[..i] + s.replies[i + 1..];
    var r := s.replies[i];
    OnlyReply(s, i);
    hide Ctl, WhenDownEnd, Fail;
    assert forall k :: 0 <= k < |rest| ==> rest[k] == s.replies[if k < i then k else k + 1];
    if c.Failed? || c.n != |r.data| {
      ReplyFailKeepsCtl(s, rest);
    } else {
      ReplyDoneKeepsCtl(s, rest, r);
    }
  }

  lemma OnlyReply(s: State, i: nat)
    requires Ctl(s) && i < |s.replies|
    ensures !s.mode.BindMode? ==> s.replies[..i] + s.replies[i + 1..] == []
  {
  }

  lemma ReplyFailKeepsCtl(s: State, rest: seq<Reply>)
    requires Ctl(s) && s.replies != []
    requires forall k :: 0 <= k < |rest| ==> rest[k] in s.replies
    requires !s.mode.BindMode? ==> rest == []
    ensures Ctl(Fail(s.(replies := rest))) && Rank(Fail(s.(replies := rest))) == Rank(s) - |s.replies| + |rest|
    ensures Fail(s.(replies := rest)) == s.(replies := rest, join := WhenError(s.join))
  {
  }

  lemma ReplyDoneKeepsCtl(s: State, rest: seq<Reply>, r: Reply)
    requires Ctl(s) && r in s.replies
    requires forall k :: 0 <= k < |rest| ==> rest[k] in s.replies
    requires !s.mode.BindMode? ==> rest == []
    ensures var t := s.(replies := rest, join := WhenDownEnd(s.join, r.error),
                        hist := s.hist.(delivered := s.hist.delivered + [r]));
            Ctl(t) && Rank(t) == Rank(s) - |s.replies| + |rest|
  {
    var k := JoinAfterReply(s.join, r.error);
  }

  lemma StepMoves(env: Env, s: State, e: Event)
    requires Ctl(s) && Enabled(s, e)
    ensures var t := Step(env, s, e);
            && Ctl(t) && Rank(t) < Rank(s)
            && (if e.ReplyEvent? then
                  |t.replies| < |s.replies| && |t.hist.delivered| <= |s.hist.delivered| + 1
                  && t.hist.started == s.hist.started
                else Moved(s, t))
  {
    hide Ctl, Rank, DownStep, UpStep, ReplyStep, Early, Waiting;
    match e
    case DownEvent(c) =>
      EarlyOf(s);
      DownKeepsCtl(env, s.(down := None), s.down.value, c);
    case UpEvent(c) =>
      WaitingOf(s);
      UpKeepsCtl(env, s.(up := None), s.up.value, c);
    case ReplyEvent(i, c) => ReplyKeepsCtl(s, i, c);
  }

  // ---- Runs ----

  lemma {:induction false} RunKeepsCtl(env: Env, run: Run)
    requires run.Of(env)
    ensures Ctl(run.Last())
    decreases |run.events|
  {
    hide Step, Enabled;
    if run.events != [] {
      var k := |run.events| - 1;
      UptoIsRun(env, run, k);
      RunKeepsCtl(env, run.Upto(k));
      assert run.StepsAt(env, k);
      StepMoves(env, run.states[k], run.events[k]);
    } else {
      assert run.Last() == INIT;
    }
  }

  // The invariant before a step of a run, and the step.
  lemma CtlAt(env: Env, run: Run, i: nat)
    requires run.Of(env) && i < |run.events|
    ensures Ctl(run.states[i]) && run.StepsAt(env, i)
  {
    UptoIsRun(env, run, i);
    RunKeepsCtl(env, run.Upto(i));
  }

  // Over every run, whenComplete and whenError together are called at most once, and from then on the
  // session pointer and both callbacks are cleared.
  lemma CallbackAtMostOnce(env: Env, run: Run)
    requires run.Of(env)
    ensures var j := run.Last().join;
            |j.fired| <= 1 && (j.fired != [] <==> !j.attached && !j.canComplete && !j.canError)
  {
    RunKeepsCtl(env, run);
  }

  // The success callback is called only by a completed write of a success reply, in full, when the up
  // side answered without error, both sides are complete and no error flag is set.
  lemma CompletionIsEarned(env: Env, run: Run, i: nat)
    requires run.Of(env) && i < |run.events|
    requires Completed !in run.states[i].join.fired && Completed in run.states[i + 1].join.fired
    ensures var s, e, t := run.states[i], run.events[i], run.states[i + 1];
            && e.ReplyEvent? && e.i < |s.replies|
            && !s.replies[e.i].error && e.c == Wrote(|s.replies[e.i].data|)
            && t.hist.delivered == s.hist.delivered + [s.replies[e.i]]
            && t.join.readyUp && t.join.completeUp && t.join.completeDown
            && !t.join.upError && !t.join.downError
  {
    var s, e := run.states[i], run.events[i];
    CtlAt(env, run, i);
    StepMoves(env, s, e);
    if e.ReplyEvent? {
      ReplyEarned(s, e.i, e.c);
    }
  }

  // Outside BIND, it is called exactly when a success reply was written to the client in full.
  lemma CompletedIffDelivered(env: Env, run: Run)
    requires run.Of(env) && !run.Last().mode.BindMode?
    ensures var s := run.Last();
            Completed in s.join.fired <==> exists r :: r in s.hist.delivered && !r.error
  {
    RunKeepsCtl(env, run);
    SuccessDelivered(run.Last());
  }

  lemma SuccessDelivered(s: State)
    requires Ctl(s) && !s.mode.BindMode?
    ensures Completed in s.join.fired ==>
              && s.hist.delivered == s.hist.started && |s.hist.started| == 1
              && s.hist.delivered[0] in s.hist.delivered && !s.hist.delivered[0].error
    ensures forall r :: r in s.hist.delivered && !r.error ==> Completed in s.join.fired
  {
  }

  lemma ErrorDoesNotComplete(j: Join)
    requires Completed !in j.fired
    ensures Completed !in WhenError(j).fired
  {
  }

  lemma CompletedAfterReply(j: Join, err: bool)
    requires JoinOk(j) && Completed !in j.fired && (!err ==> j.readyUp && !j.upError)
    ensures var k := WhenDownEnd(j, err);
            Completed in k.fired ==>
              !err && k.readyUp && k.completeUp && k.completeDown && !k.upError && !k.downError
  {
    hide WhenDownEnd;
    var k := JoinAfterReply(j, err);
  }

  lemma ReplyOf(s: State, i: nat)
    requires Ctl(s) && i < |s.replies|
    ensures JoinOk(s.join) && (!s.replies[i].error ==> s.join.readyUp && !s.join.upError)
  {
  }

  lemma ReplyEarned(s: State, i: nat, c: Completion)
    requires Ctl(s) && i < |s.replies| && !c.Got? && Completed !in s.join.fired
    ensures var r := s.replies[i];
            var t := ReplyStep(s.(replies := s.replies[..i] + s.replies[i + 1..]), r, c);
            Completed in t.join.fired ==>
              && !r.error && c == Wrote(|r.data|)
              && t.hist.delivered == s.hist.delivered + [r]
              && t.join.readyUp && t.join.completeUp && t.join.completeDown
              && !t.join.upError && !t.join.downError
  {
    ReplyOf(s, i);
    hide Ctl, JoinOk, WhenDownEnd, WhenError;
    ErrorDoesNotComplete(s.join);
    CompletedAfterReply(s.join, s.replies[i].error);
  }

  // Outside BIND no "never go there" guard is entered and no reset session pointer is used, at most one
  // final reply is started, and the client side object is created at most once (that, in every run).
  lemma SingleReply(env: Env, run: Run)
    requires run.Of(env)
    ensures var s := run.Last();
            && s.hist.clients <= 1
            && (!s.mode.BindMode? ==> s.join.misuse == 0 && |s.hist.started| <= 1
                                      && |s.hist.delivered| <= 1)
  {
    RunKeepsCtl(env, run);
    RunDelivers(env, run);
  }

  // Every reply delivered or in flight was started.
  lemma {:induction false} RunDelivers(env: Env, run: Run)
    requires run.Of(env)
    ensures var s := run.Last();
            |s.hist.delivered| + |s.replies| <= |s.hist.started|
    decreases |run.events|
  {
    hide Step, Enabled;
    if run.events != [] {
      var k := |run.events| - 1;
      UptoIsRun(env, run, k);
      RunDelivers(env, run.Upto(k));
      CtlAt(env, run, k);
      StepMoves(env, run.states[k], run.events[k]);
    } else {
      assert run.Last() == INIT;
    }
  }

  // ---- Progress ----

  // Every completion brings the session closer to its end.
  lemma RankDecreases(env: Env, run: Run, i: nat)
    requires run.Of(env) && i < |run.events|
    ensures Rank(run.states[i + 1]) < Rank(run.states[i])
  {
    hide Step, Enabled;
    CtlAt(env, run, i);
    StepMoves(env, run.states[i], run.events[i]);
  }

  // So no run is longer than 14 completions.
  lemma {:induction false} RunIsBounded(env: Env, run: Run)
    requires run.Of(env)
    ensures |run.events| + Rank(run.Last()) <= 14
    decreases |run.events|
  {
    hide Step, Enabled;
    if run.events != [] {
      var k := |run.events| - 1;
      UptoIsRun(env, run, k);
      RunIsBounded(env, run.Upto(k));
      RankDecreases(env, run, k);
    } else {
      assert run.Last() == INIT;
    }
  }

  // No reachable SOCKS state waits for nothing before a callback was called; a run with nothing left in
  // flight has called exactly one.
  lemma NoDeadlock(env: Env, run: Run)
    requires run.Of(env) && !IsHttp(run.Last())
    ensures var s := run.Last();
            && (s.join.fired == [] ==> exists e :: Enabled(s, e))
            && ((forall e :: !Enabled(s, e)) ==> |s.join.fired| == 1)
  {
    RunKeepsCtl(env, run);
    var s := run.Last();
    if s.down.Some? {
      assert Enabled(s, DownEvent(Failed));
    } else if s.up.Some? {
      assert Enabled(s, UpEvent(Failed));
    } else if s.replies != [] {
      assert Enabled(s, ReplyEvent(0, Failed));
    }
  }
}
