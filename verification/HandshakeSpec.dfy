// The SOCKS handshake of one client connection as a step machine. A state holds the join flags and
// callbacks of the parent object, the negotiated data, and the asynchronous operations in flight; a
// step completes one of them and runs its handler.
module HandshakeSpec {
  import opened Bytes
  import opened Socks5Wire
  import Socks4Wire
  import opened AuthClients

  // ---- The environment of a session ----

  // `byUser` is the user index of the credential store: which of several records with a user it yields
  // is up to the container.
  datatype Env = Env(users: seq<AuthUser>, byUser: map<bytes, AuthUser>, disableSocks4: bool,
                     upUser: bytes, upPwd: bytes, v6: Ipv6Text)
  {
    predicate NeedAuth() {
      users != []
    }

    function LookupUser(user: bytes): Option<AuthUser> {
      if user in byUser then Some(byUser[user]) else None
    }

    ghost predicate Ok() {
      && v6.Faithful()
      && forall user :: IsFoundUser(users, user, LookupUser(user))
    }
  }

  // ---- State ----

  datatype Kind = Unknown | Socks5 | Socks4 | HttpConnect | HttpOther

  datatype Outcome = Completed | Errored

  // The flags and callbacks of ProxyHandshakeAuth. `misuse` counts entries into its "never go there"
  // guards and uses of the session pointer after it was reset; `fired` lists the callbacks invoked.
  datatype Join = Join(readyUp: bool, readyDown: bool, completeUp: bool, completeDown: bool,
                       upError: bool, downError: bool,
                       attached: bool, canComplete: bool, canError: bool,
                       fired: seq<Outcome>, misuse: nat)

  // Down-side operations before the final reply.
  datatype DownOp = ReadFirst | WriteAuthMethod | ReadLogin | WriteLoginOk | WriteNoAuth | ReadCommand

  datatype UpOp =
    | WriteHello | ReadHello | WriteAuth | ReadAuthStatus | WriteRequest(data: bytes) | ReadAnswer

  // A final reply being written to the client; `error` is what its completion reports.
  datatype Reply = Reply(data: bytes, error: bool)

  // What the session received and handed to its two sockets so far.
  datatype History = History(first: bytes, login: bytes, command: bytes,
                             hello: bytes, status: bytes, answer: bytes,
                             toUp: bytes, toDown: bytes,
                             started: seq<Reply>, delivered: seq<Reply>, clients: nat)

  datatype State = State(join: Join, kind: Kind, mode: RelayMode, upsideSocks5: bool,
                         serverUdp: bool, clientUdp: bool,
                         host: bytes, port: u16, bindHost: bytes, bindPort: bytes,
                         authUser: Option<AuthUser>, buf: bytes,
                         down: Option<DownOp>, up: Option<UpOp>, replies: seq<Reply>,
                         hist: History)

  const INIT_JOIN := Join(false, false, false, false, false, false, true, true, true, [], 0)

  // After start(): the first read is in flight.
  const INIT := State(INIT_JOIN, Unknown, NoMode, false, false, false, [], 0, [], [], None, [],
                      Some(ReadFirst), None, [], History([], [], [], [], [], [], [], [], [], [], 0))

  // ---- Callbacks and joins ----

  // The session pointer and both callbacks are dropped.
  function Release(j: Join): Join {
    j.(attached := false, canComplete := false, canError := false)
  }

  function WhenComplete(j: Join): Join {
    Release(j.(fired := if j.canComplete then j.fired + [Completed] else j.fired))
  }

  function WhenError(j: Join): Join {
    Release(j.(fired := if j.canError then j.fired + [Errored] else j.fired))
  }

  function NeverGoThere(j: Join): Join {
    WhenError(j.(misuse := j.misuse + 1))
  }

  function CheckWhenComplete(j: Join): Join {
    if j.downError || j.upError then WhenError(j)
    else if j.completeDown && j.completeUp && j.attached then WhenComplete(j)
    else j
  }

  function WhenUpEnd(j: Join): Join {
    if j.completeUp then NeverGoThere(j) else CheckWhenComplete(j.(completeUp := true))
  }

  function WhenCompleteDown(j: Join): Join {
    if j.completeDown then NeverGoThere(j) else CheckWhenComplete(j.(completeDown := true))
  }

  function WhenDownEnd(j: Join, error: bool): Join {
    WhenCompleteDown(if error then j.(downError := true) else j)
  }

  function Fail(s: State): State {
    s.(join := WhenError(s.join))
  }

  // ---- Starting writes ----

  function DownData(op: DownOp): bytes {
    match op
    case WriteAuthMethod => [5, 2]
    case WriteLoginOk => [1, 0]
    case WriteNoAuth => [5, 0]
    case _ => []
  }

  function UpData(env: Env, op: UpOp): bytes {
    match op
    case WriteHello => [5, 1, if env.upUser == [] then 0 else 2]
    case WriteAuth => AuthFrame(env.upUser, env.upPwd)
    case WriteRequest(data) => data
    case _ => []
  }

  function StartDown(s: State, op: DownOp): State {
    s.(down := Some(op), hist := s.hist.(toDown := s.hist.toDown + DownData(op)))
  }

  function StartUp(env: Env, s: State, op: UpOp): State {
    s.(up := Some(op), hist := s.hist.(toUp := s.hist.toUp + UpData(env, op)))
  }

  function SendReply(s: State, r: Reply): State {
    s.(replies := s.replies + [r],
       hist := s.hist.(toDown := s.hist.toDown + r.data, started := s.hist.started + [r]))
  }

  // ---- Final replies of the two down-side servers ----

  const HEADER_ERROR := Reply([5, 255], true)
  const LOGIN_ERROR := Reply([1, 255], true)

  function Socks5Error(code: byte): Reply {
    Reply([5, code, 0, 1, 0, 0, 0, 0, 0, 0], true)
  }

  function Socks4Reply(code: byte): Reply {
    Reply([0, code, 0, 0, 0, 0, 0, 0], code != 90)
  }

  function Socks5End(s: State): State {
    match PrintReply(s.bindHost, s.bindPort, s.host)
    case None => Fail(s)
    case Some(data) =>
      if s.serverUdp && !(s.upsideSocks5 && s.clientUdp) then SendReply(s, Socks5Error(7))
      else SendReply(s, Reply(data, false))
  }

  // ---- The parent's hand-over between the sides ----

  function WhenUpReady(s: State): State {
    if s.join.readyUp then s.(join := NeverGoThere(s.join))
    else
      var t := s.(join := s.join.(readyUp := true));
      match s.kind
      case Socks5 => Socks5End(t)
      case Socks4 => SendReply(t, Socks4Reply(90))
      case HttpConnect => t
      case HttpOther => t
      case Unknown => t.(join := NeverGoThere(t.join))
  }

  function WhenUpReadyError(s: State): State {
    if s.join.readyUp then s.(join := NeverGoThere(s.join))
    else
      var t := s.(join := s.join.(readyUp := true, upError := true));
      match s.kind
      case Socks5 => SendReply(t, Socks5Error(1))
      case Socks4 => SendReply(t, Socks4Reply(91))
      case HttpConnect => t
      case HttpOther => t
      case Unknown => t.(join := NeverGoThere(t.join))
  }

  function WhenDownReady(env: Env, s: State): State {
    if s.join.readyDown || s.join.completeUp then s.(join := NeverGoThere(s.join))
    else
      var t := s.(join := s.join.(readyDown := true), clientUdp := false,
                  hist := s.hist.(clients := s.hist.clients + 1));
      StartUp(env, t, WriteHello)
  }

  // ---- Down-side handlers ----

  predicate IsConnectWord(d: bytes)
    requires |d| >= 7
  {
    && Lower(d[0]) == 99 && Lower(d[1]) == 111 && Lower(d[2]) == 110 && Lower(d[3]) == 110
    && Lower(d[4]) == 101 && Lower(d[5]) == 99 && Lower(d[6]) == 116
  }

  // P, G, H, D, O, T in either case.
  predicate IsOtherMethod(c: byte) {
    Lower(c) in [112, 103, 104, 100, 111, 116]
  }

  // `tail` is whatever memory holds after the octets received so far.
  function OnFirst(env: Env, s: State, data: bytes, tail: bytes): State
    requires |tail| >= 4
  {
    var d := data + tail;
    if |data| < 3 then Fail(s)
    else if d[0] == 5 && (d[1] == 2 || d[1] == 1) && (d[2] == 2 || d[2] == 0) then
      if |data| != 2 + (d[1] as int) then Fail(s)
      else OnGreeting(env, s.(kind := Socks5, upsideSocks5 := true), data)
    else if d[0] == 4 && (d[1] == 2 || d[1] == 1) then
      if env.disableSocks4 then Fail(s)
      else if |data| < 1 + 1 + 2 + 4 + 1 || tail[0] != 0 then Fail(s)
      else OnSocks4Header(env, s.(kind := Socks4, upsideSocks5 := true), data, tail[0])
    else if IsConnectWord(d) then s.(kind := HttpConnect, upsideSocks5 := true)
    else if IsOtherMethod(d[0]) then s.(kind := HttpOther, upsideSocks5 := true)
    else Fail(s)
  }

  function OnGreeting(env: Env, s: State, data: bytes): State {
    if |data| < 3 || |data| != 2 + (data[1] as int) then Fail(s)
    else if data[0] == 5 && data[1] == 1 && data[2] == 0 then
      var t := s.(buf := data[3..]);
      if env.NeedAuth() then Fail(t) else StartDown(t, WriteNoAuth)
    else if data[0] == 5 && data[1] > 0 then
      var methods := data[2..];
      var t := s.(buf := []);
      if 2 in methods then StartDown(t, if env.NeedAuth() then WriteAuthMethod else WriteNoAuth)
      else if env.NeedAuth() then SendReply(t, HEADER_ERROR)
      else StartDown(t, WriteNoAuth)
    else SendReply(s, HEADER_ERROR)
  }

  function SetAuthUser(s: State, a: AuthUser): State {
    s.(authUser := Some(a),
       join := s.join.(misuse := s.join.misuse + if s.join.attached then 0 else 1))
  }

  function OnSocks4Header(env: Env, s: State, data: bytes, past: byte): State {
    match Socks4Wire.ParsePacket(data, past)
    case None => Fail(s)
    case Some(p) =>
      var t := s.(host := p.host, port := p.port);
      if !env.NeedAuth() then OnSocks4Command(env, t, p.cmd)
      else if p.user == [] then SendReply(t, Socks4Reply(92))
      else
        match env.LookupUser(p.user)
        case None => SendReply(t, Socks4Reply(92))
        case Some(a) => OnSocks4Command(env, SetAuthUser(t, a), p.cmd)
  }

  // BIND is answered with an error, and then goes on like CONNECT.
  function OnSocks4Command(env: Env, s: State, cmd: byte): State {
    if cmd == 1 then WhenDownReady(env, s.(mode := ConnectMode, buf := []))
    else if cmd == 2 then
      WhenDownReady(env, SendReply(s.(buf := []), Socks4Reply(91)).(mode := BindMode))
    else Fail(s)
  }

  function OnLogin(env: Env, s: State, data: bytes): State {
    match ReadAuth(data)
    case None => Fail(s)
    case Some(l) =>
      match FindPair(env.users, l.user, l.pwd)
      case Some(a) => StartDown(SetAuthUser(s, a), WriteLoginOk)
      case None => SendReply(s, LOGIN_ERROR)
  }

  // BIND is answered with an error, and then goes on like CONNECT.
  function OnCommand(env: Env, s: State, data: bytes): State {
    match ReadRequest(env.v6, data)
    case None => Fail(s)
    case Some(r) =>
      var t := s.(host := r.host, port := r.port);
      if r.cmd == 1 then WhenDownReady(env, t.(mode := ConnectMode))
      else if r.cmd == 2 then WhenDownReady(env, SendReply(t, Socks5Error(7)).(mode := BindMode))
      else if r.cmd == 3 then
        if !t.upsideSocks5 then SendReply(t, Socks5Error(7))
        else WhenDownReady(env, t.(serverUdp := true, mode := UdpMode))
      else Fail(t)
  }

  // ---- Up-side handlers ----

  function ConnectWrite(env: Env, s: State): State {
    match EmitRequest(env.v6, s.mode, s.host, s.port)
    case None => Fail(s)
    case Some(data) =>
      StartUp(env, s.(clientUdp := s.clientUdp || s.mode == UdpMode), WriteRequest(data))
  }

  function OnHello(env: Env, s: State, data: bytes): State {
    if |data| < 2 || data[0] != 5 || (data[1] != 0 && data[1] != 2) then Fail(s)
    else if data[1] == 2 then
      if env.upUser == [] then Fail(s) else StartUp(env, s, WriteAuth)
    else ConnectWrite(env, s)
  }

  function OnAuthStatus(env: Env, s: State, data: bytes): State {
    if |data| < 2 || data[0] != 1 || data[1] != 0 then Fail(s) else ConnectWrite(env, s)
  }

  function UpEnd(s: State): State {
    s.(join := WhenUpEnd(s.join))
  }

  function OnAnswer(s: State, data: bytes): State {
    match ReadReply(data)
    case Short => Fail(s)
    case BadLength => Fail(s)
    case Refused => UpEnd(WhenUpReadyError(s))
    case Bound(h, p) => UpEnd(WhenUpReady(s.(bindHost := h, bindPort := p)))
  }

  // ---- Steps ----

  datatype Completion = Failed | Wrote(n: nat) | Got(data: bytes, tail: bytes)

  datatype Event = DownEvent(c: Completion) | UpEvent(c: Completion) | ReplyEvent(i: nat, c: Completion)

  predicate IsDownRead(op: DownOp) {
    op.ReadFirst? || op.ReadLogin? || op.ReadCommand?
  }

  predicate IsUpRead(op: UpOp) {
    op.ReadHello? || op.ReadAuthStatus? || op.ReadAnswer?
  }

  // What can happen next: an operation in flight completes. Reads into the fixed buffer are bounded by
  // it, and the read of the upstream answer waits for 8 octets.
  predicate Enabled(s: State, e: Event) {
    match e
    case DownEvent(c) =>
      s.down.Some? &&
      (match c
       case Failed => true
       case Wrote(_) => !IsDownRead(s.down.value)
       case Got(data, tail) =>
         IsDownRead(s.down.value)
         && if s.down.value.ReadFirst? then |tail| >= 4 else |data| <= MAX_LENGTH)
    case UpEvent(c) =>
      s.up.Some? &&
      (match c
       case Failed => true
       case Wrote(_) => !IsUpRead(s.up.value)
       case Got(data, _) =>
         IsUpRead(s.up.value) && |data| <= MAX_LENGTH && (s.up.value.ReadAnswer? ==> |data| >= 8))
    case ReplyEvent(i, c) => i < |s.replies| && !c.Got?
  }

  function DownStep(env: Env, s: State, op: DownOp, c: Completion): State
    requires c.Got? <==> IsDownRead(op) && !c.Failed?
    requires c.Got? && op.ReadFirst? ==> |c.tail| >= 4
  {
    if c.Failed? || (c.Wrote? && c.n != |DownData(op)|) then Fail(s)
    else
      match op
      case ReadFirst =>
        OnFirst(env, s.(buf := c.data, hist := s.hist.(first := c.data)), c.data, c.tail)
      case WriteAuthMethod => StartDown(s, ReadLogin)
      case ReadLogin => OnLogin(env, s.(hist := s.hist.(login := c.data)), c.data)
      case WriteLoginOk => StartDown(s, ReadCommand)
      case WriteNoAuth => StartDown(s, ReadCommand)
      case ReadCommand => OnCommand(env, s.(hist := s.hist.(command := c.data)), c.data)
  }

  function UpStep(env: Env, s: State, op: UpOp, c: Completion): State
    requires c.Got? <==> IsUpRead(op) && !c.Failed?
  {
    if c.Failed? || (c.Wrote? && c.n != |UpData(env, op)|) then Fail(s)
    else
      match op
      case WriteHello => StartUp(env, s, ReadHello)
      case ReadHello => OnHello(env, s.(hist := s.hist.(hello := c.data)), c.data)
      case WriteAuth => StartUp(env, s, ReadAuthStatus)
      case ReadAuthStatus => OnAuthStatus(env, s.(hist := s.hist.(status := c.data)), c.data)
      case WriteRequest(_) => StartUp(env, s, ReadAnswer)
      case ReadAnswer => OnAnswer(s.(hist := s.hist.(answer := c.data)), c.data)
  }

  function ReplyStep(s: State, r: Reply, c: Completion): State {
    if c.Failed? || (c.Wrote? && c.n != |r.data|) then Fail(s)
    else
      s.(join := WhenDownEnd(s.join, r.error),
         hist := s.hist.(delivered := s.hist.delivered + [r]))
  }

  function Step(env: Env, s: State, e: Event): State
    requires Enabled(s, e)
  {
    match e
    case DownEvent(c) => DownStep(env, s.(down := None), s.down.value, c)
    case UpEvent(c) => UpStep(env, s.(up := None), s.up.value, c)
    case ReplyEvent(i, c) =>
      ReplyStep(s.(replies := s.replies[..i] + s.replies[i + 1..]), s.replies[i], c)
  }

  // ---- Runs ----

  // A list of completions and the states before, between and after them.
  datatype Run = Run(events: seq<Event>, states: seq<State>) {
    predicate StepsAt(env: Env, i: nat)
      requires i < |events| && |states| == |events| + 1
    {
      Enabled(states[i], events[i]) && states[i + 1] == Step(env, states[i], events[i])
    }

    ghost predicate Of(env: Env) {
      && |states| == |events| + 1 && states[0] == INIT
      && forall i :: 0 <= i < |events| ==> StepsAt(env, i)
    }

    function Last(): State
      requires states != []
    {
      states[|states| - 1]
    }

    function Upto(k: nat): Run
      requires k <= |events| && |states| == |events| + 1
    {
      Run(events[..k], states[..k + 1])
    }

    function Extended(env: Env, e: Event): Run
      requires states != [] && Enabled(Last(), e)
    {
      Run(events + [e], states + [Step(env, Last(), e)])
    }
  }

  lemma UptoIsRun(env: Env, run: Run, k: nat)
    requires run.Of(env) && k <= |run.events|
    ensures run.Upto(k).Of(env) && run.Upto(k).Last() == run.states[k]
  {
    var front := run.Upto(k);
    forall i | 0 <= i < k
      ensures front.StepsAt(env, i)
    {
      assert run.StepsAt(env, i);
    }
  }

  lemma ExtendedIsRun(env: Env, run: Run, e: Event)
    requires run.Of(env) && Enabled(run.Last(), e)
    ensures run.Extended(env, e).Of(env) && run.Extended(env, e).Last() == Step(env, run.Last(), e)
  {
    var t := run.Extended(env, e);
    forall i | 0 <= i < |t.events|
      ensures t.StepsAt(env, i)
    {
      if i < |run.events| {
        assert run.StepsAt(env, i);
      }
    }
  }

  // A request for an HTTP proxy leaves this model.
  predicate IsHttp(s: State) {
    s.kind.HttpConnect? || s.kind.HttpOther?
  }
}
