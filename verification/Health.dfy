// When an upstream server may be picked: the flags its test callbacks set, against the history of the
// events behind them.
module Health {

  // Clock reads; zero, the epoch, stands for "never" in the fields below.
  type Stamp = t: int | t > 0 witness 1

  datatype Event =
    | TcpOk(now: Stamp)          // the TCP test succeeded
    | TcpFail
    | ConnectOk(now: Stamp)      // the HTTPS test through the server succeeded
    | ConnectFail
    | RelayOnline(now: Stamp)    // a relay session reached the server
    | RelayOffline
    | Clean                      // cleanAllCheckState
    | Enable
    | Disable

  datatype Flags = Flags(lastOnlineTime: int, lastConnectTime: int, lastConnectFailed: bool,
                         isOffline: bool, isManualDisable: bool)

  function Fresh(disable: bool): Flags {
    Flags(0, 0, true, true, disable)
  }

  // What the callbacks assign.
  function Apply(f: Flags, e: Event): Flags {
    match e
    case TcpOk(now) =>
      f.(lastConnectFailed := if f.isOffline then false else f.lastConnectFailed,
         lastOnlineTime := now, isOffline := false)
    case TcpFail => f.(isOffline := true)
    case ConnectOk(now) => f.(lastConnectTime := now, lastConnectFailed := false)
    case ConnectFail => f.(lastConnectFailed := true)
    case RelayOnline(now) => f.(isOffline := false, lastOnlineTime := now)
    case RelayOffline => f.(isOffline := true)
    case Clean =>
      f.(isOffline := false, lastConnectFailed := false, lastOnlineTime := 0, lastConnectTime := 0)
    case Enable => f.(isManualDisable := false)
    case Disable => f.(isManualDisable := true)
  }

  function Replay(disable: bool, es: seq<Event>): Flags {
    if es == [] then Fresh(disable) else Apply(Replay(disable, es[..|es| - 1]), es[|es| - 1])
  }

  // checkServer, for a server that exists.
  predicate Usable(disableConnectTest: bool, f: Flags) {
    if disableConnectTest then !f.isManualDisable
    else
      && f.lastConnectTime != 0 && f.lastOnlineTime != 0
      && !f.lastConnectFailed && !f.isOffline && !f.isManualDisable
  }

  // ---- Histories ----

  datatype Sort = OnlineResult | OfflineResult | ConnectSuccess | ConnectFailure | Recovery | Cleaned
                | Enabled | Disabled

  // Event `i` is of this sort. A recovery is a TCP success while the latest TCP result was bad, or
  // there was none yet; cleaning counts as a good result.
  predicate Is(es: seq<Event>, i: nat, sort: Sort)
    requires i < |es|
    decreases i, 2
  {
    var e := es[i];
    match sort
    case OnlineResult => e.TcpOk? || e.RelayOnline?
    case OfflineResult => e.TcpFail? || e.RelayOffline?
    case ConnectSuccess => e.ConnectOk?
    case ConnectFailure => e.ConnectFail?
    case Recovery => e.TcpOk? && !WasOnline(es, i)
    case Cleaned => e.Clean?
    case Enabled => e.Enable?
    case Disabled => e.Disable?
  }

  // The position of the latest event of a sort among the first `k`; -1 if there is none.
  function Latest(es: seq<Event>, k: nat, sort: Sort): (r: int)
    requires k <= |es|
    ensures -1 <= r < k
    decreases k, 0
  {
    if k == 0 then -1 else if Is(es, k - 1, sort) then k - 1 else Latest(es, k - 1, sort)
  }

  predicate WasOnline(es: seq<Event>, k: nat)
    requires k <= |es|
    decreases k, 1
  {
    || Latest(es, k, OnlineResult) > Latest(es, k, OfflineResult)
    || Latest(es, k, Cleaned) > Latest(es, k, OfflineResult)
  }

  // `Latest` is what its name says.
  lemma {:induction false} LatestIsLatest(es: seq<Event>, k: nat, sort: Sort)
    requires k <= |es|
    ensures var r := Latest(es, k, sort);
            && (r >= 0 ==> Is(es, r, sort))
            && forall i :: 0 <= i < k && i > r ==> !Is(es, i, sort)
    decreases k
  {
    if k > 0 {
      LatestIsLatest(es, k - 1, sort);
    }
  }

  // Since the last clean both tests succeeded; the latest TCP result is good; the latest connect failure
  // was followed by a connect success or a recovery; and the server is not manually disabled.
  predicate HistoryUsable(disable: bool, es: seq<Event>) {
    var n := |es|;
    && Latest(es, n, OnlineResult) > Latest(es, n, Cleaned)
    && Latest(es, n, ConnectSuccess) > Latest(es, n, Cleaned)
    && Latest(es, n, OnlineResult) > Latest(es, n, OfflineResult)
    && (Latest(es, n, ConnectFailure) < Latest(es, n, ConnectSuccess)
        || Latest(es, n, ConnectFailure) < Latest(es, n, Recovery))
    && NotDisabled(disable, es)
  }

  predicate NotDisabled(disable: bool, es: seq<Event>) {
    var n := |es|;
    if disable then Latest(es, n, Enabled) > Latest(es, n, Disabled)
    else Latest(es, n, Enabled) >= Latest(es, n, Disabled)
  }

  // The latest positions of all sorts.
  datatype Marks = Marks(online: int, offline: int, success: int, failure: int, recovery: int,
                         cleaned: int, enabled: int, disabled: int)

  function MarksOf(es: seq<Event>, k: nat): Marks
    requires k <= |es|
  {
    Marks(Latest(es, k, OnlineResult), Latest(es, k, OfflineResult), Latest(es, k, ConnectSuccess),
          Latest(es, k, ConnectFailure), Latest(es, k, Recovery), Latest(es, k, Cleaned),
          Latest(es, k, Enabled), Latest(es, k, Disabled))
  }

  predicate Below(m: Marks, k: nat) {
    && m.online < k && m.offline < k && m.success < k && m.failure < k && m.recovery < k
    && m.cleaned < k && m.enabled < k && m.disabled < k
  }

  // What an event at position `k` does to the marks.
  function Mark(m: Marks, e: Event, k: nat): Marks {
    match e
    case TcpOk(_) =>
      var good := m.online > m.offline || m.cleaned > m.offline;
      m.(online := k, recovery := if good then m.recovery else k)
    case TcpFail => m.(offline := k)
    case ConnectOk(_) => m.(success := k)
    case ConnectFail => m.(failure := k)
    case RelayOnline(_) => m.(online := k)
    case RelayOffline => m.(offline := k)
    case Clean => m.(cleaned := k)
    case Enable => m.(enabled := k)
    case Disable => m.(disabled := k)
  }

  lemma MarksStep(es: seq<Event>, k: nat)
    requires k < |es|
    ensures Below(MarksOf(es, k), k)
    ensures MarksOf(es, k + 1) == Mark(MarksOf(es, k), es[k], k)
  {
    var e := es[k];
    assert Is(es, k, Recovery) <==> e.TcpOk? && !WasOnline(es, k);
    assert forall sort ::
      Latest(es, k + 1, sort) == if Is(es, k, sort) then k else Latest(es, k, sort);
  }

  // What each flag says about the history.
  predicate FlagsTell(disable: bool, f: Flags, m: Marks) {
    && (f.isOffline <==> !(m.online > m.offline || m.cleaned > m.offline))
    && (f.lastOnlineTime != 0 <==> m.online > m.cleaned)
    && (f.lastConnectTime != 0 <==> m.success > m.cleaned)
    && (!f.lastConnectFailed <==>
          m.failure < m.success || m.failure < m.recovery || m.failure < m.cleaned)
    && (!f.isManualDisable <==>
          if disable then m.enabled > m.disabled else m.enabled >= m.disabled)
  }

  lemma ApplyTells(disable: bool, f: Flags, m: Marks, e: Event, k: nat)
    requires FlagsTell(disable, f, m) && Below(m, k)
    ensures FlagsTell(disable, Apply(f, e), Mark(m, e, k))
  {
  }

  lemma {:induction false} ReplayTells(disable: bool, es: seq<Event>, k: nat)
    requires k <= |es|
    ensures FlagsTell(disable, Replay(disable, es[..k]), MarksOf(es, k))
    decreases k
  {
    hide FlagsTell, MarksOf;
    if k > 0 {
      ReplayTells(disable, es, k - 1);
      assert es[..k][..k - 1] == es[..k - 1];
      MarksStep(es, k - 1);
      ApplyTells(disable, Replay(disable, es[..k - 1]), MarksOf(es, k - 1), es[k - 1], k - 1);
    } else {
      NothingTells(disable, es);
    }
  }

  function StampOf(e: Event): int {
    match e
    case TcpOk(now) => now
    case ConnectOk(now) => now
    case RelayOnline(now) => now
    case _ => 0
  }

  // The two times are those of the latest good results, or "never" after a clean.
  predicate TimesTell(f: Flags, es: seq<Event>, m: Marks)
    requires m.online < |es| && m.success < |es|
  {
    && f.lastOnlineTime == (if m.online >= 0 && m.online > m.cleaned then StampOf(es[m.online]) else 0)
    && f.lastConnectTime == (if m.success >= 0 && m.success > m.cleaned then StampOf(es[m.success]) else 0)
  }

  lemma ApplyTimesTell(f: Flags, es: seq<Event>, m: Marks, k: nat)
    requires k < |es| && Below(m, k) && -1 <= m.cleaned && TimesTell(f, es, m)
    ensures TimesTell(Apply(f, es[k]), es, Mark(m, es[k], k))
  {
  }

  lemma {:induction false} ReplayTimesTell(disable: bool, es: seq<Event>, k: nat)
    requires k <= |es|
    ensures TimesTell(Replay(disable, es[..k]), es, MarksOf(es, k))
    decreases k
  {
    hide TimesTell, Latest, Is;
    if k > 0 {
      ReplayTimesTell(disable, es, k - 1);
      MarksStep(es, k - 1);
      assert es[..k][..k - 1] == es[..k - 1];
      ApplyTimesTell(Replay(disable, es[..k - 1]), es, MarksOf(es, k - 1), k - 1);
    } else {
      NoTimes(disable, es);
    }
  }

  lemma NoTimes(disable: bool, es: seq<Event>)
    ensures TimesTell(Replay(disable, es[..0]), es, MarksOf(es, 0))
  {
  }

  lemma NothingTells(disable: bool, es: seq<Event>)
    ensures FlagsTell(disable, Replay(disable, es[..0]), MarksOf(es, 0))
  {
  }

  // Refinement: after any events, a server is usable by its flags exactly when it is by its history; with
  // connect tests switched off only the manual switch counts.
  lemma UsableIffHistory(disable: bool, es: seq<Event>)
    ensures Usable(false, Replay(disable, es)) <==> HistoryUsable(disable, es)
    ensures Usable(true, Replay(disable, es)) <==> NotDisabled(disable, es)
  {
    assert es[..|es|] == es;
    ReplayTells(disable, es, |es|);
  }
}
