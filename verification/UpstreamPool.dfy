// The upstream pool as the objects of the source: servers whose flags the test callbacks assign, cursors
// passed by reference, and the selection methods, each proved against Selection and Health.
module UpstreamPool {
  import opened Bytes
  import opened Selection
  import H = Health

  // One server of the configuration.
  datatype UpstreamInfo = UpstreamInfo(name: bytes, host: bytes, port: u16, disable: bool)

  datatype Config = Config(upstream: seq<UpstreamInfo>, disableConnectTest: bool,
                           upstreamSelectRule: Rule, serverChangeTime: int)

  class UpstreamServer {
    const index: nat
    const info: UpstreamInfo
    var lastOnlineTime: int
    var lastConnectTime: int
    var lastConnectFailed: bool
    var isOffline: bool
    var isManualDisable: bool

    function Flags(): H.Flags
      reads this
    {
      H.Flags(lastOnlineTime, lastConnectTime, lastConnectFailed, isOffline, isManualDisable)
    }

    constructor (index: nat, info: UpstreamInfo)
      ensures this.index == index && this.info == info && Flags() == H.Fresh(info.disable)
    {
      this.index := index;
      this.info := info;
      lastOnlineTime, lastConnectTime := 0, 0;
      lastConnectFailed, isOffline, isManualDisable := true, true, info.disable;
    }

    method OnTcpTest(now: H.Stamp, passed: bool)
      modifies this
      ensures Flags() == H.Apply(old(Flags()), if passed then H.TcpOk(now) else H.TcpFail)
    {
      if !passed {
        isOffline := true;
        return;
      }
      if isOffline {
        lastConnectFailed := false;
      }
      lastOnlineTime := now;
      isOffline := false;
    }

    method OnConnectTest(now: H.Stamp, passed: bool)
      modifies this
      ensures Flags() == H.Apply(old(Flags()), if passed then H.ConnectOk(now) else H.ConnectFail)
    {
      if !passed {
        lastConnectFailed := true;
        return;
      }
      lastConnectTime := now;
      lastConnectFailed := false;
    }

    method UpdateOnlineTime(now: H.Stamp)
      modifies this
      ensures Flags() == H.Apply(old(Flags()), H.RelayOnline(now))
    {
      isOffline := false;
      lastOnlineTime := now;
    }

    method CleanCheckState()
      modifies this
      ensures Flags() == H.Apply(old(Flags()), H.Clean)
    {
      isOffline := false;
      lastConnectFailed := false;
      lastOnlineTime := 0;
      lastConnectTime := 0;
    }
  }

  // A `size_t` handed to the selection methods by reference.
  class Cursor {
    var at: nat

    constructor ()
      ensures at == 0
    {
      at := 0;
    }
  }

  class Pool {
    var config: Config
    var pool: seq<UpstreamServer>
    const lastUseUpstreamIndex: Cursor
    var lastChangeUpstreamTime: int

    constructor (now: int)
      ensures fresh(lastUseUpstreamIndex) && lastUseUpstreamIndex.at == 0
      ensures pool == [] && lastChangeUpstreamTime == now
    {
      config := Config([], false, Random, 0);
      pool := [];
      lastUseUpstreamIndex := new Cursor();
      lastChangeUpstreamTime := now;
    }

    // A server's index is its position.
    ghost predicate Valid()
      reads this`pool, pool
    {
      forall i :: 0 <= i < |pool| ==> pool[i].index == i
    }

    predicate InRange(cursor: Cursor)
      reads this`pool, cursor
    {
      pool == [] || cursor.at < |pool|
    }

    predicate CheckServer(u: UpstreamServer)
      reads this`config, u
    {
      H.Usable(config.disableConnectTest, u.Flags())
    }

    ghost function UsableFlags(k: nat): (ok: seq<bool>)
      requires k <= |pool|
      reads this`config, this`pool, pool
      ensures |ok| == k && forall i :: 0 <= i < k ==> ok[i] == CheckServer(pool[i])
    {
      if k == 0 then [] else UsableFlags(k - 1) + [CheckServer(pool[k - 1])]
    }

    // Which servers are usable now.
    ghost function Oks(): (ok: seq<bool>)
      reads this`config, this`pool, pool
      ensures |ok| == |pool|
      ensures forall i :: 0 <= i < |pool| ==> ok[i] == CheckServer(pool[i])
    {
      UsableFlags(|pool|)
    }

    // A server whose flags were set by the events `es` counts as usable exactly when their history says so.
    lemma OkIffHistory(i: nat, es: seq<H.Event>)
      requires i < |pool| && pool[i].Flags() == H.Replay(pool[i].info.disable, es)
      ensures Oks()[i] <==>
              if config.disableConnectTest then H.NotDisabled(pool[i].info.disable, es)
              else H.HistoryUsable(pool[i].info.disable, es)
    {
      H.UsableIffHistory(pool[i].info.disable, es);
    }

    ghost function ServerAt(r: Option<nat>): UpstreamServer?
      requires r.Some? ==> r.value < |pool|
      reads this`pool
    {
      if r.Some? then pool[r.value] else null
    }

    method SetConfig(c: Config)
      modifies this
      ensures Valid() && config == c && |pool| == |c.upstream| && fresh(pool)
      ensures forall i :: 0 <= i < |pool| ==>
                            pool[i].info == c.upstream[i] && pool[i].Flags() == H.Fresh(c.upstream[i].disable)
      ensures lastChangeUpstreamTime == old(lastChangeUpstreamTime)
    {
      config := c;
      pool := [];
      var i := 0;
      while i != |c.upstream|
        invariant 0 <= i <= |c.upstream| && |pool| == i
        invariant config == c && lastChangeUpstreamTime == old(lastChangeUpstreamTime)
        invariant fresh(pool)
        invariant forall j :: 0 <= j < i ==>
                                && pool[j].index == j && pool[j].info == c.upstream[j]
                                && pool[j].Flags() == H.Fresh(c.upstream[j].disable)
        decreases |c.upstream| - i
      {
        var u := new UpstreamServer(i, c.upstream[i]);
        pool := pool + [u];
        i := i + 1;
      }
    }

    method ForceSetLastUseUpstreamIndex(i: nat)
      modifies lastUseUpstreamIndex
      ensures lastUseUpstreamIndex.at == if i < |pool| then i else old(lastUseUpstreamIndex.at)
    {
      if i < |pool| {
        lastUseUpstreamIndex.at := i;
      }
    }

    // Both scans end exactly because the cursor is in range or some server is usable.
    ghost predicate ScanEnds(c: nat)
      reads this`config, this`pool, pool
    {
      pool == [] || c < |pool| || SomeUsable(Oks())
    }

    lemma UsableIsFound(c: nat)
      requires pool != [] && ScanEnds(c)
      ensures c >= |pool| ==> NextUsable(Oks(), c).Some? && LastUsable(Oks(), c).Some?
    {
      if c >= |pool| {
        PastTheEnd(Oks(), c);
        NextIsNearest(Oks(), |pool| - 1);
        LastIsNearest(Oks(), 0);
      }
    }

    method GetNextServer(cursor: Cursor) returns (s: UpstreamServer?)
      requires ScanEnds(cursor.at)
      modifies cursor
      ensures var r := NextUsable(old(Oks()), old(cursor.at));
              && (r.Some? ==> r.value < |pool|)
              && s == ServerAt(r) && cursor.at == (if r.Some? then r.value else old(cursor.at))
    {
      hide CheckServer, UsableFlags;
      if |pool| == 0 {
        return null;
      }
      var start := cursor.at;
      var n := |pool|;
      ghost var ok := Oks();
      ghost var k := n;
      UsableIsFound(start);
      while true
        invariant 0 < k <= n == |pool| && ok == Oks()
        invariant NextUsable(ok, start) == ScanAfter(ok, cursor.at, k)
        invariant start < n ==> cursor.at == Ahead(n, start, n - k)
        decreases k
      {
        cursor.at := cursor.at + 1;
        if cursor.at >= n {
          cursor.at := 0;
        }
        if CheckServer(pool[cursor.at]) {
          return pool[cursor.at];
        }
        k := k - 1;
        if start == cursor.at {
          return null;
        }
      }
    }

    method TryGetLastServer(cursor: Cursor) returns (s: UpstreamServer?)
      requires ScanEnds(cursor.at)
      modifies cursor
      ensures var r := LastUsable(old(Oks()), old(cursor.at));
              && (r.Some? ==> r.value < |pool|)
              && s == ServerAt(r) && cursor.at == (if r.Some? then r.value else old(cursor.at))
    {
      hide CheckServer, UsableFlags, Oks, ScanFrom;
      if |pool| == 0 {
        return null;
      }
      var start := cursor.at;
      var n := |pool|;
      ghost var ok := Oks();
      ghost var k := n;
      UsableIsFound(start);
      while true
        invariant 0 < k <= n == |pool| && ok == Oks()
        invariant start >= n && k == n ==> cursor.at == start
        invariant start < n || k < n ==> cursor.at < n
        invariant LastUsable(ok, start) == ScanFrom(ok, if cursor.at >= n then 0 else cursor.at, k)
        invariant start < n ==> cursor.at == Ahead(n, start, n - k)
        decreases k
      {
        if cursor.at >= n {
          cursor.at := 0;
        }
        if CheckServer(pool[cursor.at]) {
          return pool[cursor.at];
        }
        ScanFromStep(ok, cursor.at, k);
        cursor.at := cursor.at + 1;
        if cursor.at >= n {
          cursor.at := 0;
        }
        k := k - 1;
        if start == cursor.at {
          return null;
        }
      }
    }

    method FilterValidServer() returns (r: seq<UpstreamServer>)
      ensures var us := UsableUpTo(Oks(), |Oks()|);
              |r| == |us| && forall i :: 0 <= i < |r| ==> us[i] < |pool| && r[i] == pool[us[i]]
    {
      r := [];
      ghost var ok := Oks();
      for i := 0 to |pool|
        invariant var us := UsableUpTo(ok, i);
                  |r| == |us| && forall j :: 0 <= j < |r| ==> us[j] < |pool| && r[j] == pool[us[j]]
      {
        assert ok[i] == CheckServer(pool[i]);
        if CheckServer(pool[i]) {
          r := r + [pool[i]];
        }
      }
    }

    // What a rule asks of its caller: that force_only_one finds a server at the cursor, that a scan ends,
    // and that a random number is within the usable servers.
    ghost predicate CanPick(rule: Rule, cursor: Cursor, draw: nat)
      reads this`config, this`pool, pool, cursor
    {
      Valid()
      && match rule
         case ForceOnlyOne => cursor.at < |pool|
         case Loop => ScanEnds(cursor.at)
         case OneByOne => ScanEnds(cursor.at)
         case ChangeByTime => ScanEnds(cursor.at)
         case _ => var us := UsableUpTo(Oks(), |Oks()|); us != [] ==> draw < |us|
    }

    // The five rules. `now` and `later` are the two clock reads of change_by_time, `draw` the random number.
    method PickByRule(rule: Rule, cursor: Cursor, now: int, later: int, draw: nat)
      returns (s: UpstreamServer?)
      requires CanPick(rule, cursor, draw)
      modifies cursor, this`lastChangeUpstreamTime
      ensures var c := Choose(rule, old(Oks()), old(cursor.at), old(lastChangeUpstreamTime),
                              config.serverChangeTime, now, later, draw);
              && (c.server.Some? ==> c.server.value < |pool|)
              && s == ServerAt(c.server) && cursor.at == c.cursor
              && lastChangeUpstreamTime == c.lastChange
    {
      hide CheckServer, UsableFlags, NextUsable, LastUsable, UsableUpTo;
      ghost var ok := Oks();
      match rule {
        case ForceOnlyOne =>
          s := pool[cursor.at];
        case Loop =>
          s := GetNextServer(cursor);
        case OneByOne =>
          s := TryGetLastServer(cursor);
        case ChangeByTime =>
          if now - lastChangeUpstreamTime > config.serverChangeTime {
            s := GetNextServer(cursor);
            lastChangeUpstreamTime := later;
          } else {
            s := TryGetLastServer(cursor);
          }
        case _ =>
          var rs := FilterValidServer();
          if |rs| > 0 {
            s := rs[draw];
            cursor.at := s.index;
          } else {
            s := null;
          }
      }
    }

    // Despite its name, the flag allows the global rule for `inherit`.
    method GetServerByHint(rule: Rule, cursor: Cursor, dontFallbackToGlobal: bool,
                           now: int, later: int, draw: nat)
      returns (s: UpstreamServer?)
      requires (rule.Inherit? && !dontFallbackToGlobal)
            || CanPick(if rule.Inherit? then config.upstreamSelectRule else rule, cursor, draw)
      modifies cursor, this`lastChangeUpstreamTime
      ensures old(Valid()) ==> Valid()
      ensures s != null || old(InRange(cursor)) ==> InRange(cursor)
      ensures rule.Inherit? && !dontFallbackToGlobal ==>
                && s == null && cursor.at == old(cursor.at)
                && lastChangeUpstreamTime == old(lastChangeUpstreamTime)
      ensures !(rule.Inherit? && !dontFallbackToGlobal) ==>
                var c := Choose(if rule.Inherit? then config.upstreamSelectRule else rule, old(Oks()),
                                old(cursor.at), old(lastChangeUpstreamTime), config.serverChangeTime,
                                now, later, draw);
                && (c.server.Some? ==> c.server.value < |pool|)
                && s == ServerAt(c.server) && cursor.at == c.cursor
                && lastChangeUpstreamTime == c.lastChange
    {
      hide CheckServer, UsableFlags, Choose;
      var theRule := rule;
      if theRule.Inherit? {
        if !dontFallbackToGlobal {
          return null;
        } else {
          theRule := config.upstreamSelectRule;
        }
      }
      ChoiceIsUsable(theRule, Oks(), cursor.at, lastChangeUpstreamTime, config.serverChangeTime,
                     now, later, draw);
      s := PickByRule(theRule, cursor, now, later, draw);
    }

    method GetServerGlobal(now: int, later: int, draw: nat) returns (s: UpstreamServer?)
      requires CanPick(config.upstreamSelectRule, lastUseUpstreamIndex, draw)
      modifies lastUseUpstreamIndex, this`lastChangeUpstreamTime
      ensures Valid()
      ensures s != null || old(InRange(lastUseUpstreamIndex)) ==> InRange(lastUseUpstreamIndex)
      ensures var c := Choose(config.upstreamSelectRule, old(Oks()), old(lastUseUpstreamIndex.at),
                              old(lastChangeUpstreamTime), config.serverChangeTime, now, later, draw);
              && (c.server.Some? ==> c.server.value < |pool|)
              && s == ServerAt(c.server) && lastUseUpstreamIndex.at == c.cursor
              && lastChangeUpstreamTime == c.lastChange
    {
      s := GetServerByHint(config.upstreamSelectRule, lastUseUpstreamIndex, true, now, later, draw);
    }
  }
}
