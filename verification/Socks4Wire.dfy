// The SOCKS4 and SOCKS4a request packet: the NUL-index scan, the split between the two forms, and the
// translation of an accepted packet into the SOCKS5 request sent upstream.
module Socks4Wire {
  import opened Bytes
  import opened Socks5Wire
  import Ipv4Text

  // ---- The scan for NUL octets ----

  // The positions from `from` on that hold a NUL, in increasing order.
  function Nuls(d: bytes, from: nat): (r: seq<nat>)
    decreases |d| - from
  {
    if from >= |d| then []
    else (if d[from] == 0 then [from] else []) + Nuls(d, from + 1)
  }

  lemma {:induction false} NulsAppend(d: bytes, from: nat, i: nat)
    requires from <= i < |d|
    ensures Nuls(d[..i + 1], from) == Nuls(d[..i], from) + if d[i] == 0 then [i] else []
    decreases i - from
  {
    if from < i {
      NulsAppend(d, from + 1, i);
    } else {
      assert Nuls(d[..i + 1], i + 1) == [];
    }
  }

  // A stretch without NULs contributes nothing.
  lemma {:induction false} NulsSkip(d: bytes, from: nat, to: nat)
    requires from <= to <= |d| && forall i :: from <= i < to ==> d[i] != 0
    ensures Nuls(d, from) == Nuls(d, to)
    decreases |d| - from
  {
    if from < to {
      NulsSkip(d, from + 1, to);
    }
  }

  lemma NulsNext(d: bytes, from: nat, k: nat)
    requires from <= k < |d| && d[k] == 0 && forall i :: from <= i < k ==> d[i] != 0
    ensures Nuls(d, from) == [k] + Nuls(d, k + 1)
  {
    NulsSkip(d, from, k);
  }

  lemma {:induction false} NulsFirst(d: bytes, from: nat)
    requires from <= |d|
    ensures var r := Nuls(d, from);
            if r == [] then forall i :: from <= i < |d| ==> d[i] != 0
            else && from <= r[0] < |d| && d[r[0]] == 0
                 && (forall i :: from <= i < r[0] ==> d[i] != 0)
                 && r[1..] == Nuls(d, r[0] + 1)
    decreases |d| - from
  {
    if from < |d| {
      var rest := Nuls(d, from + 1);
      if d[from] == 0 {
        assert Nuls(d, from) == [from] + rest;
      } else {
        NulsFirst(d, from + 1);
        assert Nuls(d, from) == rest;
      }
    }
  }

  method FindNuls(d: bytes) returns (nullByteIndex: seq<nat>)
    requires |d| >= 8
    ensures nullByteIndex == Nuls(d, 8)
  {
    nullByteIndex := [];
    var i := 8;
    assert Nuls(d[..8], 8) == [];
    while i < |d|
      invariant 8 <= i <= |d|
      invariant nullByteIndex == Nuls(d[..i], 8)
    {
      NulsAppend(d, 8, i);
      if d[i] == 0 {
        nullByteIndex := nullByteIndex + [i];
      }
      i := i + 1;
    }
    assert d[..i] == d;
  }

  // ---- The packet ----

  datatype Packet = Packet(cmd: byte, user: bytes, host: bytes, port: u16)

  predicate IsSocks4a(data: bytes)
    requires |data| >= 8
  {
    data[4] == 0 && data[5] == 0 && data[6] == 0 && data[7] != 0
  }

  // The header analysis. `past` is the octet in memory just after the received ones: the terminator
  // test of the source looks at it instead of the last octet received.
  function ParsePacket(data: bytes, past: byte): (r: Option<Packet>)
    ensures r.Some? ==> past == 0 && |data| >= 9 && r.value.cmd == data[1]
  {
    if |data| < 1 + 1 + 2 + 4 + 1 || past != 0 then None
    else
      var nul := Nuls(data, 8);
      var port := PortOf(data[2], data[3]);
      NulsFirst(data, 8);
      if IsSocks4a(data) then
        if |nul| != 2 then None
        else
          NulsFirst(data, nul[0] + 1);
          if nul[1] - nul[0] < 2 then None
          else Some(Packet(data[1], data[8..nul[0]], data[nul[0] + 1..nul[1]], port))
      else if |nul| != 1 then None
      else Some(Packet(data[1], data[8..nul[0]], Ipv4Text.Print(data[4..8]), port))
  }

  // The same analysis as the handler runs it, on the indexes its loop collects.
  method Analyse(data: bytes, past: byte) returns (r: Option<Packet>)
    ensures r == ParsePacket(data, past)
  {
    var len := |data|;
    var pLenOk := len >= 1 + 1 + 2 + 4 + 1;
    var pEndWithNull := past == 0;
    if !pLenOk || !pEndWithNull {
      return None;
    }
    var nullByteIndex := FindNuls(data);
    NulsFirst(data, 8);
    var host: bytes;
    if IsSocks4a(data) {
      if |nullByteIndex| != 2 {
        return None;
      }
      NulsFirst(data, nullByteIndex[0] + 1);
      if nullByteIndex[1] - nullByteIndex[0] < 2 {
        return None;
      }
      host := data[nullByteIndex[0] + 1..nullByteIndex[1]];
    } else {
      if |nullByteIndex| != 1 {
        return None;
      }
      host := Ipv4Text.Print(data[4..8]);
    }
    var port := PortOf(data[2], data[3]);
    return Some(Packet(data[1], data[8..nullByteIndex[0]], host, port));
  }

  // The two well-formed packets of the protocol.
  function Plain(cmd: byte, port: bytes, ip: bytes, user: bytes): bytes {
    [4, cmd] + port + ip + user + [0]
  }

  function Named(cmd: byte, port: bytes, x: byte, user: bytes, host: bytes): bytes {
    [4, cmd] + port + [0, 0, 0, x] + user + [0] + host + [0]
  }

  predicate PlainOk(port: bytes, ip: bytes, user: bytes) {
    && |port| == 2 && |ip| == 4 && 0 !in user
    && !(ip[0] == 0 && ip[1] == 0 && ip[2] == 0 && ip[3] != 0)
  }

  predicate NamedOk(port: bytes, x: byte, user: bytes, host: bytes) {
    |port| == 2 && x != 0 && 0 !in user && host != [] && 0 !in host
  }

  lemma ParsePlain(cmd: byte, port: bytes, ip: bytes, user: bytes)
    requires PlainOk(port, ip, user)
    ensures ParsePacket(Plain(cmd, port, ip, user), 0)
         == Some(Packet(cmd, user, Ipv4Text.Print(ip), PortOf(port[0], port[1])))
  {
    var d := Plain(cmd, port, ip, user);
    var k := 8 + |user|;
    assert d[8..k] == user && d[k] == 0 && |d| == k + 1;
    assert forall i :: 8 <= i < k ==> d[i] == user[i - 8];
    NulsNext(d, 8, k);
    assert Nuls(d, k + 1) == [];
    assert d[4..8] == ip;
  }

  lemma NamedLayout(d: bytes, cmd: byte, port: bytes, x: byte, user: bytes, host: bytes)
    requires NamedOk(port, x, user, host) && d == Named(cmd, port, x, user, host)
    ensures var k := 8 + |user|;
            var m := k + 1 + |host|;
            && |d| == m + 1 && d[1] == cmd && d[2..4] == port
            && d[4] == 0 && d[5] == 0 && d[6] == 0 && d[7] == x
            && d[8..k] == user && d[k] == 0 && d[k + 1..m] == host && d[m] == 0
  {
  }

  lemma NamedScan(d: bytes, k: nat, m: nat)
    requires 8 <= k < m == |d| - 1 && d[k] == 0 && d[m] == 0
    requires 0 !in d[8..k] && 0 !in d[k + 1..m]
    ensures Nuls(d, 8) == [k, m]
  {
    assert forall i :: 8 <= i < k ==> d[i] == d[8..k][i - 8];
    assert forall i :: k + 1 <= i < m ==> d[i] == d[k + 1..m][i - k - 1];
    NulsNext(d, 8, k);
    NulsNext(d, k + 1, m);
    assert Nuls(d, m + 1) == [];
  }

  lemma ParseNamed(cmd: byte, port: bytes, x: byte, user: bytes, host: bytes)
    requires NamedOk(port, x, user, host)
    ensures ParsePacket(Named(cmd, port, x, user, host), 0)
         == Some(Packet(cmd, user, host, PortOf(port[0], port[1])))
  {
    var d := Named(cmd, port, x, user, host);
    NamedLayout(d, cmd, port, x, user, host);
    assert d[2] == d[2..4][0] && d[3] == d[2..4][1];
    NamedScan(d, 8 + |user|, 9 + |user| + |host|);
  }

  ghost predicate WellFormed(data: bytes, cmd: byte) {
    || (exists port, ip, user :: PlainOk(port, ip, user) && data == Plain(cmd, port, ip, user))
    || (exists port, x, user, host ::
          NamedOk(port, x, user, host) && data == Named(cmd, port, x, user, host))
  }

  // The octets `w` and, after them, some without a NUL.
  predicate Cut(data: bytes, w: bytes, t: bytes) {
    data == w + t && 0 !in t
  }

  // NUL-free octets after a packet change nothing: they are dropped.
  lemma {:induction false} NulsBefore(w: bytes, t: bytes, from: nat)
    requires from <= |w| && 0 !in t
    ensures Nuls(w + t, from) == Nuls(w, from)
    decreases |w| - from
  {
    if from < |w| {
      NulsBefore(w, t, from + 1);
    } else {
      NulsSkip(w + t, from, |w + t|);
    }
  }

  lemma TrailingDropped(w: bytes, t: bytes, past: byte)
    requires |w| >= 9 && 0 !in t
    ensures ParsePacket(w + t, past) == ParsePacket(w, past)
  {
    hide Nuls;
    var d := w + t;
    assert forall i :: 0 <= i < |w| ==> d[i] == w[i];
    NulsBefore(w, t, 8);
    NulsFirst(w, 8);
    var nul := Nuls(w, 8);
    if nul != [] {
      assert d[8..nul[0]] == w[8..nul[0]];
      NulsFirst(w, nul[0] + 1);
      if |nul| > 1 {
        assert d[nul[0] + 1..nul[1]] == w[nul[0] + 1..nul[1]];
      }
    }
    assert d[4..8] == w[4..8];
  }

  // The octets up to the last NUL of an accepted packet, and the rest.
  lemma CutAccepted(data: bytes, past: byte) returns (w: bytes, t: bytes)
    requires |data| >= 2 && ParsePacket(data, past).Some?
    ensures Cut(data, w, t) && |w| >= 9 && w[|w| - 1] == 0
  {
    hide Nuls;
    var nul := Nuls(data, 8);
    NulsFirst(data, 8);
    NulsFirst(data, nul[0] + 1);
    var last := nul[|nul| - 1];
    NulsFirst(data, last + 1);
    assert Nuls(data, last + 1) == [];
    w, t := data[..last + 1], data[last + 1..];
  }

  // Of the packets of version 4 the analysis accepts exactly those that are a well-formed packet with any
  // NUL-free octets after it, provided memory continues with a NUL. If the packet ends with a NUL, as the
  // protocol has it, those are exactly the well-formed ones.
  lemma PacketsAreWellFormed(data: bytes, past: byte)
    requires |data| >= 2 && data[0] == 4
    ensures ParsePacket(data, past).Some?
       <==> past == 0 && exists w, t :: Cut(data, w, t) && WellFormed(w, data[1])
    ensures data[|data| - 1] == 0 ==>
              (ParsePacket(data, past).Some? <==> past == 0 && WellFormed(data, data[1]))
  {
    if ParsePacket(data, past).Some? {
      var w, t := CutAccepted(data, past);
      TrailingDropped(w, t, past);
      AcceptedIsWellFormed(w, past);
      assert Cut(data, w, t) && WellFormed(w, data[1]);
      if t != [] {
        LastOfCut(w, t);
      } else {
        assert data == w;
      }
    }
    if past == 0 {
      forall w, t | Cut(data, w, t) && WellFormed(w, data[1])
        ensures ParsePacket(data, past).Some?
      {
        WellFormedIsAccepted(w, data[1]);
        TrailingDropped(w, t, past);
      }
      if WellFormed(data, data[1]) {
        WellFormedIsAccepted(data, data[1]);
      }
    }
  }

  lemma LastOfCut(w: bytes, t: bytes)
    requires t != []
    ensures (w + t)[|w + t| - 1] in t
  {
    assert (w + t)[|w + t| - 1] == t[|t| - 1];
  }

  lemma AcceptedIsWellFormed(w: bytes, past: byte)
    requires |w| >= 9 && w[0] == 4 && w[|w| - 1] == 0 && ParsePacket(w, past).Some?
    ensures WellFormed(w, w[1])
  {
    if IsSocks4a(w) {
      var port, x, user, host := AcceptedNamed(w, past);
    } else {
      var port, ip, user := AcceptedPlain(w, past);
    }
  }

  lemma WellFormedIsAccepted(w: bytes, cmd: byte)
    requires WellFormed(w, cmd)
    ensures |w| >= 9 && ParsePacket(w, 0).Some?
  {
    if port, ip, user :| PlainOk(port, ip, user) && w == Plain(cmd, port, ip, user) {
      ParsePlain(cmd, port, ip, user);
    } else {
      var port, x, user, host :| NamedOk(port, x, user, host) && w == Named(cmd, port, x, user, host);
      ParseNamed(cmd, port, x, user, host);
    }
  }

  // So the terminator need not be there: this packet's last octet is no NUL, and it is accepted without it.
  lemma UnterminatedAccepted()
    ensures ParsePacket([4, 1, 0, 80, 1, 2, 3, 4, 0, 120], 0)
         == Some(Packet(1, [], Ipv4Text.Print([1, 2, 3, 4]), 80))
  {
    ParsePlain(1, [0, 80], [1, 2, 3, 4], []);
    var w, t: bytes := [4, 1, 0, 80, 1, 2, 3, 4, 0], [120];
    assert w == Plain(1, [0, 80], [1, 2, 3, 4], []);
    TrailingDropped(w, t, 0);
    assert w + t == [4, 1, 0, 80, 1, 2, 3, 4, 0, 120];
  }

  // Where the NULs of an accepted packet are.
  lemma PlainNuls(data: bytes, past: byte) returns (k: nat)
    requires |data| >= 9 && data[|data| - 1] == 0
    requires ParsePacket(data, past).Some? && !IsSocks4a(data)
    ensures 8 <= k == |data| - 1 && 0 !in data[8..k]
  {
    k := Nuls(data, 8)[0];
    NulsFirst(data, 8);
    NulsFirst(data, k + 1);
  }

  lemma NamedNuls(data: bytes, past: byte) returns (k: nat, m: nat)
    requires |data| >= 9 && data[|data| - 1] == 0
    requires ParsePacket(data, past).Some? && IsSocks4a(data)
    ensures 8 <= k && k + 2 <= m == |data| - 1 && data[k] == 0
    ensures 0 !in data[8..k] && 0 !in data[k + 1..m]
  {
    k, m := Nuls(data, 8)[0], Nuls(data, 8)[1];
    NulsFirst(data, 8);
    NulsFirst(data, k + 1);
    NulsFirst(data, m + 1);
  }

  lemma AcceptedPlain(data: bytes, past: byte) returns (port: bytes, ip: bytes, user: bytes)
    requires |data| >= 9 && data[0] == 4 && data[|data| - 1] == 0
    requires ParsePacket(data, past).Some? && !IsSocks4a(data)
    ensures PlainOk(port, ip, user) && data == Plain(data[1], port, ip, user)
  {
    var k := PlainNuls(data, past);
    port, ip, user := data[2..4], data[4..8], data[8..k];
  }

  lemma AcceptedNamed(data: bytes, past: byte)
    returns (port: bytes, x: byte, user: bytes, host: bytes)
    requires |data| >= 9 && data[0] == 4 && data[|data| - 1] == 0
    requires ParsePacket(data, past).Some? && IsSocks4a(data)
    ensures NamedOk(port, x, user, host) && data == Named(data[1], port, x, user, host)
  {
    var k, m := NamedNuls(data, past);
    port, x, user, host := data[2..4], data[7], data[8..k], data[k + 1..m];
  }

  // ---- Translation ----

  // A SOCKS4 packet becomes the SOCKS5 request for the same command, address and port.
  lemma PlainTranslation(v6: Ipv6Text, cmd: byte, port: bytes, ip: bytes, user: bytes)
    requires v6.Faithful() && 1 <= cmd <= 2 && PlainOk(port, ip, user)
    ensures var r := ParsePacket(Plain(cmd, port, ip, user), 0);
            && r.Some? && r.value.user == user
            && EmitRequest(v6, ModeOf(cmd), r.value.host, r.value.port)
               == Some(Frame(cmd, V4(ip), port))
  {
    ParsePlain(cmd, port, ip, user);
    ResolveHostText(v6, V4(ip));
    EmittedIsFrame(v6, cmd, Ipv4Text.Print(ip), port);
  }

  // A SOCKS4a packet becomes the SOCKS5 request for the same command, host and port; a host that is an
  // address literal is sent as that address, and any other host over 253 octets is refused.
  lemma NamedTranslation(v6: Ipv6Text, cmd: byte, port: bytes, x: byte, user: bytes, host: bytes)
    requires v6.Faithful() && 1 <= cmd <= 2 && NamedOk(port, x, user, host)
    ensures var r := ParsePacket(Named(cmd, port, x, user, host), 0);
            var c := Resolve(v6, host);
            && r.Some? && r.value.user == user
            && var e := EmitRequest(v6, ModeOf(cmd), r.value.host, r.value.port);
            if c.Name? && |host| > 253 then e == None
            else DestOk(c) && e == Some(Frame(cmd, c, port))
  {
    ParseNamed(cmd, port, x, user, host);
    EmittedIsFrame(v6, cmd, host, port);
  }
}
