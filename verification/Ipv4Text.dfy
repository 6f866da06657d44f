// Dotted-quad text of an IPv4 address: the printer of address_v4::to_string and the scanner that
// make_address_v4 hands the text to.
module Ipv4Text {
  import opened Bytes

  const DOT: byte := 46
  const ZERO: byte := 48
  const NINE: byte := 57

  function PrintOctet(b: byte): (t: bytes)
    ensures 1 <= |t| <= 3
    ensures forall ch :: ch in t ==> ZERO <= ch <= NINE
  {
    if b < 10 then [ZERO + b]
    else if b < 100 then [ZERO + b / 10, ZERO + b % 10]
    else [ZERO + b / 100, ZERO + b / 10 % 10, ZERO + b % 10]
  }

  function Print(a: bytes): (t: bytes)
    requires |a| == 4
    ensures |t| <= 15
    ensures forall ch :: ch in t ==> ZERO <= ch <= NINE || ch == DOT
  {
    PrintOctet(a[0]) + [DOT] + PrintOctet(a[1]) + [DOT] + PrintOctet(a[2]) + [DOT] + PrintOctet(a[3])
  }

  // The scanner: finished octets, the octet being read, and whether it has a digit yet.
  datatype Scan = Scan(done: bytes, cur: byte, saw: bool)

  function Feed(s: Scan, ch: byte): Option<Scan> {
    if ZERO <= ch <= NINE then
      var next := s.cur * 10 + (ch - ZERO);
      if s.saw && s.cur == 0 then None           // no leading zeros
      else if next > 255 then None
      else Some(Scan(s.done, next, true))
    else if ch == DOT && s.saw then
      if |s.done| == 3 then None else Some(Scan(s.done + [s.cur], 0, false))
    else None
  }

  function ScanFrom(s: Scan, t: bytes): Option<Scan>
    decreases |t|
  {
    if t == [] then Some(s)
    else match Feed(s, t[0])
      case None => None
      case Some(s') => ScanFrom(s', t[1..])
  }

  function Parse(t: bytes): (a: Option<bytes>)
    ensures a.Some? ==> |a.value| == 4
  {
    match ScanFrom(Scan([], 0, false), t)
    case Some(s) => if s.saw && |s.done| == 3 then Some(s.done + [s.cur]) else None
    case None => None
  }

  // The text a scanner state stands for.
  function Finished(done: bytes): bytes {
    if done == [] then [] else Finished(done[..|done| - 1]) + PrintOctet(done[|done| - 1]) + [DOT]
  }

  function Consumed(s: Scan): bytes {
    Finished(s.done) + if s.saw then PrintOctet(s.cur) else []
  }

  lemma FeedConsumes(s: Scan, ch: byte)
    requires Feed(s, ch).Some? && (s.saw || s.cur == 0)
    ensures var s' := Feed(s, ch).value;
            Consumed(s') == Consumed(s) + [ch] && (s'.saw || s'.cur == 0)
  {
    var s' := Feed(s, ch).value;
    if ch == DOT {
      assert s'.done[..|s'.done| - 1] == s.done;
    } else if s.saw {
      assert PrintOctet(s'.cur) == PrintOctet(s.cur) + [ch];
    }
  }

  lemma {:induction false} ScanConsumes(s: Scan, t: bytes)
    requires ScanFrom(s, t).Some? && (s.saw || s.cur == 0)
    ensures Consumed(ScanFrom(s, t).value) == Consumed(s) + t
    decreases |t|
  {
    if t != [] {
      FeedConsumes(s, t[0]);
      ScanConsumes(Feed(s, t[0]).value, t[1..]);
      assert t == [t[0]] + t[1..];
    }
  }

  lemma {:induction false} ScanAppend(s: Scan, t: bytes, u: bytes)
    requires ScanFrom(s, t).Some?
    ensures ScanFrom(s, t + u) == ScanFrom(ScanFrom(s, t).value, u)
    decreases |t|
  {
    if t == [] {
      assert t + u == u;
    } else {
      assert (t + u)[1..] == t[1..] + u;
      ScanAppend(Feed(s, t[0]).value, t[1..], u);
    }
  }

  lemma ScanOctet(done: bytes, b: byte)
    ensures ScanFrom(Scan(done, 0, false), PrintOctet(b)) == Some(Scan(done, b, true))
  {
    var t := PrintOctet(b);
    var s := Scan(done, 0, false);
    var s1 := Feed(s, t[0]).value;
    if b >= 10 {
      var s2 := Feed(s1, t[1]).value;
      assert t[1..][1..] == t[2..];
      if b >= 100 {
        assert Feed(s2, t[2]) == Some(Scan(done, b, true));
        assert t[2..][1..] == [];
        assert ScanFrom(s2, t[2..]) == Some(Scan(done, b, true));
      }
      assert ScanFrom(s1, t[1..]) == ScanFrom(s2, t[2..]);
    }
  }

  lemma ScanField(done: bytes, b: byte)
    requires |done| < 3
    ensures ScanFrom(Scan(done, 0, false), PrintOctet(b) + [DOT]) == Some(Scan(done + [b], 0, false))
  {
    ScanOctet(done, b);
    ScanAppend(Scan(done, 0, false), PrintOctet(b), [DOT]);
    assert ScanFrom(Scan(done + [b], 0, false), []) == Some(Scan(done + [b], 0, false));
  }

  lemma {:induction false} ScanFinished(done: bytes)
    requires |done| <= 3
    ensures ScanFrom(Scan([], 0, false), Finished(done)) == Some(Scan(done, 0, false))
  {
    if done != [] {
      var p, b := done[..|done| - 1], done[|done| - 1];
      ScanFinished(p);
      ScanField(p, b);
      ScanAppend(Scan([], 0, false), Finished(p), PrintOctet(b) + [DOT]);
      assert Finished(done) == Finished(p) + (PrintOctet(b) + [DOT]);
      assert p + [b] == done;
    }
  }

  lemma PrintIsConsumed(a: bytes)
    requires |a| == 4
    ensures Print(a) == Finished(a[..3]) + PrintOctet(a[3])
  {
    assert a[..3][..2] == a[..2] && a[..2][..1] == a[..1] && a[..1][..0] == [];
    assert Finished(a[..1]) == PrintOctet(a[0]) + [DOT];
    assert Finished(a[..2]) == PrintOctet(a[0]) + [DOT] + PrintOctet(a[1]) + [DOT];
  }

  // The scanner accepts a text exactly when it is the printed form of the address it returns, so
  // printing and parsing are inverse in both directions.
  lemma ParseInvertsPrint(t: bytes, a: bytes)
    requires |a| == 4
    ensures Parse(t) == Some(a) <==> t == Print(a)
  {
    PrintIsConsumed(a);
    if t == Print(a) {
      ScanFinished(a[..3]);
      ScanAppend(Scan([], 0, false), Finished(a[..3]), PrintOctet(a[3]));
      ScanOctet(a[..3], a[3]);
      assert a[..3] + [a[3]] == a;
    }
    if Parse(t) == Some(a) {
      ScanConsumes(Scan([], 0, false), t);
      var s := ScanFrom(Scan([], 0, false), t).value;
      assert s.done + [s.cur] == a && s.done == a[..3] && s.cur == a[3];
    }
  }

  // "192.0.2.10": the octets in order, in decimal, without leading zeros.
  lemma PrintOfExample()
    ensures Print([192, 0, 2, 10]) == [49, 57, 50, 46, 48, 46, 50, 46, 49, 48]
  {
  }
}
