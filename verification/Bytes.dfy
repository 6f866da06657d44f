// Octets, byte strings and the small vocabulary every other module shares.
module Bytes {
  type byte = b: int | 0 <= b < 256
  type bytes = seq<byte>
  type u16 = p: int | 0 <= p < 0x10000

  datatype Option<+T> = None | Some(value: T)

  // The reads that feed the SOCKS parsers go into a zero-filled vector of this size.
  const MAX_LENGTH: nat := 8196

  function Zeros(n: nat): (z: bytes)
    ensures |z| == n && forall i :: 0 <= i < n ==> z[i] == 0
  {
    seq(n, _ => 0)
  }

  // What the read buffer holds after `data` arrived: the data, then the zeros it was filled with.
  function ReadBuffer(data: bytes): (buf: bytes)
    requires |data| <= MAX_LENGTH
    ensures |buf| == MAX_LENGTH && buf[..|data|] == data
  {
    data + Zeros(MAX_LENGTH - |data|)
  }

  // A port from its two octets in network order, and back.
  function PortOf(hi: byte, lo: byte): u16 {
    hi * 256 + lo
  }

  function PortBytes(p: u16): (b: bytes)
    ensures |b| == 2 && PortOf(b[0], b[1]) == p
  {
    [p / 256, p % 256]
  }

  // Network order: the high octet first.
  lemma PortOfHttps()
    ensures PortOf(1, 187) == 443 && PortBytes(8080) == [31, 144]
  {
  }

  lemma PortRoundTrip(port: bytes)
    requires |port| == 2
    ensures PortBytes(PortOf(port[0], port[1])) == port
  {
  }

  // The octets of `s` before its first NUL: what a callee that takes a C string sees.
  function CString(s: bytes): (c: bytes)
    ensures 0 !in c && c <= s
    ensures |c| == |s| || s[|c|] == 0
  {
    if s == [] || s[0] == 0 then []
    else
      var c := CString(s[1..]);
      assert s == [s[0]] + s[1..];
      [s[0]] + c
  }

  lemma {:induction false} CStringOfNulFree(s: bytes)
    requires 0 !in s
    ensures CString(s) == s
  {
    if s != [] {
      CStringOfNulFree(s[1..]);
    }
  }

  // ASCII upper case to lower case.
  function Lower(c: byte): byte {
    if 65 <= c <= 90 then c + 32 else c
  }
}
