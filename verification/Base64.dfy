// Base64 as base64.h builds it: bytes are re-read as 6-bit groups and characters as 8-bit groups by a
// width-transforming iterator, and padding is added and removed around that.
module Base64 {
  import opened Bytes

  // ---- Bit streams, most significant bit first ----

  type bits = seq<bool>

  function Pow2(w: nat): nat {
    if w == 0 then 1 else 2 * Pow2(w - 1)
  }

  function BitsOf(x: nat, w: nat): (r: bits)
    ensures |r| == w
  {
    if w == 0 then [] else BitsOf(x / 2, w - 1) + [x % 2 == 1]
  }

  function ValueOf(bs: bits): (x: nat)
    ensures x < Pow2(|bs|)
  {
    if bs == [] then 0 else 2 * ValueOf(bs[..|bs| - 1]) + if bs[|bs| - 1] then 1 else 0
  }

  function Fill(n: nat): (z: bits)
    ensures |z| == n
  {
    seq(n, _ => false)
  }

  function Flatten(xs: seq<nat>, w: nat): bits {
    if xs == [] then [] else BitsOf(xs[0], w) + Flatten(xs[1..], w)
  }

  // Whole groups of `w` bits; left-over bits are discarded.
  function Chunk(bs: bits, w: nat): seq<nat>
    requires w > 0
  {
    if |bs| < w then [] else [ValueOf(bs[..w])] + Chunk(bs[w..], w)
  }

  lemma {:induction false} ChunkBelow(bs: bits, w: nat)
    requires w > 0
    ensures forall i :: 0 <= i < |Chunk(bs, w)| ==> Chunk(bs, w)[i] < Pow2(w)
  {
    if |bs| >= w {
      ChunkBelow(bs[w..], w);
    }
  }

  // Whole groups of `w` bits; the last one is completed with zeros.
  function ChunkFilled(bs: bits, w: nat): seq<nat>
    requires w > 0
  {
    Chunk(bs + Fill((w - |bs| % w) % w), w)
  }

  lemma {:induction false} ValueOfBits(x: nat, w: nat)
    requires x < Pow2(w)
    ensures ValueOf(BitsOf(x, w)) == x
  {
    if w > 0 {
      ValueOfBits(x / 2, w - 1);
      assert BitsOf(x, w)[..w - 1] == BitsOf(x / 2, w - 1);
    }
  }

  lemma {:induction false} BitsOfValue(bs: bits)
    ensures BitsOf(ValueOf(bs), |bs|) == bs
  {
    if bs != [] {
      BitsOfValue(bs[..|bs| - 1]);
      assert ValueOf(bs) / 2 == ValueOf(bs[..|bs| - 1]);
      assert bs == bs[..|bs| - 1] + [bs[|bs| - 1]];
    }
  }

  // `k` groups of `w`, as a sum: keeps multiplication of two variables out of the proofs.
  function Times(k: nat, w: nat): nat {
    if k == 0 then 0 else w + Times(k - 1, w)
  }

  lemma {:induction false} TimesIs(k: nat, w: nat)
    ensures Times(k, w) == k * w
  {
    if k > 0 {
      TimesIs(k - 1, w);
      assert k * w == (k - 1) * w + w;
    }
  }

  lemma {:induction false} FlattenLength(xs: seq<nat>, w: nat)
    ensures |Flatten(xs, w)| == Times(|xs|, w)
  {
    if xs != [] {
      FlattenLength(xs[1..], w);
    }
  }

  // Splitting a whole number of groups loses nothing.
  lemma {:induction false} FlattenChunk(bs: bits, w: nat, k: nat)
    requires w > 0 && |bs| == Times(k, w)
    ensures |Chunk(bs, w)| == k
    ensures Flatten(Chunk(bs, w), w) == bs
  {
    if k > 0 {
      var head, tail := bs[..w], bs[w..];
      FlattenChunk(tail, w, k - 1);
      BitsOfValue(head);
      assert Chunk(bs, w) == [ValueOf(head)] + Chunk(tail, w);
      assert Chunk(bs, w)[1..] == Chunk(tail, w);
      assert bs == head + tail;
    }
  }

  lemma ChunkStep(head: bits, tail: bits, w: nat)
    requires |head| == w > 0
    ensures Chunk(head + tail, w) == [ValueOf(head)] + Chunk(tail, w)
  {
    assert (head + tail)[..w] == head && (head + tail)[w..] == tail;
  }

  // Regrouping at the original width returns the groups, and what follows is grouped on its own.
  lemma {:induction false} ChunkFlatten(xs: seq<nat>, w: nat, rest: bits)
    requires w > 0 && forall i :: 0 <= i < |xs| ==> xs[i] < Pow2(w)
    ensures Chunk(Flatten(xs, w) + rest, w) == xs + Chunk(rest, w)
  {
    if xs == [] {
      assert Flatten(xs, w) + rest == rest;
    } else {
      var head, tail := BitsOf(xs[0], w), Flatten(xs[1..], w) + rest;
      calc {
        Chunk(Flatten(xs, w) + rest, w);
        { assert Flatten(xs, w) + rest == head + tail; }
        Chunk(head + tail, w);
        { ChunkStep(head, tail, w); ValueOfBits(xs[0], w); }
        [xs[0]] + Chunk(tail, w);
        { ChunkFlatten(xs[1..], w, rest); }
        [xs[0]] + (xs[1..] + Chunk(rest, w));
        xs + Chunk(rest, w);
      }
    }
  }

  lemma {:induction false} FlattenAppend(xs: seq<nat>, ys: seq<nat>, w: nat)
    ensures Flatten(xs + ys, w) == Flatten(xs, w) + Flatten(ys, w)
  {
    if xs == [] {
      assert xs + ys == ys;
    } else {
      assert (xs + ys)[1..] == xs[1..] + ys;
      FlattenAppend(xs[1..], ys, w);
    }
  }

  lemma {:induction false} FlattenZeros(n: nat, w: nat)
    ensures Flatten(seq(n, _ => 0), w) == Fill(Times(n, w))
  {
    if n > 0 {
      assert seq(n, _ => 0)[1..] == seq(n - 1, _ => 0);
      FlattenZeros(n - 1, w);
      ZeroBits(w);
    }
  }

  lemma {:induction false} ZeroBits(w: nat)
    ensures BitsOf(0, w) == Fill(w)
  {
    if w > 0 {
      ZeroBits(w - 1);
    }
  }

  // ---- The alphabet of RFC 4648 section 4 ----

  const PAD: byte := 61

  function CharOf(v: nat): byte
    requires v < 64
  {
    if v < 26 then 65 + v
    else if v < 52 then 97 + (v - 26)
    else if v < 62 then 48 + (v - 52)
    else if v == 62 then 43
    else 47
  }

  // The decoder's table; it reads the padding character as zero and throws on any other character.
  function SextetOf(c: byte): (v: Option<nat>)
    ensures v.Some? ==> v.value < 64
  {
    if 65 <= c <= 90 then Some(c - 65)
    else if 97 <= c <= 122 then Some(c - 97 + 26)
    else if 48 <= c <= 57 then Some(c - 48 + 52)
    else if c == 43 then Some(62)
    else if c == 47 then Some(63)
    else if c == PAD then Some(0)
    else None
  }

  function Chars(vs: seq<nat>): (r: bytes)
    requires forall i :: 0 <= i < |vs| ==> vs[i] < 64
    ensures |r| == |vs|
  {
    seq(|vs|, i requires 0 <= i < |vs| => CharOf(vs[i]))
  }

  function Sextets(s: bytes): (r: Option<seq<nat>>)
    ensures r.Some? <==> forall i :: 0 <= i < |s| ==> SextetOf(s[i]).Some?
    ensures r.Some? ==> |r.value| == |s| && forall i :: 0 <= i < |s| ==> r.value[i] == SextetOf(s[i]).value
  {
    if s == [] then Some([])
    else
      match SextetOf(s[0])
      case None => None
      case Some(v) =>
        match Sextets(s[1..])
        case None => None
        case Some(vs) => Some([v] + vs)
  }

  // ---- base64_encode and base64_decode ----

  function PadLength(n: nat): nat {
    (3 - n % 3) % 3
  }

  function Sixes(b: bytes): (vs: seq<nat>)
    ensures forall i :: 0 <= i < |vs| ==> vs[i] < 64
  {
    assert Pow2(6) == 64;
    var filled := Flatten(b, 8);
    ChunkBelow(filled + Fill((6 - |filled| % 6) % 6), 6);
    ChunkFilled(filled, 6)
  }

  function Encode(b: bytes): bytes {
    Chars(Sixes(b)) + seq(PadLength(|b|), _ => PAD)
  }

  function Octets(vs: seq<nat>): (b: bytes)
    ensures |b| == |Chunk(Flatten(vs, 6), 8)|
  {
    var r := Chunk(Flatten(vs, 6), 8);
    assert Pow2(8) == 256;
    ChunkBelow(Flatten(vs, 6), 8);
    seq(|r|, i requires 0 <= i < |r| => r[i] as byte)
  }

  // One or two trailing padding characters take as many octets off the end.
  function Unpadded(s: bytes, binary: bytes): bytes
    requires |binary| <= |s|
  {
    var n := |s|;
    if |binary| > 2 && s[n - 1] == PAD && s[n - 2] == PAD then binary[..|binary| - 2]
    else if |binary| > 1 && s[n - 1] == PAD then binary[..|binary| - 1]
    else binary
  }

  lemma {:induction false} ChunkShorter(bs: bits, w: nat, k: nat, v: nat)
    requires w >= v > 0 && |bs| <= Times(k, v)
    ensures |Chunk(bs, w)| <= k
  {
    if |bs| >= w {
      ChunkShorter(bs[w..], w, k - 1, v);
    }
  }

  // None is the exception thrown on a foreign character. An input of 4k+1 characters makes the
  // iterator read past its end, so no caller may pass one.
  function Decode(s: bytes): Option<bytes>
    requires |s| % 4 != 1
  {
    match Sextets(s)
    case None => None
    case Some(vs) =>
      FlattenLength(vs, 6);
      ChunkShorter(Flatten(vs, 6), 8, |vs|, 6);
      Some(Unpadded(s, Octets(vs)))
  }

  // ---- What encoding and decoding promise ----

  function SixCount(n: nat): nat {
    4 * ((n + 2) / 3) - PadLength(n)
  }

  lemma PadArithmetic(n: nat)
    ensures (6 - (n * 8) % 6) % 6 == PadLength(n) * 2
    ensures n * 8 + PadLength(n) * 2 == SixCount(n) * 6
  {
    var q, r := n / 3, n % 3;
    assert n == 3 * q + r;
    assert n * 8 == 6 * (4 * q) + 8 * r;
    assert (n * 8) % 6 == (8 * r) % 6;
  }

  lemma FilledSpells(bs: bits, w: nat, fill: nat, k: nat)
    requires w > 0 && fill == (w - |bs| % w) % w && |bs| + fill == Times(k, w)
    ensures |ChunkFilled(bs, w)| == k && Flatten(ChunkFilled(bs, w), w) == bs + Fill(fill)
  {
    FlattenChunk(bs + Fill(fill), w, k);
  }

  // The 6-bit groups spell the input's bits, then zeros up to the next group boundary.
  lemma SixesSpellInput(b: bytes)
    ensures Flatten(Sixes(b), 6) == Flatten(b, 8) + Fill(PadLength(|b|) * 2)
    ensures |Sixes(b)| == SixCount(|b|)
  {
    FlattenLength(b, 8);
    PadArithmetic(|b|);
    TimesIs(|b|, 8);
    TimesIs(SixCount(|b|), 6);
    FilledSpells(Flatten(b, 8), 6, PadLength(|b|) * 2, SixCount(|b|));
  }

  lemma CharsInvert(vs: seq<nat>, k: nat)
    requires forall i :: 0 <= i < |vs| ==> vs[i] < 64
    ensures Sextets(Chars(vs) + seq(k, _ => PAD)) == Some(vs + seq(k, _ => 0))
  {
    var s := Chars(vs) + seq(k, _ => PAD);
    assert forall i :: 0 <= i < |s| ==> SextetOf(s[i]) == Some((vs + seq(k, _ => 0))[i]);
    assert Sextets(s).value == vs + seq(k, _ => 0);
  }

  // RFC 4648 section 4: four characters for every three octets begun, of which exactly the last
  // PadLength are padding.
  lemma EncodedShape(b: bytes)
    ensures var s := Encode(b);
            var p := PadLength(|b|);
            && |s| == 4 * ((|b| + 2) / 3) && p <= 2
            && forall i :: 0 <= i < |s| ==> (s[i] == PAD <==> i >= |s| - p)
  {
    SixesSpellInput(b);
  }

  lemma PaddedBits(b: bytes, zs: seq<nat>, padded: seq<nat>)
    requires zs == seq(PadLength(|b|), _ => 0) && padded == b + zs
    ensures Flatten(Sixes(b) + zs, 6) == Flatten(padded, 8)
  {
    var p := |zs|;
    SixesSpellInput(b);
    FlattenAppend(Sixes(b), zs, 6);
    FlattenZeros(p, 6);
    FlattenZeros(p, 8);
    TimesIs(p, 6);
    TimesIs(p, 8);
    FlattenAppend(b, zs, 8);
    assert Fill(p * 2) + Fill(p * 6) == Fill(p * 8);
  }

  // The padded groups, regrouped as octets, are the input and a zero octet per padding character.
  lemma OctetsOfPadded(b: bytes, zs: seq<nat>)
    requires zs == seq(PadLength(|b|), _ => 0)
    ensures Octets(Sixes(b) + zs) == b + Zeros(|zs|)
  {
    var padded: seq<nat> := b + zs;
    PaddedBits(b, zs, padded);
    assert Pow2(8) == 256;
    ChunkFlatten(padded, 8, []);
    assert Flatten(padded, 8) + [] == Flatten(padded, 8);
    assert Chunk(Flatten(padded, 8), 8) == padded;
  }

  lemma EncodedLength(b: bytes)
    ensures |Encode(b)| % 4 == 0
  {
    EncodedShape(b);
  }

  lemma UnpaddedOf(s: bytes, b: bytes, p: nat)
    requires if b == [] then p == 0 else p <= 2 && |b| + p >= 3
    requires |b| + p <= |s|
    requires b != [] ==> (s[|s| - 1] == PAD <==> p >= 1) && (s[|s| - 2] == PAD <==> p >= 2)
    ensures Unpadded(s, b + Zeros(p)) == b
  {
  }

  lemma EncodedEnd(b: bytes, s: bytes, p: nat)
    requires s == Encode(b) && p == PadLength(|b|)
    ensures |b| + p <= |s|
    ensures b != [] ==> |s| >= 2 && |b| + p >= 3
                        && (s[|s| - 1] == PAD <==> p >= 1) && (s[|s| - 2] == PAD <==> p >= 2)
  {
    hide Encode;
    EncodedShape(b);
  }

  lemma DecodeVia(b: bytes, s: bytes, p: nat)
    requires s == Encode(b) && p == PadLength(|b|) && |b| + p <= |s| && |s| % 4 == 0
    ensures Decode(s) == Some(Unpadded(s, b + Zeros(p)))
  {
    CharsInvert(Sixes(b), p);
    OctetsOfPadded(b, seq(p, _ => 0));
  }

  // Decoding inverts encoding on every byte string.
  lemma DecodeEncode(b: bytes)
    ensures (EncodedLength(b); Decode(Encode(b)) == Some(b))
  {
    var s, p := Encode(b), PadLength(|b|);
    EncodedLength(b);
    EncodedEnd(b, s, p);
    DecodeVia(b, s, p);
    UnpaddedOf(s, b, p);
  }

  // Different inputs have different encodings.
  lemma EncodeInjective(a: bytes, b: bytes)
    ensures Encode(a) == Encode(b) ==> a == b
  {
    DecodeEncode(a);
    DecodeEncode(b);
  }

  // The alphabet of RFC 4648 section 4: the columns of its table.
  function Column(k: nat): string {
    match k
    case 0 => "ABCDEFGHIJKLMNOPQ"
    case 1 => "RSTUVWXYZabcdefgh"
    case 2 => "ijklmnopqrstuvwxy"
    case _ => "z0123456789+/"
  }

  lemma CharsAreTheAlphabet(v: nat)
    requires v < 64
    ensures v % 17 < |Column(v / 17)| && CharOf(v) == Column(v / 17)[v % 17] as int
  {
    ColumnChars(v / 17, v % 17);
  }

  lemma ColumnChars(k: nat, i: nat)
    requires k < 4 && i < 17 && 17 * k + i < 64
    ensures i < |Column(k)| && Column(k)[i] as int == CharOf(17 * k + i)
  {
  }

  // The decoder rejects exactly the strings with a character outside it that is no padding.
  lemma RejectedIff(s: bytes)
    requires |s| % 4 != 1
    ensures Decode(s).None?
       <==> exists i :: 0 <= i < |s| && s[i] != PAD && forall v: nat :: v < 64 ==> s[i] != CharOf(v)
  {
    hide Octets, Unpadded;
    forall i | 0 <= i < |s|
      ensures SextetOf(s[i]).None? <==> s[i] != PAD && forall v: nat :: v < 64 ==> s[i] != CharOf(v)
    {
      if SextetOf(s[i]).Some? && s[i] != PAD {
        assert CharOf(SextetOf(s[i]).value) == s[i];
      }
    }
  }

  // It does without the padding, too: the zeros up to the last group boundary are no whole octet.
  lemma UnpaddedDecodes(b: bytes)
    ensures |Chars(Sixes(b))| % 4 != 1
    ensures Decode(Chars(Sixes(b))) == Some(b)
  {
    var s := Chars(Sixes(b));
    UnpaddedEnd(b);
    UnpaddedSextets(b);
    OctetsOfUnpadded(b);
    hide Octets, Sixes, Chars, Sextets;
    assert Unpadded(s, b) == b;
  }

  lemma UnpaddedEnd(b: bytes)
    ensures var s := Chars(Sixes(b));
            |s| % 4 != 1 && |b| <= |s| && (s != [] ==> s[|s| - 1] != PAD)
  {
    SixesSpellInput(b);
    hide Sixes, Flatten, Fill, CharOf;
    if Sixes(b) != [] {
      NoPadding(Sixes(b));
    }
  }

  lemma NoPadding(vs: seq<nat>)
    requires vs != [] && forall i :: 0 <= i < |vs| ==> vs[i] < 64
    ensures Chars(vs)[|vs| - 1] != PAD
  {
  }

  lemma UnpaddedSextets(b: bytes)
    ensures Sextets(Chars(Sixes(b))) == Some(Sixes(b))
  {
    var vs := Sixes(b);
    CharsInvert(vs, 0);
    assert Chars(vs) + seq(0, _ => PAD) == Chars(vs) && vs + seq(0, _ => 0) == vs;
  }

  lemma OctetsOfUnpadded(b: bytes)
    ensures Octets(Sixes(b)) == b
  {
    SixesSpellInput(b);
    hide Sixes;
    assert Pow2(8) == 256;
    ChunkFlatten(b, 8, Fill(PadLength(|b|) * 2));
  }

  // A test vector of RFC 4648 section 10: "f" is encoded as "Zg==".
  lemma EncodeOfF()
    ensures Encode([102]) == [90, 103, PAD, PAD]
  {
    SixesOfF();
    hide Sixes;
    assert Chars([25, 32]) == [90, 103];
  }

  lemma SixesOfF()
    ensures Sixes([102]) == [25, 32]
  {
    var a: bits, b: bits := [false, true, true, false, false, true], [true, false, false, false, false, false];
    BitsOfF();
    SextetsOfF(a, b);
    ChunkStep(a, b, 6);
    ChunkStep(b, [], 6);
    assert b + [] == b && Chunk([], 6) == [];
    hide Flatten, BitsOf, ValueOf, Chunk;
    assert Flatten([102], 8) + Fill(4) == a + b;
  }

  lemma BitsOfF()
    ensures Flatten([102], 8) == [false, true, true, false, false, true, true, false]
  {
    assert BitsOf(102, 8) == [false, true, true, false, false, true, true, false];
  }

  lemma SextetsOfF(a: bits, b: bits)
    requires a == [false, true, true, false, false, true]
    requires b == [true, false, false, false, false, false]
    ensures ValueOf(a) == 25 && ValueOf(b) == 32
  {
    hide ValueOf;
    SixBits(a);
    SixBits(b);
  }

  lemma SixBits(b: bits)
    requires |b| == 6
    ensures ValueOf(b) == (if b[0] then 32 else 0) + (if b[1] then 16 else 0) + (if b[2] then 8 else 0)
                          + (if b[3] then 4 else 0) + (if b[4] then 2 else 0) + if b[5] then 1 else 0
  {
    assert b[..6] == b && b[..0] == [];
    forall k | 0 < k <= 6
      ensures ValueOf(b[..k]) == 2 * ValueOf(b[..k - 1]) + if b[k - 1] then 1 else 0
    {
      assert b[..k][..k - 1] == b[..k - 1];
    }
    assert ValueOf(b[..2]) == 2 * ValueOf(b[..1]) + if b[1] then 1 else 0;
    assert ValueOf(b[..4]) == 2 * ValueOf(b[..3]) + if b[3] then 1 else 0;
  }
}
