/** The byte loop of the state hash: an xor-then-multiply fold on 64-bit words. */
module HashLoop {
  const WORD: nat := 0x1_0000_0000_0000_0000
  const OFFSET_BASIS: nat := 1469598103934665603
  const PRIME: nat := 1099511628211
  const PRIME_INVERSE: nat := 0xCE965057AFF6957B

  /** Exclusive or of the low `bits` binary digits. */
  function Xor(x: nat, y: nat, bits: nat): nat {
    if bits == 0 then 0 else 2 * Xor(x / 2, y / 2, bits - 1) + (x % 2 + y % 2) % 2
  }

  function Pow2(n: nat): (r: nat)
    ensures r > 0
  {
    if n == 0 then 1 else 2 * Pow2(n - 1)
  }

  lemma {:induction false} XorRange(x: nat, y: nat, bits: nat)
    ensures Xor(x, y, bits) < Pow2(bits)
  {
    if bits == 0 {
    } else {
      XorRange(x / 2, y / 2, bits - 1);
    }
  }

  lemma XorDigits(x: nat, y: nat, bits: nat)
    requires bits > 0
    ensures Xor(x, y, bits) / 2 == Xor(x / 2, y / 2, bits - 1) && Xor(x, y, bits) % 2 == (x % 2 + y % 2) % 2
  {
  }

  lemma XorOfNothing(x: nat, y: nat)
    ensures Xor(x, y, 0) == 0 && Pow2(0) == 1
  {
  }

  lemma {:induction false} XorTwice(x: nat, y: nat, bits: nat)
    requires x < Pow2(bits)
    ensures Xor(Xor(x, y, bits), y, bits) == x
  {
    hide Xor;
    if bits == 0 {
      XorOfNothing(x, y);
      XorOfNothing(0, y);
    } else {
      XorTwice(x / 2, y / 2, bits - 1);
      XorDigits(x, y, bits);
      XorDigits(Xor(x, y, bits), y, bits);
    }
  }

  /** Exclusive or separates its second argument. */
  lemma {:induction false} XorSeparates(x: nat, y: nat, z: nat, bits: nat)
    requires y < Pow2(bits) && z < Pow2(bits) && Xor(x, y, bits) == Xor(x, z, bits)
    ensures y == z
  {
    hide Xor;
    if bits == 0 {
      XorOfNothing(x, y);
    } else {
      XorDigits(x, y, bits);
      XorDigits(x, z, bits);
      XorSeparates(x / 2, y / 2, z / 2, bits - 1);
    }
  }

  lemma Pow2OfWord()
    ensures Pow2(64) == WORD && Pow2(8) == 256
  {
    assert Pow2(8) == 256;
    assert Pow2(16) == 0x1_0000;
    assert Pow2(24) == 0x100_0000;
    assert Pow2(32) == 0x1_0000_0000;
    assert Pow2(40) == 0x100_0000_0000;
    assert Pow2(48) == 0x1_0000_0000_0000;
    assert Pow2(56) == 0x100_0000_0000_0000;
  }

  function Times(x: nat, factor: nat): nat { (x * factor) % WORD }

  lemma ModOfMultiple(r: nat, k: nat)
    requires r < WORD
    ensures (r + k * WORD) % WORD == r
  {
  }

  lemma QuotientNonNegative(n: int, r: nat, total: nat)
    requires r < WORD && total == n * WORD + r
    ensures n >= 0
  {
  }

  /** Multiplying by `f` and then by an inverse of `f` modulo 2^64 gives the word back. */
  lemma TimesInverse(x: nat, f: nat, g: nat, k: nat)
    requires x < WORD && f * g == k * WORD + 1
    ensures Times(Times(x, f), g) == x
  {
    var y := x * f;
    var q := y / WORD;
    assert y == q * WORD + Times(x, f);
    assert Times(x, f) * g == y * g - q * WORD * g;
    assert y * g == x * (f * g);
    assert x * (k * WORD + 1) == x * k * WORD + x;
    var n := x * k - q * g;
    assert Times(x, f) * g == n * WORD + x by {
      assert q * WORD * g == (q * g) * WORD;
      assert n * WORD == x * k * WORD - (q * g) * WORD;
    }
    QuotientNonNegative(n, x, Times(x, f) * g);
    ModOfMultiple(x, n);
  }

  /** One round: xor a byte into the accumulator, then multiply. */
  function HashByte(h: nat, b: nat): nat { Times(Xor(h, b, 64), PRIME) }

  function UnhashByte(h: nat, b: nat): nat { Xor(Times(h, PRIME_INVERSE), b, 64) }

  lemma PrimeInvertible()
    ensures PRIME * PRIME_INVERSE == (PRIME * PRIME_INVERSE / WORD) * WORD + 1
  {
  }

  /** Each round is a bijection of the accumulator. */
  lemma HashByteBijective(h: nat, b: nat)
    requires h < WORD
    ensures HashByte(h, b) < WORD && UnhashByte(h, b) < WORD
    ensures UnhashByte(HashByte(h, b), b) == h && HashByte(UnhashByte(h, b), b) == h
  {
    Pow2OfWord();
    PrimeInvertible();
    var k := PRIME * PRIME_INVERSE / WORD;
    var x := Xor(h, b, 64);
    XorRange(h, b, 64);
    TimesInverse(x, PRIME, PRIME_INVERSE, k);
    XorTwice(h, b, 64);
    var y := Times(h, PRIME_INVERSE);
    XorTwice(y, b, 64);
    XorRange(y, b, 64);
    TimesInverse(h, PRIME_INVERSE, PRIME, k);
  }

  /** Different bytes take the same accumulator to different ones. */
  lemma HashByteSeparates(h: nat, b: nat, c: nat)
    requires b < 256 && c < 256 && b != c
    ensures HashByte(h, b) != HashByte(h, c)
  {
    Pow2OfWord();
    PrimeInvertible();
    var k := PRIME * PRIME_INVERSE / WORD;
    var x, y := Xor(h, b, 64), Xor(h, c, 64);
    XorRange(h, b, 64);
    XorRange(h, c, 64);
    TimesInverse(x, PRIME, PRIME_INVERSE, k);
    TimesInverse(y, PRIME, PRIME_INVERSE, k);
    if x == y { XorSeparates(h, b, c, 64); }
  }

  // ----- Streams of bytes. -----

  predicate AreBytes(bs: seq<nat>) { forall k :: 0 <= k < |bs| ==> bs[k] < 256 }

  /** The rounds of a byte stream, first byte first. */
  function HashBytes(h: nat, bs: seq<nat>): nat
    decreases |bs|
  {
    if bs == [] then h else HashByte(HashBytes(h, bs[..|bs| - 1]), bs[|bs| - 1])
  }

  function UnhashBytes(h: nat, bs: seq<nat>): nat
    decreases |bs|
  {
    if bs == [] then h else UnhashBytes(UnhashByte(h, bs[|bs| - 1]), bs[..|bs| - 1])
  }

  /** Hashing a fixed stream is a bijection of the accumulator. */
  lemma {:induction false} HashBytesBijective(h: nat, bs: seq<nat>)
    requires h < WORD
    ensures HashBytes(h, bs) < WORD && UnhashBytes(h, bs) < WORD
    ensures UnhashBytes(HashBytes(h, bs), bs) == h && HashBytes(UnhashBytes(h, bs), bs) == h
    decreases |bs|
  {
    hide HashByte, UnhashByte;
    if bs == [] {
    } else {
      var front, last := bs[..|bs| - 1], bs[|bs| - 1];
      HashBytesBijective(h, front);
      HashByteBijective(HashBytes(h, front), last);
      HashByteBijective(h, last);
      HashBytesBijective(UnhashByte(h, last), front);
    }
  }

  lemma {:induction false} HashBytesAppends(h: nat, xs: seq<nat>, ys: seq<nat>)
    ensures HashBytes(h, xs + ys) == HashBytes(HashBytes(h, xs), ys)
  {
    hide HashByte;
    if ys == [] {
      assert xs + ys == xs;
    } else {
      HashBytesAppends(h, xs, ys[..|ys| - 1]);
      assert (xs + ys)[..|xs + ys| - 1] == xs + ys[..|ys| - 1];
    }
  }

  /** Two byte streams of one length that differ in exactly one byte hash differently. */
  lemma {:induction false} OneByteSeparates(h: nat, xs: seq<nat>, ys: seq<nat>, k: nat)
    requires h < WORD && AreBytes(xs) && AreBytes(ys)
    requires |xs| == |ys| && k < |xs| && xs[k] != ys[k]
    requires forall j :: 0 <= j < |xs| && j != k ==> xs[j] == ys[j]
    ensures HashBytes(h, xs) != HashBytes(h, ys)
  {
    hide HashByte, UnhashByte;
    var last := |xs| - 1;
    HashBytesBijective(h, xs[..last]);
    HashBytesBijective(h, ys[..last]);
    if k == last {
      assert xs[..last] == ys[..last];
      HashByteSeparates(HashBytes(h, xs[..last]), xs[last], ys[last]);
    } else {
      OneByteSeparates(h, xs[..last], ys[..last], k);
      HashByteBijective(HashBytes(h, xs[..last]), xs[last]);
      HashByteBijective(HashBytes(h, ys[..last]), ys[last]);
    }
  }

  // ----- Words, eight bytes each, least significant byte first. -----

  /** The value shifted right by `n` bytes. */
  function Shifted(v: nat, n: nat): nat { if n == 0 then v else Shifted(v, n - 1) / 256 }

  function Byte(v: nat, n: nat): nat { Shifted(v, n) % 256 }

  function BytesOf(v: nat): seq<nat> { seq(8, n requires n >= 0 => Byte(v, n)) }

  function MixWord(h: nat, v: nat): nat { HashBytes(h, BytesOf(v)) }

  lemma WordHasEightBytes(v: nat)
    requires v < WORD
    ensures Shifted(v, 8) == 0
  {
    assert Shifted(v, 2) == Shifted(v, 1) / 256 < 0x1_0000_0000_0000;
    assert Shifted(v, 4) == Shifted(v, 3) / 256 < 0x1_0000_0000;
    assert Shifted(v, 6) == Shifted(v, 5) / 256 < 0x1_0000;
  }

  lemma {:induction false} SameBytesSameWord(v: nat, w: nat, n: nat)
    requires n <= 8 && Shifted(v, 8) == Shifted(w, 8)
    requires forall k :: n <= k < 8 ==> Byte(v, k) == Byte(w, k)
    ensures Shifted(v, n) == Shifted(w, n)
    decreases 8 - n
  {
    if n == 8 {
    } else {
      SameBytesSameWord(v, w, n + 1);
      assert Shifted(v, n) == 256 * Shifted(v, n + 1) + Byte(v, n);
      assert Shifted(w, n) == 256 * Shifted(w, n + 1) + Byte(w, n);
    }
  }

  /** A word is determined by its bytes. */
  lemma BytesDetermineWord(v: nat, w: nat)
    requires v < WORD && w < WORD && BytesOf(v) == BytesOf(w)
    ensures v == w
  {
    WordHasEightBytes(v);
    WordHasEightBytes(w);
    forall k | 0 <= k < 8
      ensures Byte(v, k) == Byte(w, k)
    {
      assert BytesOf(v)[k] == BytesOf(w)[k];
    }
    SameBytesSameWord(v, w, 0);
  }

  /** A number from its bytes, least significant first. */
  function FromBytes(bs: seq<nat>): nat
    decreases |bs|
  {
    if bs == [] then 0 else bs[0] + 256 * FromBytes(bs[1..])
  }

  lemma {:induction false} FromLaterBytes(v: nat, n: nat)
    requires n <= 8 && v < WORD
    ensures FromBytes(BytesOf(v)[n..]) == Shifted(v, n)
    decreases 8 - n
  {
    if n == 8 {
      WordHasEightBytes(v);
    } else {
      FromLaterBytes(v, n + 1);
      assert BytesOf(v)[n..][0] == Byte(v, n) && BytesOf(v)[n..][1..] == BytesOf(v)[n + 1..];
      assert Shifted(v, n) == 256 * Shifted(v, n + 1) + Byte(v, n);
    }
  }

  /** The bytes of a word are the one list of eight bytes that reads, least significant first, as the word. */
  lemma BytesReadBack(v: nat, bs: seq<nat>)
    requires v < WORD
    ensures |bs| == 8 && AreBytes(bs) ==> (bs == BytesOf(v) <==> FromBytes(bs) == v)
    ensures |BytesOf(v)| == 8 && AreBytes(BytesOf(v))
  {
    FromLaterBytes(v, 0);
    assert BytesOf(v)[0..] == BytesOf(v);
    if |bs| == 8 && AreBytes(bs) && FromBytes(bs) == v { BytesAreUnique(bs, BytesOf(v)); }
  }

  lemma {:induction false} BytesAreUnique(bs: seq<nat>, cs: seq<nat>)
    requires |bs| == |cs| && AreBytes(bs) && AreBytes(cs) && FromBytes(bs) == FromBytes(cs)
    ensures bs == cs
    decreases |bs|
  {
    if bs == [] {
    } else {
      assert bs[0] == FromBytes(bs) % 256 && cs[0] == FromBytes(cs) % 256;
      BytesAreUnique(bs[1..], cs[1..]);
    }
  }

  /** `mix_u64`: eight rounds, one per byte of the word. */
  method MixU64(v: nat, h: nat) returns (r: nat)
    ensures r == MixWord(h, v)
  {
    hide HashByte, Byte;
    r := h;
    for i := 0 to 8
      invariant r == HashBytes(h, BytesOf(v)[..i])
    {
      var b := Byte(v, i);
      r := HashByte(r, b);
      assert BytesOf(v)[..i + 1][..i] == BytesOf(v)[..i];
    }
    assert BytesOf(v)[..8] == BytesOf(v);
  }
}
