/**
 Byte-level helpers of the JOY BUS driver: the little-endian split of a
 16-bit I/O register into the bytes that go over the data channel, and the
 big-endian signed 32-bit integers the peer sends over the clock channel.
 */
module Bytes {

  /** Four bytes: one clock grant, or the payload of a Recv command. */
  type Quad = s: seq<bv8> | |s| == 4 witness [0, 0, 0, 0]

  const TwoTo31: int := 0x8000_0000
  const TwoTo32: int := 0x1_0000_0000

  predicate IsInt32(x: int) {
    -TwoTo31 <= x < TwoTo31
  }

  /** The low byte of a register, as the C code's truncating store into a `uint8_t`. */
  function Lo(w: bv16): bv8 {
    (w & 0xFF) as bv8
  }

  /** The high byte of a register (`w >> 8` stored into a `uint8_t`). */
  function Hi(w: bv16): bv8 {
    (w >> 8) as bv8
  }

  /** A register built from two bytes, low byte first (`b0 | b1 << 8`). */
  function Join(lo: bv8, hi: bv8): (w: bv16)
    ensures Lo(w) == lo && Hi(w) == hi
  {
    (lo as bv16) | ((hi as bv16) << 8)
  }

  /** A register is determined by its two bytes. */
  lemma SplitJoin(w: bv16)
    ensures Join(Lo(w), Hi(w)) == w
  {
  }

  function Pow256(n: nat): (p: nat)
    ensures p > 0
  {
    if n == 0 then 1 else 256 * Pow256(n - 1)
  }

  /** The unsigned value of a big-endian byte string. */
  function BeValue(bs: seq<bv8>): (n: nat)
    ensures n < Pow256(|bs|)
  {
    if |bs| == 0 then 0
    else
      var high := BeValue(bs[..|bs| - 1]);
      assert high * 256 <= (Pow256(|bs| - 1) - 1) * 256;
      high * 256 + bs[|bs| - 1] as nat
  }

  lemma ShiftIn(b: bv8, bit: bv8)
    requires b as nat < 128 && bit < 2
    ensures ((b << 1) | bit) as nat == 2 * (b as nat) + bit as nat
  {
  }

  /** Two bytes with the same value are the same byte. */
  lemma ByteValueInjective(a: bv8, b: bv8)
    requires a as nat == b as nat
    ensures a == b
  {
  }

  /** The byte whose value is `x`, assembled bit by bit from the most significant end. */
  function ByteOf(x: nat): (b: bv8)
    requires x < 256
    ensures b as nat == x
  {
    if x == 0 then 0
    else
      var high := ByteOf(x / 2);
      var low: bv8 := if x % 2 == 1 then 1 else 0;
      ShiftIn(high, low);
      (high << 1) | low
  }

  /** The `len` low-order bytes of `n`, most significant first. */
  function BeBytes(n: nat, len: nat): (bs: seq<bv8>)
    ensures |bs| == len
  {
    if len == 0 then [] else BeBytes(n / 256, len - 1) + [ByteOf(n % 256)]
  }

  lemma MulNonNegative(a: int, b: int)
    requires a >= 0 && b >= 0
    ensures a * b >= 0
  {
  }

  /** Quotient and remainder are the only such pair (Euclidean division). */
  lemma ModUnique(n: int, d: int, k: int, m: int)
    requires d > 0 && 0 <= m < d && n == d * k + m
    ensures n % d == m && n / d == k
  {
    var k', m' := n / d, n % d;
    assert n == d * k' + m';
    assert d * (k - k') == m' - m;
    if k > k' {
      MulNonNegative(d, k - k' - 1);
      assert false;
    } else if k < k' {
      MulNonNegative(d, k' - k - 1);
      assert false;
    }
  }

  lemma DivModNested(n: nat, p: nat)
    requires p > 0
    ensures ((n / 256) % p) * 256 + n % 256 == n % (256 * p)
  {
    var q, r := n / 256, n % 256;
    var k, m := q / p, q % p;
    assert n == 256 * q + r;
    assert q == p * k + m;
    assert n == (256 * p) * k + (256 * m + r);
    assert 256 * m + r < 256 * p by {
      assert m <= p - 1;
      assert 256 * m <= 256 * (p - 1);
    }
    ModUnique(n, 256 * p, k, 256 * m + r);
  }

  /** Decoding the bytes of `n` gives `n` back, reduced to `len` bytes. */
  lemma {:induction false} BeValueOfBytes(n: nat, len: nat)
    ensures BeValue(BeBytes(n, len)) == n % Pow256(len)
  {
    if len > 0 {
      var bs, p := BeBytes(n, len), Pow256(len - 1);
      assert bs[..len - 1] == BeBytes(n / 256, len - 1);
      assert bs[len - 1] as nat == n % 256;
      BeValueOfBytes(n / 256, len - 1);
      var high := BeValue(bs[..len - 1]);
      assert high == (n / 256) % p;
      assert BeValue(bs) == high * 256 + n % 256;
      DivModNested(n, p);
      assert Pow256(len) == 256 * p;
    }
  }

  /** Encoding the value of a byte string at its own width gives the bytes back. */
  lemma {:induction false} BeBytesOfValue(bs: seq<bv8>)
    ensures BeBytes(BeValue(bs), |bs|) == bs
  {
    if |bs| > 0 {
      var init, last := bs[..|bs| - 1], bs[|bs| - 1];
      var v := BeValue(bs);
      assert v == BeValue(init) * 256 + last as nat;
      ModUnique(v, 256, BeValue(init), last as nat);
      ByteValueInjective(ByteOf(last as nat), last);
      BeBytesOfValue(init);
      assert bs == init + [last];
    }
  }

  lemma Pow256Four()
    ensures Pow256(4) == TwoTo32
  {
    assert Pow256(2) == 65536;
  }

  /** Reinterpretation of an unsigned 32-bit pattern as two's complement. */
  function ToInt32(u: nat): (i: int)
    requires u < TwoTo32
    ensures IsInt32(i)
    ensures (u - i) % TwoTo32 == 0
  {
    if u < TwoTo31 then u else u - TwoTo32
  }

  /**
   The clock-channel wire format: four bytes in network order read as a
   signed 32-bit integer (`ntohl` applied to an `int32_t`).
   */
  function DecodeGrant(q: Quad): (g: int)
    ensures IsInt32(g)
    ensures g % TwoTo32 == BeValue(q)
  {
    Pow256Four();
    var u := BeValue(q);
    var g := ToInt32(u);
    ModUnique(g, TwoTo32, if u < TwoTo31 then 0 else -1, u);
    g
  }

  /** The four bytes a peer writes to grant `g` cycles. */
  function EncodeGrant(g: int): (q: Quad)
    requires IsInt32(g)
  {
    BeBytes(g % TwoTo32, 4)
  }

  /** Two's complement is the only signed 32-bit value with a given pattern. */
  lemma ToInt32OfPattern(g: int)
    requires IsInt32(g)
    ensures g % TwoTo32 < TwoTo32 && ToInt32(g % TwoTo32) == g
  {
    if g >= 0 {
      ModUnique(g, TwoTo32, 0, g);
    } else {
      ModUnique(g, TwoTo32, -1, g + TwoTo32);
    }
  }

  lemma EncodeGrantValue(g: int)
    requires IsInt32(g)
    ensures BeValue(EncodeGrant(g)) == g % TwoTo32
  {
    var u := g % TwoTo32;
    BeValueOfBytes(u, 4);
    Pow256Four();
    ModUnique(u, TwoTo32, 0, u);
  }

  /** Every signed 32-bit grant survives the trip over the clock channel. */
  lemma GrantRoundTrip(g: int)
    requires IsInt32(g)
    ensures DecodeGrant(EncodeGrant(g)) == g
  {
    EncodeGrantValue(g);
    ToInt32OfPattern(g);
  }

  /** Every four bytes on the clock channel are the encoding of the grant they decode to. */
  lemma BytesRoundTrip(q: Quad)
    ensures EncodeGrant(DecodeGrant(q)) == q
  {
    BeBytesOfValue(q);
  }
}
