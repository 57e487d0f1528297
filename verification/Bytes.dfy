/** Bytes, little-endian words and single bits, as the wire formats use them. */
module Bytes {

  type byte = b: int | 0 <= b < 256

  type bytes = seq<byte>

  function Min(a: int, b: int): int {
    if a < b then a else b
  }

  function Max(a: int, b: int): int {
    if a < b then b else a
  }

  const U16: nat := 0x1_0000
  const U32: nat := 0x1_0000_0000

  /** A 16-bit word read at the head of `s`; a missing byte is the terminating zero of the string. */
  function Word16(s: bytes): nat {
    var lo: nat := if |s| > 0 then s[0] else 0;
    var hi: nat := if |s| > 1 then s[1] else 0;
    lo + 256 * hi
  }

  /** A 32-bit word read from the first four bytes of `s`. */
  function Word32(s: bytes): (w: nat)
    requires |s| >= 4
    ensures w < U32
  {
    var b0: nat, b1: nat, b2: nat, b3: nat := s[0], s[1], s[2], s[3];
    b0 + 256 * (b1 + 256 * (b2 + 256 * b3))
  }

  function Bytes16(x: nat): (s: bytes)
    ensures |s| == 2
  {
    [x % 256, x / 256 % 256]
  }

  function Bytes32(x: nat): (s: bytes)
    ensures |s| == 4
  {
    [x % 256, x / 256 % 256, x / 256 / 256 % 256, x / 256 / 256 / 256 % 256]
  }

  lemma Bytes16Word16(x: nat, rest: bytes)
    requires x < U16
    ensures Word16(Bytes16(x) + rest) == x
  {
  }

  lemma Bytes32Word32(x: nat, rest: bytes)
    requires x < U32
    ensures Word32(Bytes32(x) + rest) == x
  {
    var s := Bytes32(x) + rest;
    var y := x / 256;
    var z := y / 256;
    var w := z / 256;
    assert w < 256;
    assert s[0] == x % 256 && s[1] == y % 256 && s[2] == z % 256 && s[3] == w;
  }

  lemma Word16Bytes16(s: bytes)
    requires |s| >= 2
    ensures Bytes16(Word16(s)) == s[..2]
  {
  }

  lemma Word32Bytes32(s: bytes)
    requires |s| >= 4
    ensures Bytes32(Word32(s)) == s[..4]
  {
    var b0: nat, b1: nat, b2: nat, b3: nat := s[0], s[1], s[2], s[3];
    var z := b2 + 256 * b3;
    var y := b1 + 256 * z;
    assert Word32(s) == b0 + 256 * y;
    assert Word32(s) / 256 == y && y / 256 == z && z / 256 == b3;
  }

  /** Bit `k` of `c`, counting from the lowest. */
  predicate Bit(c: nat, k: nat) {
    if k == 0 then c % 2 == 1 else Bit(c / 2, k - 1)
  }

  /** `c` with bit `k` or-ed in. */
  function OrBit(c: nat, k: nat): nat {
    if k == 0 then (if c % 2 == 1 then c else c + 1) else c % 2 + 2 * OrBit(c / 2, k - 1)
  }

  function Pow2(k: nat): (p: nat)
    ensures p > 0
  {
    if k == 0 then 1 else 2 * Pow2(k - 1)
  }

  lemma OrBitBound(c: nat, k: nat, m: nat)
    requires c < Pow2(m) && k < m
    ensures OrBit(c, k) < Pow2(m)
  {
    if k > 0 {
      OrBitBound(c / 2, k - 1, m - 1);
    }
  }

  lemma Pow2Is256()
    ensures Pow2(8) == 256
  {
    assert Pow2(3) == 8;
    assert Pow2(6) == 64;
  }

  lemma {:induction false} Pow2Grows(a: nat, b: nat)
    requires a <= b
    ensures Pow2(a) <= Pow2(b)
  {
    if a < b {
      Pow2Grows(a, b - 1);
    }
  }

  lemma {:induction false} OrBitMeaning(c: nat, k: nat, j: nat)
    ensures Bit(OrBit(c, k), j) == (j == k || Bit(c, j))
  {
    if k == 0 {
      if c % 2 == 0 {
        assert (c + 1) / 2 == c / 2;
      }
    } else {
      var r := OrBit(c, k);
      assert r / 2 == OrBit(c / 2, k - 1) && r % 2 == c % 2;
      if j > 0 {
        OrBitMeaning(c / 2, k - 1, j - 1);
      }
    }
  }

  /** `c | (0xff << n)` cut to a byte: bits `n` to 7 or-ed in. */
  function OrHigh(c: nat, n: nat): nat
    decreases 8 - n
  {
    if n >= 8 then c else OrHigh(OrBit(c, n), n + 1)
  }

  lemma {:induction false} OrHighMeaning(c: nat, n: nat, j: nat)
    requires j < 8 && c < 256
    ensures OrHigh(c, n) < 256
    ensures Bit(OrHigh(c, n), j) == (j >= n || Bit(c, j))
    decreases 8 - n
  {
    if n < 8 {
      Pow2Is256();
      OrBitBound(c, n, 8);
      OrBitMeaning(c, n, j);
      OrHighMeaning(OrBit(c, n), n + 1, j);
    }
  }

  /** A byte is its eight bits. */
  lemma {:induction false} BitsDecide(c: nat, d: nat, m: nat)
    requires c < Pow2(m) && d < Pow2(m)
    requires forall j: nat :: j < m ==> Bit(c, j) == Bit(d, j)
    ensures c == d
  {
    if m > 0 {
      forall j: nat | j < m - 1
        ensures Bit(c / 2, j) == Bit(d / 2, j)
      {
        assert Bit(c, j + 1) == Bit(d, j + 1);
      }
      BitsDecide(c / 2, d / 2, m - 1);
      assert Bit(c, 0) == Bit(d, 0);
    }
  }

  /** `c |= 1 << k` on a byte. */
  function SetBit(c: byte, k: nat): byte
    requires k < 8
  {
    Pow2Is256();
    OrBitBound(c, k, 8);
    OrBit(c, k)
  }

  /** `c |= 0xff << n` on a byte. */
  function SetHigh(c: byte, n: nat): byte {
    OrHighMeaning(c, n, 0);
    OrHigh(c, n)
  }

  /** Bitwise exclusive or. */
  function Xor(a: nat, b: nat): nat
    decreases a + b
  {
    if a == 0 && b == 0 then 0 else (a + b) % 2 + 2 * Xor(a / 2, b / 2)
  }

  lemma ZeroBits(j: nat)
    ensures !Bit(0, j)
  {
  }

  lemma Halves(low: nat, high: nat)
    requires low < 2
    ensures (low + 2 * high) / 2 == high && (low + 2 * high) % 2 == low
  {
  }

  lemma XorHalves(a: nat, b: nat)
    ensures Xor(a, b) / 2 == Xor(a / 2, b / 2) && Xor(a, b) % 2 == (a + b) % 2
  {
    Halves((a + b) % 2, Xor(a / 2, b / 2));
  }

  lemma OddSum(a: nat, b: nat)
    ensures ((a + b) % 2 == 1) == ((a % 2 == 1) != (b % 2 == 1))
  {
  }

  lemma {:induction false} XorMeaning(a: nat, b: nat, j: nat)
    ensures Bit(Xor(a, b), j) == (Bit(a, j) != Bit(b, j))
    decreases j
  {
    XorHalves(a, b);
    if j == 0 {
      OddSum(a, b);
    } else {
      XorMeaning(a / 2, b / 2, j - 1);
    }
  }

  lemma {:induction false} XorBound(a: nat, b: nat, m: nat)
    requires a < Pow2(m) && b < Pow2(m)
    ensures Xor(a, b) < Pow2(m)
    decreases m
  {
    if m > 0 {
      XorBound(a / 2, b / 2, m - 1);
    }
  }

  lemma {:induction false} XorUndoes(a: nat, b: nat)
    ensures Xor(Xor(a, b), b) == a
    decreases a + b
  {
    if a != 0 || b != 0 {
      XorHalves(a, b);
      XorHalves(Xor(a, b), b);
      XorUndoes(a / 2, b / 2);
      OddSum(a, b);
      OddSum(Xor(a, b), b);
      assert Xor(Xor(a, b), b) / 2 == a / 2;
    }
  }

  lemma {:induction false} XorZero(a: nat)
    ensures Xor(a, 0) == a && Xor(0, a) == a
  {
    if a != 0 {
      XorZero(a / 2);
    }
  }

  /** What a key has done to a byte shows the key. */
  lemma {:induction false} XorShowsKey(a: nat, b: nat)
    ensures Xor(Xor(a, b), a) == b
    decreases a + b
  {
    if a != 0 || b != 0 {
      XorHalves(a, b);
      XorHalves(Xor(a, b), a);
      XorShowsKey(a / 2, b / 2);
      OddSum(a, b);
      OddSum(Xor(a, b), a);
      assert Xor(Xor(a, b), a) / 2 == b / 2;
    }
  }

  function XorByte(a: byte, b: byte): byte {
    Pow2Is256();
    XorBound(a, b, 8);
    Xor(a, b)
  }

  function Sum(s: bytes): nat {
    if s == [] then 0 else Sum(s[..|s| - 1]) + s[|s| - 1]
  }

  // ------------------------------------------------------- division

  lemma Division(x: nat, n: nat)
    requires n > 0
    ensures n * (x / n) <= x < n * (x / n) + n
  {
  }

  lemma Scales(a: nat, b: nat, n: nat)
    requires a <= b
    ensures n * a <= n * b
  {
  }

  lemma Quotient(x: nat, d: nat, q: nat, r: nat)
    requires x == d * q + r && r < d
    ensures x / d == q
  {
    Division(x, d);
    if x / d < q {
      Scales(x / d + 1, q, d);
    } else if x / d > q {
      Scales(q + 1, x / d, d);
    }
  }

  // ------------------------------------------------------- strings of bytes

  function Concat(chunks: seq<bytes>): bytes {
    if chunks == [] then [] else chunks[0] + Concat(chunks[1..])
  }

  lemma Nothing(a: bytes)
    ensures a + [] == a && [] + a == a
  {
  }

  lemma Regroup(a: bytes, b: bytes, c: bytes)
    ensures (a + b) + c == a + (b + c)
  {
  }

  lemma {:induction false} ConcatSnoc(chunks: seq<bytes>, chunk: bytes)
    ensures Concat(chunks + [chunk]) == Concat(chunks) + chunk
    decreases |chunks|
  {
    if chunks == [] {
      assert Concat([chunk]) == chunk + [];
    } else {
      assert (chunks + [chunk])[1..] == chunks[1..] + [chunk];
      ConcatSnoc(chunks[1..], chunk);
      Regroup(chunks[0], Concat(chunks[1..]), chunk);
    }
  }
}
