/** What the checksum finds out: a packet changed within four neighbouring bytes never keeps its CRC. */
module Detection {
  import opened Bytes
  import opened Crc32

  // ------------------------------------------------------- a step loses nothing

  lemma {:induction false} TopBit(x: nat, k: nat)
    requires x < 2 * Pow2(k)
    ensures Bit(x, k) <==> x >= Pow2(k)
    decreases k
  {
    if k > 0 {
      TopBit(x / 2, k - 1);
    }
  }

  lemma HalfOfRegister()
    ensures Pow2(31) == 0x8000_0000
  {
    PowersOfTwo();
    assert Pow2(29) == 2 * Pow2(28) && Pow2(30) == 2 * Pow2(29) && Pow2(31) == 2 * Pow2(30);
  }

  /** The highest bit after a step is the one that was shifted out. */
  lemma StepShowsBit(c: nat)
    requires c < U32
    ensures Bit(Step(c), 31) <==> c % 2 == 1
  {
    HalfOfRegister();
    var half := c / 2;
    TopBit(half, 31);
    TopBit(REVERSED, 31);
    ZeroBits(31);
    XorMeaning(half, if c % 2 == 1 then REVERSED else 0, 31);
  }

  lemma XorIsInjective(x: nat, y: nat, k: nat)
    requires Xor(x, k) == Xor(y, k)
    ensures x == y
  {
    XorUndoes(x, k);
    XorUndoes(y, k);
  }

  lemma XorIsInjectiveRight(k: nat, x: nat, y: nat)
    requires Xor(k, x) == Xor(k, y)
    ensures x == y
  {
    XorCommutes(k, x);
    XorCommutes(k, y);
    XorIsInjective(x, y, k);
  }

  lemma {:induction false} XorCommutes(a: nat, b: nat)
    ensures Xor(a, b) == Xor(b, a)
    decreases a + b
  {
    if a != 0 || b != 0 {
      XorCommutes(a / 2, b / 2);
    }
  }

  lemma StepIsInjective(c: nat, d: nat)
    requires c < U32 && d < U32 && Step(c) == Step(d)
    ensures c == d
  {
    StepShowsBit(c);
    StepShowsBit(d);
    XorIsInjective(c / 2, d / 2, if c % 2 == 1 then REVERSED else 0);
  }

  lemma {:induction false} StepsAreInjective(c: nat, d: nat, n: nat)
    requires c < U32 && d < U32 && Steps(c, n) == Steps(d, n)
    ensures c == d
    decreases n
  {
    if n > 0 {
      StepBound(c);
      StepBound(d);
      StepsAreInjective(Step(c), Step(d), n - 1);
      StepIsInjective(c, d);
    }
  }

  // ------------------------------------------------------- a string at once

  /** The bytes as one number, the first of them lowest. */
  function Little(s: bytes): nat {
    if s == [] then 0 else s[0] + 256 * Little(s[1..])
  }

  lemma {:induction false} LittleIsBounded(s: bytes)
    ensures Little(s) < Pow2(8 * |s|)
    decreases |s|
  {
    if s != [] {
      var n := 8 * |s[1..]|;
      LittleIsBounded(s[1..]);
      assert 8 * |s| == n + 8;
      PowerByByte(n);
    }
  }

  lemma PowerByHalf(n: nat)
    ensures Pow2(n + 4) == 16 * Pow2(n)
  {
    var a, b, c := n + 1, n + 2, n + 3;
    assert Pow2(a) == 2 * Pow2(n) && Pow2(b) == 2 * Pow2(a) && Pow2(c) == 2 * Pow2(b) && Pow2(n + 4) == 2 * Pow2(c);
  }

  lemma PowerByByte(n: nat)
    ensures Pow2(n + 8) == 256 * Pow2(n)
  {
    PowerByHalf(n);
    PowerByHalf(n + 4);
  }

  lemma {:induction false} LittleIsInjective(s: bytes, t: bytes)
    requires |s| == |t| && Little(s) == Little(t)
    ensures s == t
    decreases |s|
  {
    if s != [] {
      var x: nat, y: nat := s[0], t[0];
      assert x == Little(s) % 256 && y == Little(t) % 256;
      LittleIsInjective(s[1..], t[1..]);
      assert s == [s[0]] + s[1..] && t == [t[0]] + t[1..];
    }
  }

  lemma {:induction false} StepsInParts(c: nat, m: nat, n: nat)
    ensures Steps(c, m + n) == Steps(Steps(c, m), n)
    decreases m
  {
    if m > 0 {
      StepsInParts(Step(c), m - 1, n);
    }
  }

  /** The first byte goes through its steps while the others wait above it. */
  lemma FirstByteSteps(r: nat, b: byte, w: nat, x: nat, n: nat)
    requires Pow2(n) == 256 && x == 256 * w
    ensures Steps(Xor(r, x + b), n) == Xor(Steps(Xor(r, b), n), w)
  {
    XorDisjoint(w, b, n);
    XorCommutes(r, Xor(x, b));
    XorAssociates(x, b, r);
    XorCommutes(b, r);
    StepsCarry(n, w, x, Xor(r, b));
    XorCommutes(w, Steps(Xor(r, b), n));
  }

  lemma DividedFirst(r: nat, s: bytes, n: nat)
    requires s != [] && n == 8
    ensures Divided(r, s) == Divided(Steps(Xor(r, s[0]), n), s[1..])
  {
  }

  lemma StepsOfFirst(r: nat, b: byte, w: nat, all: nat, n: nat, rest: nat, next: nat)
    requires Pow2(n) == 256 && all == 256 * w + b && next == Steps(Xor(r, b), n)
    ensures Steps(Xor(r, all), n + rest) == Steps(Xor(next, w), rest)
  {
    FirstByteSteps(r, b, w, 256 * w, n);
    StepsInParts(Xor(r, all), n, rest);
  }

  /** Dividing byte by byte is dividing all the bytes as one number. */
  lemma {:induction false} DividedAtOnce(r: nat, s: bytes, n: nat)
    requires n == 8
    ensures Divided(r, s) == Steps(Xor(r, Little(s)), n * |s|)
    decreases |s|
  {
    if s == [] {
      XorZero(r);
    } else {
      var next, rest := Steps(Xor(r, s[0]), n), n * |s[1..]|;
      DividedAtOnce(next, s[1..], n);
      DividedFirst(r, s, n);
      Pow2Is256();
      StepsOfFirst(r, s[0], Little(s[1..]), Little(s), n, rest, next);
    }
  }

  // ------------------------------------------------------- what is found out

  lemma {:induction false} DividedIsInjective(c: nat, d: nat, s: bytes)
    requires c < U32 && d < U32 && Divided(c, s) == Divided(d, s)
    ensures c == d
    decreases |s|
  {
    if s != [] {
      Pow2Is32();
      XorBound(c, s[0], 32);
      XorBound(d, s[0], 32);
      StepsBound(Xor(c, s[0]), 8);
      StepsBound(Xor(d, s[0]), 8);
      DividedIsInjective(Steps(Xor(c, s[0]), 8), Steps(Xor(d, s[0]), 8), s[1..]);
      StepsAreInjective(Xor(c, s[0]), Xor(d, s[0]), 8);
      XorIsInjective(c, d, s[0]);
    }
  }

  lemma BurstIsInjective(c: nat, x: bytes, y: bytes)
    requires c < U32 && |x| == |y| <= 4 && Divided(c, x) == Divided(c, y)
    ensures x == y
  {
    Pow2Is32();
    LittleIsBounded(x);
    LittleIsBounded(y);
    Pow2Grows(8 * |x|, 32);
    XorBound(c, Little(x), 32);
    XorBound(c, Little(y), 32);
    DividedAtOnce(c, x, 8);
    DividedAtOnce(c, y, 8);
    StepsAreInjective(Xor(c, Little(x)), Xor(c, Little(y)), 8 * |x|);
    XorIsInjectiveRight(c, Little(x), Little(y));
    LittleIsInjective(x, y);
  }

  /** Strings that differ within at most four neighbouring bytes leave different registers. */
  lemma BurstShows(c: nat, a: bytes, x: bytes, y: bytes, b: bytes)
    requires c < U32 && |x| == |y| <= 4 && x != y
    ensures Divided(c, a + x + b) != Divided(c, a + y + b)
  {
    DividedInParts(c, a + x, b);
    DividedInParts(c, a, x);
    DividedInParts(c, a + y, b);
    DividedInParts(c, a, y);
    DividedBound(c, a);
    var r := Divided(c, a);
    DividedBound(r, x);
    DividedBound(r, y);
    if Divided(Divided(r, x), b) == Divided(Divided(r, y), b) {
      DividedIsInjective(Divided(r, x), Divided(r, y), b);
      BurstIsInjective(r, x, y);
      assert false;
    }
  }

  /** And so they have different checksums. */
  lemma CrcShows(a: bytes, x: bytes, y: bytes, b: bytes)
    requires |x| == |y| <= 4 && x != y
    ensures Crc(a + x + b) != Crc(a + y + b)
  {
    BurstShows(ONES, a, x, y, b);
    if Crc(a + x + b) == Crc(a + y + b) {
      XorIsInjective(Divided(ONES, a + x + b), Divided(ONES, a + y + b), ONES);
    }
  }
}
