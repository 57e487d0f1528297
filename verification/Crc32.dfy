/** The table-driven CRC-32, and the bit-at-a-time division of section 8 of RFC 1952 that it must equal. */
module Crc32 {
  import opened Bytes

  const POLYNOMIAL: nat := 0x04C11DB7
  const REVERSED: nat := 0xEDB88320
  const ONES: nat := 0xFFFF_FFFF

  // ------------------------------------------------------- reference: one bit at a time

  /** One division step on the register whose lowest bit leaves first. */
  function Step(c: nat): nat {
    Xor(c / 2, if c % 2 == 1 then REVERSED else 0)
  }

  function Steps(c: nat, n: nat): nat
    decreases n
  {
    if n == 0 then c else Steps(Step(c), n - 1)
  }

  /** The register after the bytes `s`. */
  function Divided(c: nat, s: bytes): nat
    decreases |s|
  {
    if s == [] then c else Divided(Steps(Xor(c, s[0]), 8), s[1..])
  }

  function Crc(s: bytes): nat {
    Xor(Divided(ONES, s), ONES)
  }

  // ------------------------------------------------------- facts about exclusive or

  lemma {:induction false} BelowItsPower(x: nat)
    ensures x < Pow2(x)
  {
    if x > 0 {
      BelowItsPower(x - 1);
    }
  }

  lemma XorAssociates(a: nat, b: nat, c: nat)
    ensures Xor(Xor(a, b), c) == Xor(a, Xor(b, c))
  {
    var m := a + b + c;
    BelowItsPower(a);
    BelowItsPower(b);
    BelowItsPower(c);
    Pow2Grows(a, m);
    Pow2Grows(b, m);
    Pow2Grows(c, m);
    XorBound(a, b, m);
    XorBound(b, c, m);
    XorBound(Xor(a, b), c, m);
    XorBound(a, Xor(b, c), m);
    forall j: nat | j < m
      ensures Bit(Xor(Xor(a, b), c), j) == Bit(Xor(a, Xor(b, c)), j)
    {
      XorMeaning(a, b, j);
      XorMeaning(b, c, j);
      XorMeaning(Xor(a, b), c, j);
      XorMeaning(a, Xor(b, c), j);
    }
    BitsDecide(Xor(Xor(a, b), c), Xor(a, Xor(b, c)), m);
  }

  lemma XorDoubled(b: nat, y: nat)
    ensures Xor(2 * b, y) / 2 == Xor(b, y / 2) && Xor(2 * b, y) % 2 == y % 2
  {
    Halves(0, b);
    XorHalves(2 * b, y);
    OddSum(2 * b, y);
  }

  /** Numbers without common bits: exclusive or is addition. */
  lemma {:induction false} XorDisjoint(h: nat, l: nat, k: nat)
    requires l < Pow2(k)
    ensures Xor(Pow2(k) * h, l) == Pow2(k) * h + l
    decreases k
  {
    if k == 0 {
      XorZero(h);
    } else {
      var b := Pow2(k - 1) * h;
      assert Pow2(k) * h == 2 * b;
      XorDoubled(b, l);
      XorDisjoint(h, l / 2, k - 1);
      var x := Xor(2 * b, l);
      assert x == 2 * (x / 2) + x % 2;
    }
  }

  // ------------------------------------------------------- eight steps at once

  lemma StepCarry(b: nat, y: nat)
    ensures Step(Xor(2 * b, y)) == Xor(b, Step(y))
  {
    var c := if y % 2 == 1 then REVERSED else 0;
    XorDoubled(b, y);
    assert Step(Xor(2 * b, y)) == Xor(Xor(b, y / 2), c);
    XorAssociates(b, y / 2, c);
  }

  lemma Doubles(p: nat, q: nat)
    ensures (2 * p) * q == p * (2 * q) && (2 * p) * q == 2 * (p * q)
    ensures p * (2 * q) + p == p * (2 * q + 1)
  {
  }

  lemma PowerDoubles(k: nat, h: nat) returns (b: nat)
    requires k > 0
    ensures b == Pow2(k - 1) * h && Pow2(k) * h == 2 * b
  {
    Doubles(Pow2(k - 1), h);
    b := Pow2(k - 1) * h;
  }

  /** Bits above the ones being shifted out only move down. */
  lemma {:induction false} StepsCarry(k: nat, h: nat, x: nat, y: nat)
    requires x == Pow2(k) * h
    ensures Steps(Xor(x, y), k) == Xor(h, Steps(y, k))
    decreases k
  {
    if k > 0 {
      var b := PowerDoubles(k, h);
      StepCarry(b, y);
      StepsCarry(k - 1, h, b, Step(y));
    }
  }

  lemma PartSplits(c: nat, x: nat, h: nat, l: nat, b: nat, n: nat)
    requires x == Pow2(n) * h && l < Pow2(n) && c == x + l
    ensures Xor(c, b) == Xor(x, Xor(l, b))
  {
    XorDisjoint(h, l, n);
    XorAssociates(x, l, b);
  }

  /** `n` steps at once: only the low `n` bits of a register go through them. */
  lemma {:induction false} StepsAtOnce(c: nat, x: nat, h: nat, l: nat, b: nat, n: nat)
    requires x == Pow2(n) * h && l < Pow2(n) && c == x + l
    ensures Steps(Xor(c, b), n) == Xor(h, Steps(Xor(l, b), n))
  {
    PartSplits(c, x, h, l, b, n);
    StepsCarry(n, h, x, Xor(l, b));
  }

  /** The table form of one byte: only the low eight bits go through the steps. */
  lemma ByteAtOnce(c: nat, h: nat, l: nat, b: byte, n: nat)
    requires l < 256 && c == 256 * h + l && n == 8
    ensures Xor(l, b) < 256
    ensures Steps(Xor(c, b), n) == Xor(h, Steps(Xor(l, b), n))
  {
    Pow2Is256();
    XorBound(l, b, n);
    StepsAtOnce(c, 256 * h, h, l, b, n);
  }

  // ------------------------------------------------------- the table

  /** The low `n` bits of `x` in reverse order. */
  function Reflected(x: nat, n: nat): nat {
    if n == 0 then 0 else (if x % 2 == 1 then Pow2(n - 1) else 0) + Reflected(x / 2, n - 1)
  }

  lemma {:induction false} ReflectedBound(x: nat, n: nat)
    ensures Reflected(x, n) < Pow2(n)
  {
    if n > 0 {
      ReflectedBound(x / 2, n - 1);
    }
  }

  /** Adding the power of two above a number sets just that bit. */
  lemma {:induction false} BitOfSum(x: nat, m: nat, j: nat)
    requires x < Pow2(m)
    ensures Bit(Pow2(m) + x, j) == (j == m || Bit(x, j))
    decreases m
  {
    if m == 0 {
      ZeroBits(j);
      if j > 0 {
        ZeroBits(j - 1);
      }
    } else {
      assert (Pow2(m) + x) / 2 == Pow2(m - 1) + x / 2;
      if j > 0 {
        BitOfSum(x / 2, m - 1, j - 1);
      }
    }
  }

  lemma {:induction false} BitsAbove(x: nat, m: nat, j: nat)
    requires x < Pow2(m) && m <= j
    ensures !Bit(x, j)
    decreases m
  {
    if m == 0 {
      ZeroBits(j);
    } else {
      BitsAbove(x / 2, m - 1, j - 1);
    }
  }

  lemma {:induction false} BitOfHalf(x: nat, j: nat)
    ensures Bit(x / 2, j) == Bit(x, j + 1)
  {
  }

  lemma {:induction false} ReflectedBits(x: nat, n: nat, j: nat)
    ensures Bit(Reflected(x, n), j) == (j < n && Bit(x, n - 1 - j))
    decreases n
  {
    if n == 0 {
      ZeroBits(j);
    } else {
      ReflectedBits(x / 2, n - 1, j);
      ReflectedBound(x / 2, n - 1);
      BitOfSum(Reflected(x / 2, n - 1), n - 1, j);
    }
  }

  /** One division step on the register whose highest bit leaves first. */
  function StepMsb(x: nat): nat {
    Xor(x * 2 % U32, if x / 0x8000_0000 % 2 == 1 then POLYNOMIAL else 0)
  }

  function StepsMsb(x: nat, n: nat): nat {
    if n == 0 then x else StepMsb(StepsMsb(x, n - 1))
  }

  lemma PowersOfTwo()
    ensures Pow2(4) == 0x10 && Pow2(8) == 0x100 && Pow2(12) == 0x1000 && Pow2(16) == 0x1_0000
    ensures Pow2(20) == 0x10_0000 && Pow2(24) == 0x100_0000 && Pow2(28) == 0x1000_0000 && Pow2(32) == 0x1_0000_0000
  {
    assert Pow2(4) == 16 * Pow2(0);
    assert Pow2(8) == 16 * Pow2(4);
    assert Pow2(12) == 16 * Pow2(8);
    assert Pow2(16) == 16 * Pow2(12);
    assert Pow2(20) == 16 * Pow2(16);
    assert Pow2(24) == 16 * Pow2(20);
    assert Pow2(28) == 16 * Pow2(24);
    assert Pow2(32) == 16 * Pow2(28);
  }

  lemma Pow2Is32()
    ensures Pow2(32) == U32 && Pow2(31) == 0x8000_0000 && Pow2(24) == 0x100_0000
  {
    assert Pow2(6) == 64;
    assert Pow2(12) == 4096;
    assert Pow2(18) == 0x4_0000;
    assert Pow2(24) == 0x100_0000;
    assert Pow2(30) == 0x4000_0000;
  }

  lemma PolynomialsMatch()
    ensures Reflected(POLYNOMIAL, 32) == REVERSED
  {
    PowersOfTwo();
    assert Reflected(0x0, 4) == 0x0;
    assert Reflected(0x4, 8) == 0x20;
    assert Reflected(0x4C, 12) == 0x320;
    assert Reflected(0x4C1, 16) == 0x8320;
    assert Reflected(0x4C11, 20) == 0x88320;
    assert Reflected(0x4C11D, 24) == 0xB88320;
    assert Reflected(0x4C11DB, 28) == 0xDB88320;
  }

  lemma StepMsbBound(x: nat)
    requires x < U32
    ensures StepMsb(x) < U32
  {
    Pow2Is32();
    XorBound(x * 2 % U32, if x / 0x8000_0000 % 2 == 1 then POLYNOMIAL else 0, 32);
  }

  lemma {:induction false} StepsMsbBound(x: nat, n: nat)
    requires x < U32
    ensures StepsMsb(x, n) < U32
  {
    if n > 0 {
      StepsMsbBound(x, n - 1);
      StepMsbBound(StepsMsb(x, n - 1));
    }
  }

  lemma StepBound(c: nat)
    requires c < U32
    ensures Step(c) < U32
  {
    Pow2Is32();
    XorBound(c / 2, if c % 2 == 1 then REVERSED else 0, 32);
  }

  lemma {:induction false} BitIsDigit(x: nat, k: nat)
    ensures Bit(x, k) == (x / Pow2(k) % 2 == 1)
  {
    if k > 0 {
      BitIsDigit(x / 2, k - 1);
      DivisionNests(x, Pow2(k - 1));
    }
  }

  lemma DivisionNests(x: nat, p: nat)
    requires p > 0
    ensures x / (2 * p) == x / 2 / p
  {
    var q, r := x / 2 / p, x / 2 % p;
    assert x / 2 == p * q + r;
    assert x == 2 * (p * q + r) + x % 2 == (2 * p) * q + (2 * r + x % 2);
    Quotient(x, 2 * p, q, 2 * r + x % 2);
  }

  /** Shifting left inside 32 bits. */
  lemma DoubledBits(x: nat, j: nat)
    requires x < U32 && j < 32
    ensures Bit(x * 2 % U32, j) == (j > 0 && Bit(x, j - 1))
  {
    Pow2Is32();
    var low := x % 0x8000_0000;
    assert x * 2 % U32 == 2 * low;
    if j > 0 {
      BitOfHalf(2 * low, j - 1);
      assert 2 * low / 2 == low;
      if x >= 0x8000_0000 {
        BitOfSum(low, 31, j - 1);
      }
    }
  }

  /** Reversing turns the one division step into the other. */
  lemma StepReflects(x: nat)
    requires x < U32
    ensures Reflected(StepMsb(x), 32) == Step(Reflected(x, 32))
  {
    Pow2Is32();
    var y := Reflected(x, 32);
    ReflectedBound(x, 32);
    StepBound(y);
    StepMsbBound(x);
    ReflectedBound(StepMsb(x), 32);
    forall j: nat | j < 32
      ensures Bit(Reflected(StepMsb(x), 32), j) == Bit(Step(y), j)
    {
      StepReflectsBit(x, j);
    }
    BitsDecide(Reflected(StepMsb(x), 32), Step(y), 32);
  }

  lemma StepReflectsBit(x: nat, j: nat)
    requires x < U32 && j < 32
    ensures Bit(Reflected(StepMsb(x), 32), j) == Bit(Step(Reflected(x, 32)), j)
  {
    Pow2Is32();
    var y := Reflected(x, 32);
    // the feedback bit
    ReflectedBits(x, 32, 0);
    BitIsDigit(x, 31);
    var top := y % 2 == 1;
    assert top == (x / 0x8000_0000 % 2 == 1);
    var msbMask, lsbMask := if top then POLYNOMIAL else 0, if top then REVERSED else 0;
    // left: bit 31 - j of the shifted register
    ReflectedBits(StepMsb(x), 32, j);
    XorMeaning(x * 2 % U32, msbMask, 31 - j);
    DoubledBits(x, 31 - j);
    // right: bit j of the shifted reversed register
    XorMeaning(y / 2, lsbMask, j);
    BitOfHalf(y, j);
    ReflectedBits(x, 32, j + 1);
    // the masks
    PolynomialsMatch();
    ReflectedBits(POLYNOMIAL, 32, j);
    ZeroBits(j);
    ZeroBits(31 - j);
  }

  lemma {:induction false} StepsFromEnd(c: nat, n: nat)
    requires n > 0
    ensures Steps(c, n) == Step(Steps(c, n - 1))
    decreases n
  {
    if n > 1 {
      StepsFromEnd(Step(c), n - 1);
    }
  }

  lemma {:induction false} StepsReflect(x: nat, n: nat, size: nat)
    requires x < U32 && size == 32
    ensures Reflected(StepsMsb(x, n), size) == Steps(Reflected(x, size), n)
  {
    if n > 0 {
      StepsReflect(x, n - 1, size);
      StepsMsbBound(x, n - 1);
      StepReflects(StepsMsb(x, n - 1));
      StepsFromEnd(Reflected(x, size), n);
    }
  }

  /** A code reversed as a byte, moved to the top and reversed as a word is the code. */
  lemma CodeComesBack(code: byte, size: nat, width: nat)
    requires size == 8 && width == 32
    ensures Reflected(code, size) * Pow2(width - size) < U32
    ensures Reflected(Reflected(code, size) * Pow2(width - size), width) == code
  {
    PowersOfTwo();
    ReflectedBound(code, size);
    var x := Reflected(code, size) * Pow2(width - size);
    ReflectedBound(x, width);
    Pow2Grows(size, width);
    forall j: nat | j < width
      ensures Bit(Reflected(x, width), j) == Bit(code, j)
    {
      ReflectedBits(x, width, j);
      ShiftedBits(Reflected(code, size), width - size, width - 1 - j);
      if j < size {
        ReflectedBits(code, size, size - 1 - j);
      } else {
        BitsAbove(code, size, j);
      }
    }
    BitsDecide(Reflected(x, width), code, width);
  }

  lemma {:induction false} ShiftedBits(x: nat, k: nat, j: nat)
    ensures Bit(x * Pow2(k), j) == (j >= k && Bit(x, j - k))
    decreases k
  {
    if k > 0 {
      var y := x * Pow2(k - 1);
      assert x * Pow2(k) == 2 * y;
      if j > 0 {
        ShiftedBits(x, k - 1, j - 1);
      }
    }
  }

  /** The table entry for a code, with codes of `size` bits and a register of `width` bits. */
  function EntryFor(code: byte, size: nat, width: nat): nat
    requires size <= width
  {
    Reflected(StepsMsb(Reflected(code, size) * Pow2(width - size) % U32, size), width)
  }

  function Entry(code: byte): nat {
    EntryFor(code, 8, 32)
  }

  lemma FitsAlready(x: nat)
    requires x < U32
    ensures x % U32 == x
  {
  }

  lemma {:induction false} EntryIsSteps(code: byte, size: nat, width: nat)
    requires size == 8 && width == 32
    ensures EntryFor(code, size, width) == Steps(code, size)
  {
    var x := Reflected(code, size) * Pow2(width - size);
    CodeComesBack(code, size, width);
    FitsAlready(x);
    StepsReflect(x, size, width);
    assert EntryFor(code, size, width) == Reflected(StepsMsb(x, size), width);
  }

  /** Working through a string in two parts changes nothing. */
  lemma {:induction false} DividedInParts(c: nat, s: bytes, t: bytes)
    ensures Divided(c, s + t) == Divided(Divided(c, s), t)
    decreases |s|
  {
    if s == [] {
      assert s + t == t;
    } else {
      assert (s + t)[1..] == s[1..] + t;
      DividedInParts(Steps(Xor(c, s[0]), 8), s[1..], t);
    }
  }

  lemma {:induction false} StepsBound(c: nat, n: nat)
    requires c < U32
    ensures Steps(c, n) < U32
    decreases n
  {
    if n > 0 {
      StepBound(c);
      StepsBound(Step(c), n - 1);
    }
  }

  /** The register keeps to 32 bits. */
  lemma {:induction false} DividedBound(c: nat, s: bytes)
    requires c < U32
    ensures Divided(c, s) < U32
    decreases |s|
  {
    if s != [] {
      Pow2Is32();
      XorBound(c, s[0], 32);
      var x := Xor(c, s[0]);
      StepsBound(x, 8);
      DividedBound(Steps(x, 8), s[1..]);
    }
  }

  lemma CrcBound(s: bytes)
    ensures Crc(s) < U32
  {
    Pow2Is32();
    DividedBound(ONES, s);
    XorBound(Divided(ONES, s), ONES, 32);
  }

  // ------------------------------------------------------- the program

  /** Reverses the low `size` bits, or-ing them in one by one. */
  method Reflect(word: nat, size: nat) returns (value: nat)
    ensures value == Reflected(word, size)
  {
    value := 0;
    var rest := word;
    ghost var todo := size;
    for pos := 1 to size + 1
      invariant todo == size + 1 - pos
      invariant value % Pow2(todo) == 0 && value + Reflected(rest, todo) == Reflected(word, size)
    {
      Cleared(value, todo);
      if rest % 2 == 1 {
        value := OrBit(value, size - pos);
      }
      rest := rest / 2;
      todo := todo - 1;
    }
  }

  lemma {:induction false} Cleared(v: nat, n: nat)
    requires n > 0 && v % Pow2(n) == 0
    ensures v % Pow2(n - 1) == 0
    ensures OrBit(v, n - 1) == v + Pow2(n - 1) && OrBit(v, n - 1) % Pow2(n - 1) == 0
  {
    var p, q := Pow2(n - 1), v / Pow2(n);
    Doubles(p, q);
    assert v == (2 * p) * q;
    MultipleOf(v, p, 2 * q);
    MultipleOf(v + p, p, 2 * q + 1);
    assert v / 2 == p * q;
    if n > 1 {
      MultipleOf(v / 2, p, q);
      Cleared(v / 2, n - 1);
    }
  }

  lemma MultipleOf(x: nat, p: nat, q: nat)
    requires p > 0 && x == p * q
    ensures x % p == 0
  {
    Quotient(x, p, q, 0);
  }

  class Crc32 {
    const table: array<nat>

    ghost predicate Valid()
      reads this, table
    {
      table.Length == 256 && forall code: byte :: table[code] == Entry(code)
    }

    constructor ()
      ensures Valid() && fresh(table)
    {
      table := new nat[256];
      new;
      Initialize();
    }

    /** Fills the lookup table. */
    method Initialize()
      requires table.Length == 256
      modifies table
      ensures Valid()
    {
      for code := 0 to 256
        invariant forall c: byte :: c < code ==> table[c] == Entry(c)
      {
        FillEntry(code, 8, 32);
      }
    }

    method FillEntry(code: byte, size: nat, width: nat)
      requires table.Length == 256 && size <= width
      modifies table
      ensures table[code] == EntryFor(code, size, width)
      ensures forall c: byte :: c != code ==> table[c] == old(table[c])
    {
      var r := Reflect(code, size);
      table[code] := r * Pow2(width - size) % U32;
      Divide(code, size);
      r := Reflect(table[code], width);
      table[code] := r;
    }

    /** `n` division steps on one entry. */
    method Divide(code: byte, n: nat)
      requires table.Length == 256
      modifies table
      ensures table[code] == StepsMsb(old(table[code]), n)
      ensures forall c: byte :: c != code ==> table[c] == old(table[c])
    {
      for pos := 0 to n
        invariant forall c: byte :: c != code ==> table[c] == old(table[c])
        invariant table[code] == StepsMsb(old(table[code]), pos)
      {
        table[code] := Xor(table[code] * 2 % U32, if table[code] / 0x8000_0000 % 2 == 1 then POLYNOMIAL else 0);
      }
    }

    /** One byte by table: the low byte picks the entry, the others move down. */
    method TakeByte(before: nat, b: byte) returns (crc: nat)
      requires Valid()
      ensures crc == Steps(Xor(before, b), 8)
    {
      var h, l := before / 256, before % 256;
      crc := Lookup(before, h, l, b, 8);
    }

    method Lookup(c: nat, h: nat, l: nat, b: byte, n: nat) returns (crc: nat)
      requires Valid() && l < 256 && c == 256 * h + l && n == 8
      ensures crc == Steps(Xor(c, b), n)
    {
      ByteAtOnce(c, h, l, b, n);
      var code: byte := Xor(l, b);
      EntryIsSteps(code, n, 32);
      crc := Xor(h, table[code]);
    }

    /** Takes the register through the bytes `data`. */
    method PartialCRC(before: nat, data: bytes) returns (crc: nat)
      requires Valid()
      ensures crc == Divided(before, data)
    {
      crc := before;
      for i := 0 to |data|
        invariant Divided(crc, data[i..]) == Divided(before, data)
      {
        assert data[i..][1..] == data[i + 1..];
        crc := TakeByte(crc, data[i]);
      }
    }

    method FullCRC(data: bytes) returns (crc: nat)
      requires Valid()
      ensures crc == Crc(data)
    {
      crc := PartialCRC(0xffffffff, data);
      crc := Xor(crc, 0xffffffff);
    }
  }
}
