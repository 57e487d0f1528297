/** The packet cipher: each byte is xor-ed with its position and a checksum is put behind the mark byte. */
module Cipher {
  import opened Bytes

  /** Byte `i` of `d`, the packet starting at `ofs`: all but its first and last three bytes are changed. */
  function CryptByte(d: bytes, ofs: nat, i: nat): byte
    requires i < |d|
  {
    if ofs + 3 <= i && i + 4 <= |d| then XorByte(d[i], (i - ofs) % 256) else d[i]
  }

  function Crypt(d: bytes, ofs: nat): (r: bytes)
    ensures |r| == |d|
    ensures forall i: nat :: i < |d| ==> r[i] == CryptByte(d, ofs, i)
  {
    seq(|d|, i requires 0 <= i < |d| => CryptByte(d, ofs, i))
  }

  /** The sum of the bytes, cut to 16 bits. */
  function Sum16(s: bytes): (c: nat)
    ensures c < U16
  {
    if s == [] then 0 else (Sum16(s[..|s| - 1]) + s[|s| - 1]) % U16
  }

  /** The bytes the checksum covers: those the cipher changes. */
  function Middle(d: bytes, ofs: nat): bytes {
    if ofs + 6 <= |d| then d[ofs + 3..|d| - 3] else []
  }

  function Encrypted(d: bytes): (r: bytes)
    ensures |r| == if |d| < 4 then |d| + 1 else |d|
  {
    if |d| < 4 then d + [6]
    else
      var e := Crypt(d, 0);
      Marked(e, Sum16(Middle(e, 0)))
  }

  lemma {:induction false} Sum16IsSum(s: bytes)
    ensures Sum16(s) == Sum(s) % U16
  {
    if s != [] {
      Sum16IsSum(s[..|s| - 1]);
    }
  }

  /**
   * `r` is `d` with each byte but the first and the last three of the packet at `ofs` xor-ed with its place in
   * it; the places in `free` may hold anything.
   */
  ghost predicate XoredFrom(r: bytes, d: bytes, ofs: nat, free: set<nat>) {
    && |r| == |d|
    && (forall i: nat :: ofs + 3 <= i < |d| - 3 ==> Xor(r[i], d[i]) == (i - ofs) % 256)
    && (forall i: nat :: i < |d| && (i < ofs + 3 || i >= |d| - 3) && i !in free ==> r[i] == d[i])
  }

  lemma CryptXors(d: bytes, ofs: nat)
    ensures XoredFrom(Crypt(d, ofs), d, ofs, {})
  {
    forall i: nat | ofs + 3 <= i < |d| - 3
      ensures Xor(Crypt(d, ofs)[i], d[i]) == (i - ofs) % 256
    {
      XorShowsKey(d[i], (i - ofs) % 256);
    }
  }

  /** `c` is the 16-bit sum of the bytes that the cipher changes. */
  ghost predicate ChecksOf(c: nat, r: bytes, ofs: nat) {
    c == if ofs + 6 <= |r| then Sum(r[ofs + 3..|r| - 3]) % U16 else 0
  }

  lemma MiddleChecks(d: bytes, ofs: nat)
    ensures ChecksOf(Sum16(Middle(d, ofs)), d, ofs)
  {
    Sum16IsSum(Middle(d, ofs));
  }

  /** A packet is xor-ed with its own positions, and has the sum of the result in its second and third byte. */
  lemma EncryptedExactly(d: bytes)
    requires |d| >= 4
    ensures var r := Encrypted(d);
      XoredFrom(r, d, 0, {1, 2}) && ChecksOf(Word16(r[1..]), r, 0)
  {
    var e, r := Crypt(d, 0), Encrypted(d);
    CryptXors(d, 0);
    assert forall i: nat :: i < |d| && i !in {1, 2} ==> r[i] == e[i];
    assert Middle(r, 0) == Middle(e, 0);
    MiddleChecks(r, 0);
  }

  lemma SumStep(d: bytes, ofs: nat, i: nat)
    requires ofs <= i < |d|
    ensures Sum16(d[ofs..i + 1]) == (Sum16(d[ofs..i]) + d[i]) % U16
  {
    assert d[ofs..i + 1][..i - ofs] == d[ofs..i];
  }

  /** `result` is `e` up to `i` and still `data` from there on. */
  ghost predicate Between(result: bytes, e: bytes, data: bytes, i: nat) {
    i <= |data| == |e| && result == e[..i] + data[i..]
  }

  lemma BetweenStep(result: bytes, e: bytes, data: bytes, i: nat)
    requires i < |data| && Between(result, e, data, i)
    ensures result[i] == data[i] && Between(result[i := e[i]], e, data, i + 1)
  {
    assert data[i..] == [data[i]] + data[i + 1..];
    assert e[..i + 1] == e[..i] + [e[i]];
  }

  /** In-place encryption of a packet. */
  method Encrypt(data: bytes) returns (result: bytes)
    ensures result == Encrypted(data)
    ensures |data| < 4 ==> result == data + [6]
    ensures |data| >= 4 ==>
      XoredFrom(result, data, 0, {1, 2}) && ChecksOf(Word16(result[1..]), result, 0)
  {
    result := data;
    if |result| < 4 {
      result := result + [6];
      return;
    }
    var check: nat, i := 0, 3;
    ghost var e := Crypt(data, 0);
    assert result == e[..3] + data[3..];
    while i <= |result| - 4
      invariant 3 <= i && (i == 3 || i <= |data| - 3)
      invariant Between(result, e, data, i)
      invariant check == Sum16(e[3..i])
    {
      BetweenStep(result, e, data, i);
      SumStep(e, 3, i);
      result := result[i := XorByte(result[i], i % 256)];
      check := (check + result[i]) % U16;
      i := i + 1;
    }
    assert e[..i] + data[i..] == e;
    assert e[3..i] == Middle(e, 0);
    result := result[1 := check % 256];
    result := result[2 := check / 256];
    EncryptedExactly(data);
  }

  lemma NextKey(n: nat, key: nat)
    requires key == n % 256
    ensures (key + 1) % 256 == (n + 1) % 256
  {
  }

  /** In-place decryption of the packet at `ofs`; the two checksums are only set for a full packet. */
  method Decrypt(data: bytes, ofs: nat, extractedBefore: nat, calculatedBefore: nat)
    returns (result: bytes, extracted: nat, calculated: nat)
    ensures |data| < 4 + ofs ==>
      result == data + [6] && extracted == extractedBefore && calculated == calculatedBefore
    ensures |data| >= 4 + ofs ==>
      result == Crypt(data, ofs) && extracted == Word16(data[ofs + 1..]) && calculated == Sum16(Middle(data, ofs))
    ensures |data| >= 4 + ofs ==> XoredFrom(result, data, ofs, {}) && ChecksOf(calculated, data, ofs)
  {
    result, extracted, calculated := data, extractedBefore, calculatedBefore;
    if |result| < 4 + ofs {
      result := result + [6];
      return;
    }
    extracted := Word16(result[ofs + 1..]);
    calculated := 0;
    var xorKey: nat, i := 3, ofs + 3;
    ghost var e := Crypt(data, ofs);
    assert result == e[..i] + data[i..];
    while i <= |result| - 4
      invariant ofs + 3 <= i && (i == ofs + 3 || i <= |data| - 3)
      invariant xorKey == (i - ofs) % 256
      invariant Between(result, e, data, i)
      invariant calculated == Sum16(data[ofs + 3..i])
    {
      BetweenStep(result, e, data, i);
      SumStep(data, ofs + 3, i);
      calculated := (calculated + result[i]) % U16;
      result := result[i := XorByte(result[i], xorKey)];
      NextKey(i - ofs, xorKey);
      xorKey := (xorKey + 1) % 256;
      i := i + 1;
    }
    assert e[..i] + data[i..] == e;
    assert data[ofs + 3..i] == Middle(data, ofs);
    CryptXors(data, ofs);
    MiddleChecks(data, ofs);
  }

  lemma MiddleBehind(prefix: bytes, e: bytes)
    ensures Middle(prefix + e, |prefix|) == Middle(e, 0)
  {
    var d, n := prefix + e, |prefix|;
    if n + 6 <= |d| {
      assert d[n + 3..|d| - 3] == e[3..|e| - 3];
    }
  }

  /** The packet with its checksum in the two bytes after the mark. */
  function Marked(d: bytes, c: nat): bytes
    requires |d| >= 4 && c < U16
  {
    d[1 := c % 256][2 := c / 256]
  }

  lemma EncryptedAt(d: bytes, i: nat)
    requires 4 <= |d| && i < |d|
    ensures Encrypted(d)[i] == Marked(Crypt(d, 0), Sum16(Middle(Crypt(d, 0), 0)))[i]
  {
  }

  /** Byte `i` of the encrypted packet is decrypted to what it was. */
  lemma ByteComesBack(d: bytes, i: nat)
    requires 4 <= |d| && i < |d|
    ensures CryptByte(Encrypted(d), 0, i) == Marked(d, Sum16(Middle(Crypt(d, 0), 0)))[i]
  {
    EncryptedAt(d, i);
    if 3 <= i && i + 4 <= |d| {
      XorUndoes(d[i], i % 256);
    }
  }

  lemma CryptBehind(prefix: bytes, e: bytes, i: nat)
    requires i < |e|
    ensures CryptByte(prefix + e, |prefix|, |prefix| + i) == CryptByte(e, 0, i)
  {
  }

  lemma CryptLeaves(prefix: bytes, e: bytes, i: nat)
    requires i < |prefix|
    ensures CryptByte(prefix + e, |prefix|, i) == prefix[i]
  {
  }

  /** Decryption behind any prefix gives the packet back, with the checksum in the two bytes after the mark. */
  lemma {:induction false} RoundTrip(prefix: bytes, d: bytes)
    requires |d| >= 4
    ensures var e, n := prefix + Encrypted(d), |prefix|;
      var c := Word16(e[n + 1..]);
      && Crypt(e, n) == prefix + d[1 := c % 256][2 := c / 256]
      && c == Sum16(Middle(e, n))
  {
    var f, n := Encrypted(d), |prefix|;
    var e, c := prefix + f, Sum16(Middle(Crypt(d, 0), 0));
    MiddleBehind(prefix, f);
    assert Middle(f, 0) == Middle(Crypt(d, 0), 0);
    assert e[n + 1..][..2] == [c % 256, c / 256];
    var p, want := Crypt(e, n), prefix + Marked(d, c);
    forall i: nat | i < |e|
      ensures p[i] == want[i]
    {
      if i < n {
        CryptLeaves(prefix, f, i);
      } else {
        CryptBehind(prefix, f, i - n);
        ByteComesBack(d, i - n);
      }
    }
  }

  /** What is left of a packet after both directions. */
  function Through(d: bytes): bytes {
    var e := Encrypted(d);
    if |e| < 4 then e + [6] else Crypt(e, 0)
  }

  /**
   * Only packets of four bytes and more come through; shorter ones are padded and stay padded, those of at
   * most two bytes by both directions.
   */
  lemma ComesThrough(d: bytes)
    ensures |Through(d)| == |d| <==> |d| >= 4
    ensures |Through(d)| == |d| + 1 <==> |d| == 3
    ensures |Through(d)| == |d| + 2 <==> |d| <= 2
    ensures |d| >= 4 ==> Through(d)[0] == d[0] && Through(d)[3..] == d[3..]
  {
    if |d| >= 4 {
      var e := Encrypted(d);
      Nothing(e);
      RoundTrip([], d);
      Nothing(Marked(d, Word16(e[1..])));
    }
  }
}
