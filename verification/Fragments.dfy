/** How a message is cut into fragments, and which packet sizes are probed. */
module Fragments {
  import opened Bytes

  const LOWER_LIMIT: nat := 250

  /** The fragments a message of `len` bytes is meant to have, for a discovered packet size `p`. */
  function FragmentCount(len: nat, p: nat): (n: nat)
    ensures n > 0
  {
    len / (p + 1) + 1
  }

  /** The size of all fragments but the last: evened out, and kept between the two limits. */
  function FragmentSize(len: nat, p: nat, limit: nat): (size: nat)
    ensures size >= LOWER_LIMIT
  {
    var n := FragmentCount(len, p);
    Max(Min((len + n - 1) / n, limit), LOWER_LIMIT)
  }

  function Cut(data: bytes, size: nat): seq<bytes>
    requires size > 0
    decreases |data|
  {
    if data == [] then []
    else if |data| <= size then [data]
    else [data[..size]] + Cut(data[size..], size)
  }

  /** How many pieces a length takes. */
  lemma PieceCount(n: nat, size: nat)
    requires size > 0
    ensures n == 0 ==> (n + size - 1) / size == 0
    ensures 0 < n <= size ==> (n + size - 1) / size == 1
    ensures n > size ==> (n + size - 1) / size == 1 + (n - size + size - 1) / size
  {
    if n > size {
      var q, r := (n - 1) / size, (n - 1) % size;
      Quotient(n - 1 + size, size, q + 1, r);
    } else if n > 0 {
      Quotient(n - 1 + size, size, 1, n - 1);
    } else {
      Quotient(size - 1, size, 0, size - 1);
    }
  }

  /** Pieces are non-empty, none is larger than the size, there are as few as possible, and none is lost. */
  lemma {:induction false} CutIsExact(data: bytes, size: nat)
    requires size > 0
    ensures Concat(Cut(data, size)) == data
    ensures forall i :: 0 <= i < |Cut(data, size)| ==> 0 < |Cut(data, size)[i]| <= size
    ensures |Cut(data, size)| == (|data| + size - 1) / size
    decreases |data|
  {
    PieceCount(|data|, size);
    if data == [] {
    } else if |data| <= size {
      assert Concat([data]) == data + Concat([data][1..]) == data;
    } else {
      CutIsExact(data[size..], size);
      assert data == data[..size] + data[size..];
    }
  }

  /** `len` bytes in `n` even fragments: the size rounds up. */
  lemma EvenSize(len: nat, n: nat, s: nat)
    requires n > 0
    ensures (len + n - 1) / n > s <==> len > n * s
  {
    var q := (len + n - 1) / n;
    Division(len + n - 1, n);
    if q > s {
      Scales(s + 1, q, n);
    } else {
      Scales(q, s, n);
    }
  }

  /** No fragment is larger than one byte above the discovered size, nor than the configured limit. */
  lemma {:induction false} SizeBound(len: nat, p: nat, limit: nat)
    requires p >= LOWER_LIMIT
    ensures FragmentSize(len, p, limit) <= Max(LOWER_LIMIT, Min(p + 1, limit))
  {
    var n := FragmentCount(len, p);
    assert len < n * (p + 1);
    EvenSize(len, n, p + 1);
  }

  /** Exactly when a message is cut into fragments larger than the packet size that was discovered. */
  lemma {:induction false} Oversized(len: nat, p: nat, limit: nat)
    requires p >= LOWER_LIMIT
    ensures FragmentSize(len, p, limit) > p <==> limit > p && len / (p + 1) + len % (p + 1) > p
  {
    var q, r, n := len / (p + 1), len % (p + 1), FragmentCount(len, p);
    EvenSize(len, n, p);
    assert len == q * (p + 1) + r;
    assert n * p == q * p + p;
  }

  /** The smallest such message: 501 bytes after 250 were discovered make fragments of 251. */
  lemma OversizedExample()
    ensures FragmentSize(501, 250, 1000) == 251
  {
  }

  /** A message never needs more fragments than were counted, unless the limit cuts their size. */
  lemma {:induction false} CountKept(len: nat, p: nat, limit: nat)
    requires limit > p
    ensures var size := FragmentSize(len, p, limit);
      (len + size - 1) / size <= FragmentCount(len, p)
  {
    var n, size := FragmentCount(len, p), FragmentSize(len, p, limit);
    var even := (len + n - 1) / n;
    Division(len, p + 1);
    EvenSize(len, n, p + 1);
    EvenSize(len, n, even);
    Scales(even, size, n);
    EvenSize(len, size, n);
  }

  // ------------------------------------------------------- probing

  /** The sizes probed from `size` on: each is 1.412 times the one before, and the last is the limit. */
  function ProbeSizes(size: nat, limit: nat): seq<nat>
    requires LOWER_LIMIT <= size <= limit
    decreases limit - size
  {
    if size >= limit then [size] else [size] + ProbeSizes(Min(1412 * size / 1000, limit), limit)
  }

  /** Probing climbs strictly, by at most that factor, and ends on the limit itself. */
  lemma {:induction false} ProbesClimb(size: nat, limit: nat)
    requires LOWER_LIMIT <= size <= limit
    ensures var s := ProbeSizes(size, limit);
      && s != [] && s[0] == size && s[|s| - 1] == limit
      && forall i :: 0 < i < |s| ==> s[i - 1] < s[i] && 1000 * s[i] <= 1412 * s[i - 1]
    decreases limit - size
  {
    if size < limit {
      ProbesClimb(Min(1412 * size / 1000, limit), limit);
    }
  }
}
