/** Which matches the compressor takes: all there are, and of each place the longest. */
module LzChoice {
  import opened Bytes
  import opened Lz
  import opened LzRoundTrip

  /**
   * The `n` bytes from position `p` on stand at `a` already: wholly before `p`, or as the byte before `p`
   * repeated. The header and the last byte of the packet take no part.
   */
  ghost predicate Earlier(d: bytes, p: nat, a: nat, n: nat) {
    4 <= a < p && (a + n <= p || a + 1 == p) && Agrees(d, p, Match(a, n))
  }

  lemma EarlierShorter(d: bytes, p: nat, a: nat, n: nat, m: nat)
    requires Earlier(d, p, a, n) && m <= n
    ensures Earlier(d, p, a, m)
  {
  }

  // ------------------------------------------------------- the two loops that measure

  lemma {:induction false} WindowStaysBefore(d: bytes, p: nat, a: nat, c: nat)
    requires 1 <= a && a + c <= p
    ensures c <= WindowMatch(d, a, p, c) <= p - a
    decreases |d| - (p + c)
  {
    if a + c < p && p + c < |d| && d[a + c - 1] == d[p + c - 1] {
      WindowStaysBefore(d, p, a, c + 1);
    }
  }

  lemma {:induction false} WindowReaches(d: bytes, p: nat, a: nat, c: nat, n: nat)
    requires Earlier(d, p, a, n) && a + n <= p && c <= n
    ensures WindowMatch(d, a, p, c) >= n
    decreases n - c
  {
    if c < n {
      assert SameAt(d, a, p, c);
      WindowReaches(d, p, a, c + 1, n);
    } else {
      WindowStaysBefore(d, p, a, c);
    }
  }

  lemma WindowExactly(d: bytes, p: nat, a: nat, n: nat)
    requires 4 <= a && a + 1 < p
    ensures Earlier(d, p, a, n) <==> n <= WindowMatch(d, a, p, 0)
  {
    WindowStaysBefore(d, p, a, 0);
    WindowMatchAgrees(d, a, p, 0);
    if Earlier(d, p, a, n) {
      WindowReaches(d, p, a, 0, n);
    }
  }

  lemma {:induction false} RunGoesOn(d: bytes, p: nat, c: nat)
    requires 2 <= p <= |d|
    ensures RunMatch(d, p, c) >= c
    decreases |d| - (p + c)
  {
    if p + c < |d| && d[p + c - 1] == d[p - 2] {
      RunGoesOn(d, p, c + 1);
    }
  }

  lemma {:induction false} RunReaches(d: bytes, p: nat, c: nat, n: nat)
    requires 5 <= p <= |d| && Earlier(d, p, p - 1, n) && c <= n
    requires c > 0 ==> d[p + c - 2] == d[p - 2]
    ensures RunMatch(d, p, c) >= n
    decreases n - c
  {
    if c < n {
      assert SameAt(d, p - 1, p, c);
      RunReaches(d, p, c + 1, n);
    } else {
      RunGoesOn(d, p, c);
    }
  }

  lemma RunExactly(d: bytes, p: nat, n: nat)
    requires 5 <= p <= |d|
    ensures Earlier(d, p, p - 1, n) <==> n <= RunMatch(d, p, 0)
  {
    RunMatchAgrees(d, p, 0);
    if Earlier(d, p, p - 1, n) {
      RunReaches(d, p, 0, n);
    }
  }

  // ------------------------------------------------------- the search

  /** Among the positions before `end` this is the first of the longest matches; two bytes mean that there is none. */
  ghost predicate FirstLongest(d: bytes, p: nat, end: nat, m: Match)
    requires p >= 1
  {
    && m.len >= 2
    && (m.len > 2 ==> 4 <= m.pos < end && WindowMatch(d, m.pos, p, 0) == m.len)
    && (forall x: nat :: 4 <= x < end ==>
          WindowMatch(d, x, p, 0) <= m.len && (m.len > 2 && x < m.pos ==> WindowMatch(d, x, p, 0) < m.len))
  }

  /** The first match that is too long for a token. */
  ghost predicate FirstLong(d: bytes, p: nat, end: nat, m: Match)
    requires p >= 1
  {
    && m.len > 17 && 4 <= m.pos < end && WindowMatch(d, m.pos, p, 0) == m.len
    && forall x: nat :: 4 <= x < m.pos ==> WindowMatch(d, x, p, 0) <= 17
  }

  lemma {:induction false} ScanExactly(d: bytes, p: nat, a: nat, best: Match)
    requires 6 <= p && 4 <= a <= p - 1 && FirstLongest(d, p, a, best) && best.len <= 17
    ensures var m := Scan(d, p, a, best);
      if m.len > 17 then FirstLong(d, p, p - 1, m) else FirstLongest(d, p, p - 1, m)
    decreases p - a
  {
    if a < p - 1 {
      var c := WindowMatch(d, a, p, 0);
      if c <= 17 {
        ScanExactly(d, p, a + 1, if c > best.len then Match(a, c) else best);
      }
    }
  }

  // ------------------------------------------------------- the choice

  /** All of the agreement at `a`. */
  ghost predicate Whole(d: bytes, p: nat, a: nat, n: nat) {
    Earlier(d, p, a, n) && !Earlier(d, p, a, n + 1)
  }

  /** No place before `end` has an agreement of `n` bytes. */
  ghost predicate Absent(d: bytes, p: nat, end: nat, n: nat) {
    forall b: nat :: b < end ==> !Earlier(d, p, b, n)
  }

  /** The first place with an agreement of more than 17 bytes. */
  ghost predicate FirstTooLong(d: bytes, p: nat, f: nat) {
    Earlier(d, p, f, 18) && Absent(d, p, f, 18)
  }

  /** `a` is the first of these places, or the repeated byte before `p` when that goes on for longer. */
  ghost predicate TooLong(d: bytes, p: nat, a: nat, n: nat) {
    exists f: nat ::
      && FirstTooLong(d, p, f)
      && (a == f || a + 1 == p)
      && if a == f then p > 0 && !Earlier(d, p, p - 1, n + 1) else !Earlier(d, p, f, n)
  }

  /**
   * The `n` bytes at `a` are what position `p` is copied from. Of agreements of at most 17 bytes it is the
   * longest, and of these the first.
   */
  ghost predicate Chosen(d: bytes, p: nat, a: nat, n: nat) {
    && n >= 3 && Whole(d, p, a, n)
    && if n > 17 then TooLong(d, p, a, n) else Absent(d, p, p, n + 1) && Absent(d, p, a, n)
  }

  lemma NowhereElse(d: bytes, p: nat, b: nat, n: nat)
    requires 6 <= p <= |d|
    ensures Earlier(d, p, b, n) <==>
      4 <= b < p && if b == p - 1 then n <= RunMatch(d, p, 0) else n <= WindowMatch(d, b, p, 0)
  {
    if 4 <= b < p - 1 {
      WindowExactly(d, p, b, n);
    } else if b == p - 1 {
      RunExactly(d, p, n);
    }
  }

  /** The search ends with no agreement of three bytes, or with the chosen one. */
  lemma BestIsChosen(d: bytes, p: nat)
    requires 6 <= p <= |d|
    ensures var m := BestMatch(d, p);
      if m.len > 2 then Chosen(d, p, m.pos, m.len) else Absent(d, p, p, 3)
  {
    ScanExactly(d, p, 4, Match(0, 2));
    var w, m := Scan(d, p, 4, Match(0, 2)), BestMatch(d, p);
    forall b: nat, n: nat
      ensures Earlier(d, p, b, n) <==>
        4 <= b < p && if b == p - 1 then n <= RunMatch(d, p, 0) else n <= WindowMatch(d, b, p, 0)
    {
      NowhereElse(d, p, b, n);
    }
    if m.len > 17 {
      var f := if w.len > 17 then w.pos else p - 1;
      assert FirstTooLong(d, p, f);
    }
  }

  /** The token copies the chosen bytes; of a length above 17 only the low four bits of its excess over two are left. */
  ghost predicate CopiesChosen(d: bytes, p: nat, t: Item)
    requires t.Copy?
  {
    exists a: nat, n: nat :: Chosen(d, p, a, n) && t.ofs == a - 3 && t.len == (n - 2) % 16 + 2
  }

  /** A token is a copy exactly where three bytes are there already, in the part of the packet that is searched. */
  ghost predicate RightToken(d: bytes, p: nat, t: Item) {
    && 4 <= p <= |d|
    && (t.Copy? <==> 6 <= p <= 2000 && !Absent(d, p, p, 3))
    && if t.Copy? then CopiesChosen(d, p, t) else t.b == d[p - 1]
  }

  lemma ChoiceExactly(d: bytes, p: nat)
    requires 4 <= p <= |d|
    ensures RightToken(d, p, Choose(d, p))
  {
    if 6 <= p <= 2000 {
      BestIsChosen(d, p);
      var m := BestMatch(d, p);
      if m.len > 2 {
        EarlierShorter(d, p, m.pos, m.len, 3);
      }
    }
  }

  lemma ShortIsLongest(d: bytes, p: nat, a: nat, n: nat, b: nat, m: nat)
    requires Chosen(d, p, a, n) && n <= 17 && Earlier(d, p, b, m)
    ensures m <= n && (m == n ==> a <= b)
  {
    if n < m {
      EarlierShorter(d, p, b, m, n + 1);
    }
  }

  lemma ShortIsUnique(d: bytes, p: nat, a: nat, n: nat, b: nat, m: nat)
    requires Chosen(d, p, a, n) && Chosen(d, p, b, m) && n <= 17
    ensures a == b && n == m
  {
    ShortIsLongest(d, p, a, n, b, m);
    ShortIsLongest(d, p, b, m, a, n);
  }

  lemma WholeIsLess(d: bytes, p: nat, a: nat, n: nat, m: nat)
    requires Whole(d, p, a, n)
    ensures Earlier(d, p, a, m) <==> m <= n
  {
    if Earlier(d, p, a, m) && m > n {
      EarlierShorter(d, p, a, m, n + 1);
    }
    if m <= n {
      EarlierShorter(d, p, a, n, m);
    }
  }

  lemma LongIsUnique(d: bytes, p: nat, a: nat, n: nat, b: nat, m: nat)
    requires Chosen(d, p, a, n) && Chosen(d, p, b, m) && n > 17 && m > 17
    ensures a == b
  {
    var f: nat :| FirstTooLong(d, p, f) && (a == f || a + 1 == p)
      && if a == f then p > 0 && !Earlier(d, p, p - 1, n + 1) else !Earlier(d, p, f, n);
    var g: nat :| FirstTooLong(d, p, g) && (b == g || b + 1 == p)
      && if b == g then p > 0 && !Earlier(d, p, p - 1, m + 1) else !Earlier(d, p, g, m);
    assert f == g;
    WholeIsLess(d, p, a, n, m);
    WholeIsLess(d, p, b, m, n);
  }

  /** At no position is there more than one choice. */
  lemma ChosenIsUnique(d: bytes, p: nat, a: nat, n: nat, b: nat, m: nat)
    requires Chosen(d, p, a, n) && Chosen(d, p, b, m)
    ensures a == b && n == m
  {
    if n <= 17 {
      ShortIsUnique(d, p, a, n, b, m);
    } else if m <= 17 {
      ShortIsUnique(d, p, b, m, a, n);
    } else {
      LongIsUnique(d, p, a, n, b, m);
      WholeIsLess(d, p, a, n, m);
      WholeIsLess(d, p, a, m, n);
    }
  }

  // ------------------------------------------------------- every token of a packet

  /** Where token `k` of `ts` begins, the first one beginning at `i`. */
  function Place(ts: seq<Token>, i: nat, k: nat): nat
    requires k <= |ts|
  {
    if k == 0 then i else Place(ts[1..], i + Width(ts[0]), k - 1)
  }

  lemma PlaceLater(t: Token, rest: seq<Token>, i: nat, k: nat)
    requires 0 < k <= |rest| + 1
    ensures Place([t] + rest, i, k) == Place(rest, i + Width(t), k - 1)
  {
    assert ([t] + rest)[1..] == rest;
  }

  /** The tokens from position `i` on begin with that position's token. */
  lemma TokensFirst(d: bytes, i: nat) returns (t: Token, next: nat, rest: seq<Token>)
    requires 4 <= i <= |d|
    ensures t == Choose(d, i) && next == i + Width(t) <= |d| + 1
    ensures rest == Tokens(d, next) && Tokens(d, i) == [t] + rest
  {
    ChoiceContinues(d, i);
    t := Choose(d, i);
    next := i + Width(t);
    rest := Tokens(d, next);
    TokensHead(d, i, t, rest);
  }

  lemma NoTokens(d: bytes, i: nat)
    requires 4 <= i && i > |d|
    ensures Tokens(d, i) == []
  {
  }

  lemma {:induction false} TokenIsChoice(d: bytes, i: nat, k: nat, ts: seq<Token>) returns (p: nat)
    requires 4 <= i <= |d| + 1 && ts == Tokens(d, i) && k < |ts|
    ensures 4 <= p <= |d| && p == Place(ts, i, k) && ts[k] == Choose(d, p)
    decreases k
  {
    if i > |d| { NoTokens(d, i); }
    var t, next, rest := TokensFirst(d, i);
    if k == 0 {
      p := i;
    } else {
      PlaceLater(t, rest, i, k);
      p := TokenIsChoice(d, next, k - 1, rest);
    }
  }

  /** The tokens cover the packet from its fourth byte to its last. */
  lemma {:induction false} TokensCover(d: bytes, i: nat)
    requires 4 <= i <= |d| + 1
    ensures Place(Tokens(d, i), i, |Tokens(d, i)|) == |d| + 1
    decreases |d| + 1 - i
  {
    if i <= |d| {
      var t, next, rest := TokensFirst(d, i);
      TokensCover(d, next);
      PlaceLater(t, rest, i, |rest| + 1);
    } else {
      NoTokens(d, i);
    }
  }

  /** The compressor takes every match that there is, each token's the one choice of its position. */
  lemma {:induction false} EveryMatchIsTaken(d: bytes, k: nat)
    requires |d| >= 3
    ensures var ts := Tokens(d, 4);
      && Place(ts, 4, |ts|) == |d| + 1
      && (k < |ts| ==> RightToken(d, Place(ts, 4, k), ts[k]))
  {
    TokensCover(d, 4);
    if k < |Tokens(d, 4)| {
      var p := TokenIsChoice(d, 4, k, Tokens(d, 4));
      ChoiceExactly(d, p);
    }
  }

  // ------------------------------------------------------- what that is worth: a packet of equal bytes

  ghost predicate EqualFrom(d: bytes, b: byte) {
    forall j :: 3 <= j < |d| ==> d[j] == b
  }

  lemma EqualRepeats(d: bytes, b: byte, p: nat)
    requires EqualFrom(d, b) && 6 <= p <= |d|
    ensures Earlier(d, p, p - 1, |d| - p)
  {
    var a := p - 1;
    forall j: nat | j < |d| - p
      ensures SameAt(d, a, p, j)
    {
      assert d[a + j - 1] == d[a + j];
    }
  }

  /** The chosen agreement goes on to the end of the packet. */
  lemma EqualIsChosen(d: bytes, b: byte, p: nat, a: nat, n: nat)
    requires EqualFrom(d, b) && 6 <= p <= |d| && Chosen(d, p, a, n)
    ensures n == |d| - p
  {
    EqualRepeats(d, b, p);
    if n < |d| - p {
      EarlierShorter(d, p, p - 1, |d| - p, n + 1);
    }
  }

  lemma EqualChoice(d: bytes, b: byte, p: nat)
    requires EqualFrom(d, b) && 6 <= p <= |d| && p <= 2000
    ensures var t := Choose(d, p);
      if |d| - p < 3 then t.Literal? else t.Copy? && t.len == (|d| - p - 2) % 16 + 2
  {
      ChoiceExactly(d, p);
    var t := Choose(d, p);
    EqualRepeats(d, b, p);
    if |d| - p >= 3 {
      EarlierShorter(d, p, p - 1, |d| - p, 3);
    }
    if t.Copy? {
      var a: nat, n: nat :| Chosen(d, p, a, n) && t.ofs == a - 3 && t.len == (n - 2) % 16 + 2;
      EqualIsChosen(d, b, p, a, n);
    }
  }

  lemma BodyCons(t: Token, ts: seq<Token>)
    ensures |Body([t] + ts)| == |Body(ts)| + if t.Copy? then 2 else 1
  {
    assert ([t] + ts)[1..] == ts;
  }

  lemma {:induction false} BodySplits(ts: seq<Token>, us: seq<Token>)
    ensures |Body(ts + us)| == |Body(ts)| + |Body(us)|
    decreases |ts|
  {
    if ts == [] {
      assert ts + us == us;
    } else {
      assert (ts + us)[1..] == ts[1..] + us;
      BodySplits(ts[1..], us);
    }
  }

  /** A control byte for each eight tokens, and the terminator. */
  lemma {:induction false} PackedLength(ts: seq<Token>)
    ensures |Packed(ts)| == |Body(ts)| + |ts| / 8 + 3
  {
    if |ts| >= 8 {
      PackedSplits(ts);
      PackedLength(ts[8..]);
      BodySplits(ts[..8], ts[8..]);
      assert ts == ts[..8] + ts[8..];
    }
  }

  ghost predicate Costs(ts: seq<Token>, tokens: nat, size: nat) {
    |ts| == tokens && |Body(ts)| == size
  }

  lemma TokensCost(d: bytes, p: nat, tokens: nat, size: nat)
    requires 4 <= p <= |d| && Costs(Tokens(d, p + Width(Choose(d, p))), tokens, size)
    ensures Costs(Tokens(d, p), tokens + 1, size + if Choose(d, p).Copy? then 2 else 1)
  {
    var t := Choose(d, p);
    TokensHead(d, p, t, Tokens(d, p + Width(t)));
    BodyCons(t, Tokens(d, p + Width(t)));
  }

  lemma LastByteAlone(d: bytes, b: byte)
    requires EqualFrom(d, b) && 6 <= |d| <= 2000
    ensures Costs(Tokens(d, |d|), 1, 1)
  {
    EqualChoice(d, b, |d|);
    assert Costs(Tokens(d, |d| + 1), 0, 0);
    TokensCost(d, |d|, 0, 0);
  }

  lemma SixteenAtOnce(d: bytes, b: byte, p: nat, q: nat)
    requires EqualFrom(d, b) && 6 <= p && q > 0 && |d| == p + 16 * q && |d| <= 2000
    ensures Choose(d, p).Copy? && Width(Choose(d, p)) == 16
  {
    EqualChoice(d, b, p);
    assert 16 * q - 2 == 16 * (q - 1) + 14;
  }

  /** Sixteen bytes at a time, and the last byte on its own. */
  lemma {:induction false} EqualTail(d: bytes, b: byte, p: nat, q: nat)
    requires EqualFrom(d, b) && 6 <= p && |d| == p + 16 * q && |d| <= 2000
    ensures Costs(Tokens(d, p), q + 1, 2 * q + 1)
    decreases q
  {
    if q == 0 {
      LastByteAlone(d, b);
    } else {
      SixteenAtOnce(d, b, p, q);
      EqualTail(d, b, p + 16, q - 1);
      TokensCost(d, p, q, 2 * q - 1);
    }
  }

  /** A packet of equal bytes shrinks to an eighth of its length and some twelve bytes. */
  lemma EqualBytesShrink(d: bytes, b: byte)
    requires EqualFrom(d, b) && 9 <= |d| <= 2000
    ensures var q := (|d| - 8) / 16; var n := 2 * q + 11 + (q + 4) / 8;
      |Compressed(d)| == Min(n, |d|) && (Compressed(d)[0] == 4 <==> n < |d|)
  {
    var q := (|d| - 8) / 16;
    EqualChoice(d, b, 6);
    var t := Choose(d, 6);
    assert 6 + Width(t) == |d| - 16 * q;
    EqualTail(d, b, 6 + Width(t), q);
    TokensCost(d, 6, q + 1, 2 * q + 1);
    TokensCost(d, 5, q + 2, 2 * q + 3);
    TokensCost(d, 4, q + 3, 2 * q + 4);
    PackedLength(Tokens(d, 4));
  }
}
