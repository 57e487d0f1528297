/** What the compressor promises: the decoder gives the packet back, and a packet never grows. */
module LzRoundTrip {
  import opened Bytes
  import opened Lz

  // ------------------------------------------------------- the decoder reads what the packer wrote

  /** What the decoder appends for a list of tokens. */
  function Expand(out: bytes, ts: seq<Token>, h: nat): (r: bytes)
    ensures |r| >= |out|
    decreases |ts|
  {
    if |ts| == 0 then out
    else
      match ts[0]
      case Literal(b) => Expand(out + [b], ts[1..], h)
      case Copy(ofs, len) => Expand(CopyRun(out, ofs + h, len), ts[1..], h)
  }

  lemma {:induction false} ExpandSplits(out: bytes, ts: seq<Token>, us: seq<Token>, h: nat)
    ensures Expand(out, ts + us, h) == Expand(Expand(out, ts, h), us, h)
    decreases |ts|
  {
    if ts == [] {
      assert ts + us == us;
    } else {
      assert (ts + us)[1..] == ts[1..] + us;
      match ts[0]
      case Literal(b) => ExpandSplits(out + [b], ts[1..], us, h);
      case Copy(ofs, len) => ExpandSplits(CopyRun(out, ofs + h, len), ts[1..], us, h);
    }
  }

  lemma ExpandOne(out: bytes, t: Token, h: nat)
    ensures Expand(out, [t], h) == match t case Literal(b) => out + [b] case Copy(ofs, len) => CopyRun(out, ofs + h, len)
  {
    assert [t][1..] == [];
  }

  lemma LiteralReads(b: byte, cbf: byte, k: nat, tail: bytes, h: nat, out: bytes)
    requires k < 8 && |out| >= 1 && !Bit(cbf, k)
    ensures Slots([b] + tail, cbf, k, h, out) == Slots(tail, cbf, k + 1, h, out + [b])
  {
    assert ([b] + tail)[1..] == tail;
    SlotsStep([b] + tail, cbf, k, h, out);
  }

  lemma CopyReads(ofs: nat, len: nat, cbf: byte, k: nat, tail: bytes, h: nat, out: bytes)
    requires k < 8 && |out| >= 1 && Bit(cbf, k) && 1 <= ofs < 4096 && 2 <= len < 18
    ensures var s := Bytes16(ofs * 16 + (len - 2)) + tail;
      Slots(s, cbf, k, h, out) == Slots(tail, cbf, k + 1, h, CopyRun(out, ofs + h, len))
  {
    var uop := ofs * 16 + (len - 2);
    var s := Bytes16(uop) + tail;
    Bytes16Word16(uop, tail);
    assert s[2..] == tail;
    assert uop / 16 == ofs && uop % 16 == len - 2;
    SlotsStep(s, cbf, k, h, out);
  }

  lemma SlotReads(t: Token, cbf: byte, k: nat, tail: bytes, h: nat, out: bytes)
    requires k < 8 && |out| >= 1
    requires Bit(cbf, k) == t.Copy?
    ensures Slots(TokenBytes(t) + tail, cbf, k, h, out) == Slots(tail, cbf, k + 1, h, Expand(out, [t], h))
  {
    ExpandOne(out, t, h);
    var next := Expand(out, [t], h);
    match t
    case Literal(b) =>
      assert TokenBytes(t) == [b] && next == out + [b];
      LiteralReads(b, cbf, k, tail, h, out);
    case Copy(ofs, len) =>
      assert TokenBytes(t) == Bytes16(ofs * 16 + (len - 2)) && next == CopyRun(out, ofs + h, len);
      CopyReads(ofs, len, cbf, k, tail, h, out);
  }

  lemma {:induction false} SlotsRead(ts: seq<Token>, cbf: byte, k: nat, tail: bytes, h: nat, out: bytes)
    requires k + |ts| <= 8 && |out| >= 1
    requires forall j: nat :: j < |ts| ==> Bit(cbf, k + j) == ts[j].Copy?
    ensures Slots(Body(ts) + tail, cbf, k, h, out) == Slots(tail, cbf, k + |ts|, h, Expand(out, ts, h))
  {
    if ts == [] {
      assert Body(ts) + tail == tail;
    } else {
      var t, us := ts[0], ts[1..];
      assert Body(ts) + tail == TokenBytes(t) + (Body(us) + tail);
      assert Bit(cbf, k + 0) == t.Copy?;
      SlotReads(t, cbf, k, Body(us) + tail, h, out);
      forall j: nat | j < |us|
        ensures Bit(cbf, k + 1 + j) == us[j].Copy?
      {
        assert Bit(cbf, k + (j + 1)) == ts[j + 1].Copy?;
      }
      SlotsRead(us, cbf, k + 1, tail, h, Expand(out, [t], h));
      assert ts == [t] + us;
      ExpandSplits(out, [t], us, h);
    }
  }

  lemma GroupOpens(cbf: byte, body: bytes, h: nat, out: bytes)
    requires |out| >= 1
    ensures Groups([cbf] + body, h, out) == Slots(body, cbf, 0, h, out)
  {
    assert ([cbf] + body)[1..] == body;
  }

  lemma FlagsOf(ts: seq<Token>)
    requires |ts| <= 8
    ensures Control(ts) < 256 && forall j: nat :: j < |ts| ==> Bit(Control(ts), 0 + j) == ts[j].Copy?
  {
    ControlIsByte(ts);
    forall j: nat | j < |ts|
      ensures Bit(Control(ts), 0 + j) == ts[j].Copy?
    {
      ControlBits(ts, j);
    }
  }

  lemma GroupReads(ts: seq<Token>, tail: bytes, h: nat, out: bytes)
    requires |ts| == 8 && |out| >= 1
    ensures Groups(Group(ts) + tail, h, out) == Groups(tail, h, Expand(out, ts, h))
  {
    FlagsOf(ts);
    var cbf: byte := Control(ts);
    assert Group(ts) + tail == [cbf] + (Body(ts) + tail);
    GroupOpens(cbf, Body(ts) + tail, h, out);
    SlotsRead(ts, cbf, 0, tail, h, out);
  }

  lemma LastFlagsOf(ts: seq<Token>, cbf: byte)
    requires |ts| < 8 && Control(ts) < 256 && cbf == OrHigh(Control(ts), |ts|)
    ensures Bit(cbf, |ts|) && forall j: nat :: j < |ts| ==> Bit(cbf, 0 + j) == ts[j].Copy?
  {
    forall j: nat | j < |ts|
      ensures Bit(cbf, 0 + j) == ts[j].Copy?
    {
      ControlBits(ts, j);
      OrHighMeaning(Control(ts), |ts|, j);
    }
    OrHighMeaning(Control(ts), |ts|, |ts|);
  }

  lemma LastGroupReads(ts: seq<Token>, h: nat, out: bytes)
    requires |ts| < 8 && |out| >= 1
    ensures Groups(LastGroup(ts), h, out) == Expand(out, ts, h)
  {
    ControlIsByte(ts);
    var cbf := LastGroup(ts)[0];
    LastFlagsOf(ts, cbf);
    assert LastGroup(ts) == [cbf] + (Body(ts) + [0, 0]);
    GroupOpens(cbf, Body(ts) + [0, 0], h, out);
    SlotsRead(ts, cbf, 0, [0, 0], h, out);
    EndSlot(cbf, |ts|, h, Expand(out, ts, h));
  }

  lemma EndSlot(cbf: byte, k: nat, h: nat, out: bytes)
    requires k < 8 && |out| >= 1 && Bit(cbf, k)
    ensures Slots([0, 0], cbf, k, h, out) == out
  {
    SlotsEnd([0, 0], cbf, k, h, out);
  }

  lemma {:induction false} PackedReads(ts: seq<Token>, h: nat, out: bytes)
    requires |out| >= 1
    ensures Groups(Packed(ts), h, out) == Expand(out, ts, h)
  {
    if |ts| < 8 {
      LastGroupReads(ts, h, out);
    } else {
      GroupReads(ts[..8], Packed(ts[8..]), h, out);
      PackedReads(ts[8..], h, Expand(out, ts[..8], h));
      ExpandSplits(out, ts[..8], ts[8..], h);
      assert ts == ts[..8] + ts[8..];
    }
  }

  /** The output, marked in byte 0 when the decoder ran dry inside a group. */
  function DryEnd(out: bytes, dry: bool): bytes
    requires |out| >= 1
  {
    if dry then out[0 := 4] else out
  }

  lemma DryGroupReads(ts: seq<Token>, h: nat, out: bytes)
    requires 0 < |ts| < 8 && |out| >= 1
    ensures Groups(Group(ts), h, out) == DryEnd(Expand(out, ts, h), true)
  {
    FlagsOf(ts);
    var cbf: byte := Control(ts);
    GroupOpens(cbf, Body(ts), h, out);
    SlotsRead(ts, cbf, 0, [], h, out);
    Nothing(Body(ts));
    SlotsEnd([], cbf, |ts|, h, Expand(out, ts, h));
  }

  /** Without its terminator a stream is still expanded; running dry inside a group shows in byte 0. */
  lemma {:induction false} UnterminatedReads(ts: seq<Token>, q: nat, n: nat, h: nat, out: bytes)
    requires |out| >= 1 && |ts| == 8 * q + n && n < 8
    ensures Groups(Stream(ts), h, out) == DryEnd(Expand(out, ts, h), n > 0)
    decreases q
  {
    if q > 0 {
      GroupFirst(ts);
      GroupReads(ts[..8], Stream(ts[8..]), h, out);
      UnterminatedReads(ts[8..], q - 1, n, h, Expand(out, ts[..8], h));
      ExpandSplits(out, ts[..8], ts[8..], h);
      assert ts == ts[..8] + ts[8..];
    } else if n > 0 {
      StreamShort(ts);
      DryGroupReads(ts, h, out);
    } else {
      assert ts == [] && Stream(ts) == [];
    }
  }

  // ------------------------------------------------------- the chosen tokens describe the packet

  /** The bytes `j` places after positions `p` and `i` are equal. */
  ghost predicate SameAt(d: bytes, p: nat, i: nat, j: nat) {
    1 <= p + j <= |d| && 1 <= i + j <= |d| && d[p + j - 1] == d[i + j - 1]
  }

  /** The bytes at `m` really are the bytes at position `i`, short of the packet's last byte. */
  ghost predicate Agrees(d: bytes, i: nat, m: Match)
  {
    (m.len > 0 ==> i + m.len <= |d|) && forall j: nat :: j < m.len ==> SameAt(d, m.pos, i, j)
  }

  lemma {:induction false} WindowMatchAgrees(d: bytes, a: nat, i: nat, c: nat)
    requires 1 <= a < i && Agrees(d, i, Match(a, c))
    ensures Agrees(d, i, Match(a, WindowMatch(d, a, i, c)))
    decreases |d| - (i + c)
  {
    if a + c < i && i + c < |d| && d[a + c - 1] == d[i + c - 1] {
      WindowMatchAgrees(d, a, i, c + 1);
    }
  }

  lemma {:induction false} RunMatchAgrees(d: bytes, i: nat, c: nat)
    requires 2 <= i <= |d| && Agrees(d, i, Match(i - 1, c))
    requires c > 0 ==> d[i + c - 2] == d[i - 2]
    ensures Agrees(d, i, Match(i - 1, RunMatch(d, i, c)))
    decreases |d| - (i + c)
  {
    if i + c < |d| && d[i + c - 1] == d[i - 2] {
      RunMatchAgrees(d, i, c + 1);
    }
  }

  lemma {:induction false} ScanAgrees(d: bytes, i: nat, a: nat, best: Match)
    requires 4 <= a && 6 <= i
    requires best.len > 2 ==> 4 <= best.pos < i && Agrees(d, i, best)
    ensures var m := Scan(d, i, a, best); m.len > 2 ==> Agrees(d, i, m)
    decreases i - a
  {
    if a < i - 1 {
      WindowMatchAgrees(d, a, i, 0);
      var c := WindowMatch(d, a, i, 0);
      if c > best.len {
        if c <= 17 {
          ScanAgrees(d, i, a + 1, Match(a, c));
        }
      } else {
        ScanAgrees(d, i, a + 1, best);
      }
    }
  }

  lemma BestMatchAgrees(d: bytes, i: nat)
    requires 6 <= i <= |d|
    ensures BestMatch(d, i).len > 2 ==> Agrees(d, i, BestMatch(d, i))
  {
    ScanAgrees(d, i, 4, Match(0, 2));
    RunMatchAgrees(d, i, 0);
  }

  /** Copying from an agreeing position continues the packet, even where the copy reads its own output. */
  lemma {:induction false} CopyContinues(d: bytes, b: nat, i: nat, n: nat)
    requires 1 <= b < i && i + n - 1 <= |d|
    requires forall j: nat :: j < n ==> SameAt(d, b, i, j)
    ensures CopyRun(d[..i - 1], b, n) == d[..i - 1 + n]
    decreases n
  {
    if n > 0 {
      assert SameAt(d, b, i, 0);
      assert d[..i - 1] + [d[b - 1]] == d[..i];
      var b', i' := b + 1, i + 1;
      forall j: nat | j < n - 1
        ensures SameAt(d, b', i', j)
      {
        assert SameAt(d, b, i, j + 1);
      }
      CopyContinues(d, b', i', n - 1);
    }
  }

  /** One token of the packet extends the decoded prefix by exactly its width. */
  lemma ChoiceContinues(d: bytes, i: nat)
    requires 4 <= i <= |d|
    ensures var t := Choose(d, i);
      i - 1 + Width(t) <= |d| && Expand(d[0 := 3][..i - 1], [t], 3) == d[0 := 3][..i - 1 + Width(t)]
  {
    var t, e := Choose(d, i), d[0 := 3];
    ExpandOne(e[..i - 1], t, 3);
    if t.Copy? {
      BestMatchAgrees(d, i);
      var m := BestMatch(d, i);
      assert t.ofs + 3 == m.pos && t.len <= m.len;
      forall j: nat | j < t.len
        ensures SameAt(e, m.pos, i, j)
      {
        assert SameAt(d, m.pos, i, j);
      }
      CopyContinues(e, m.pos, i, t.len);
    } else {
      assert e[..i - 1] + [d[i - 1]] == e[..i];
    }
  }

  lemma TokensHead(d: bytes, i: nat, t: Token, rest: seq<Token>)
    requires 4 <= i <= |d| && t == Choose(d, i) && rest == Tokens(d, i + Width(t))
    ensures Tokens(d, i) == [t] + rest
  {
  }

  lemma {:induction false} TokensDescribe(d: bytes, i: nat)
    requires 4 <= i <= |d| + 1
    ensures Expand(d[0 := 3][..i - 1], Tokens(d, i), 3) == d[0 := 3]
    decreases |d| + 1 - i
  {
    var e := d[0 := 3];
    if i > |d| {
      assert e[..i - 1] == e;
    } else {
      var t := Choose(d, i);
      var rest := Tokens(d, i + Width(t));
      ChoiceContinues(d, i);
      TokensDescribe(d, i + Width(t));
      TokensHead(d, i, t, rest);
      ExpandSplits(e[..i - 1], [t], rest, 3);
    }
  }

  lemma {:induction false} PackedSize(ts: seq<Token>)
    ensures |Packed(ts)| >= 3
  {
    if |ts| >= 8 {
      PackedSize(ts[8..]);
    }
  }

  /** The round trip: for every packet, with the mark byte as the only difference. */
  lemma RoundTrip(d: bytes)
    requires |d| >= 1
    ensures |Compressed(d)| <= |d|
    ensures Compressed(d)[0] == 4 ==> 3 <= |Compressed(d)| && Compressed(d)[1..3] == d[1..3]
    ensures Inflated(Compressed(d), 3) == d[0 := 3]
  {
    var c, body := Compressed(d), Packed(Tokens(d, 4));
    if |body| + 3 < |d| {
      PackedSize(Tokens(d, 4));
      assert c[3..] == body && c[..3][0 := 3] == d[0 := 3][..3];
      PackedReads(Tokens(d, 4), 3, d[0 := 3][..3]);
      TokensDescribe(d, 4);
    }
  }

  // ------------------------------------------------------- the choice is the longest match

  lemma {:induction false} WindowMatchStops(d: bytes, a: nat, i: nat, c: nat)
    requires 1 <= a && 1 <= i
    ensures var r := WindowMatch(d, a, i, c); !(a + r < i && i + r < |d| && d[a + r - 1] == d[i + r - 1])
    decreases |d| - (i + c)
  {
    if a + c < i && i + c < |d| && d[a + c - 1] == d[i + c - 1] {
      WindowMatchStops(d, a, i, c + 1);
    }
  }

  lemma {:induction false} ScanFindsLongest(d: bytes, i: nat, a: nat, best: Match, x: nat)
    requires 4 <= a <= x < i - 1
    requires best.len > 2 ==> 4 <= best.pos < i
    ensures var m := Scan(d, i, a, best); m.len > 17 || WindowMatch(d, x, i, 0) <= m.len
    decreases i - a
  {
    var c := WindowMatch(d, a, i, 0);
    var next := if c > best.len then Match(a, c) else best;
    if !(c > best.len && c > 17) && a < x {
      ScanFindsLongest(d, i, a + 1, next, x);
    }
  }

  /** No match in the window is longer than the chosen one, unless that one is already above 17 bytes. */
  lemma BestMatchIsLongest(d: bytes, i: nat, x: nat)
    requires 6 <= i <= |d| && 4 <= x < i - 1
    ensures BestMatch(d, i).len > 17 || WindowMatch(d, x, i, 0) <= BestMatch(d, i).len
    ensures RunMatch(d, i, 0) <= BestMatch(d, i).len
  {
    ScanFindsLongest(d, i, 4, Match(0, 2), x);
  }

  // ------------------------------------------------------- two headers, one body

  /** The outputs `n` and `w` are the same behind headers of `h` and `g` bytes, and so is the mark byte. */
  ghost predicate SameBody(n: bytes, h: nat, w: bytes, g: nat) {
    1 <= h <= |n| && 1 <= g <= |w| && n[0] == w[0] && n[h..] == w[g..]
  }

  lemma SameBodyGrows(n: bytes, h: nat, w: bytes, g: nat, b: byte)
    requires SameBody(n, h, w, g)
    ensures SameBody(n + [b], h, w + [b], g)
  {
    assert (n + [b])[h..] == n[h..] + [b] && (w + [b])[g..] == w[g..] + [b];
  }

  lemma {:induction false} CopyRunSameBody(n: bytes, h: nat, w: bytes, g: nat, ofs: nat, len: nat)
    requires SameBody(n, h, w, g) && ofs >= 1
    ensures SameBody(CopyRun(n, ofs + h, len), h, CopyRun(w, ofs + g, len), g)
    decreases len
  {
    if len > 0 {
      assert |n| - h == |n[h..]| == |w[g..]| == |w| - g;
      if ofs + h <= |n| {
        assert n[ofs + h - 1] == n[h..][ofs - 1] == w[g..][ofs - 1] == w[ofs + g - 1];
      }
      var b := if ofs + h <= |n| then n[ofs + h - 1] else 0;
      SameBodyGrows(n, h, w, g, b);
      CopyRunSameBody(n + [b], h, w + [b], g, ofs + 1, len - 1);
    }
  }

  lemma CopySlot(rest: bytes, cbf: byte, k: nat, n: bytes, h: nat, w: bytes, g: nat) returns (ofs: nat, len: nat)
    requires !Ends(rest, cbf, k) && Bit(cbf, k)
    ensures ofs > 0 && SlotOutput(rest, cbf, k, h, n) == CopyRun(n, ofs + h, len)
    ensures SlotOutput(rest, cbf, k, g, w) == CopyRun(w, ofs + g, len)
  {
    ofs, len := Word16(rest) / 16, Word16(rest) % 16 + 2;
  }

  lemma SlotSameBody(
    rest: bytes, cbf: byte, k: nat, n: bytes, h: nat, w: bytes, g: nat, nextN: bytes, nextW: bytes)
    requires SameBody(n, h, w, g) && !Ends(rest, cbf, k)
    requires nextN == SlotOutput(rest, cbf, k, h, n) && nextW == SlotOutput(rest, cbf, k, g, w)
    ensures SameBody(nextN, h, nextW, g)
  {
    if !Bit(cbf, k) {
      SameBodyGrows(n, h, w, g, rest[0]);
    } else {
      var ofs, len := CopySlot(rest, cbf, k, n, h, w, g);
      CopyRunSameBody(n, h, w, g, ofs, len);
    }
  }

  lemma {:induction false} GroupsSameBody(rest: bytes, n: bytes, h: nat, w: bytes, g: nat)
    requires SameBody(n, h, w, g)
    ensures SameBody(Groups(rest, h, n), h, Groups(rest, g, w), g)
    decreases |rest|, 0
  {
    if rest != [] {
      SlotsSameBody(rest[1..], rest[0], 0, n, h, w, g);
    }
  }

  lemma {:induction false} SlotsSameBody(rest: bytes, cbf: byte, k: nat, n: bytes, h: nat, w: bytes, g: nat)
    requires SameBody(n, h, w, g) && k <= 8
    ensures SameBody(Slots(rest, cbf, k, h, n), h, Slots(rest, cbf, k, g, w), g)
    decreases |rest|, 1, 8 - k
  {
    if k == 8 {
      GroupsSameBody(rest, n, h, w, g);
    } else if !Ends(rest, cbf, k) {
      SlotSameBody(rest, cbf, k, n, h, w, g, SlotOutput(rest, cbf, k, h, n), SlotOutput(rest, cbf, k, g, w));
      SlotsStep(rest, cbf, k, h, n);
      SlotsStep(rest, cbf, k, g, w);
      SlotsSameBody(AfterSlot(rest, cbf, k), cbf, k + 1,
                    SlotOutput(rest, cbf, k, h, n), h, SlotOutput(rest, cbf, k, g, w), g);
    }
  }

  /** For any body, well formed or not, the decoded tail does not depend on the header's size or bytes. */
  lemma HeadersDoNotMatter(body: bytes, x: bytes, y: bytes)
    ensures SameBody(Inflated([4] + x + body, 1 + |x|), 1 + |x|, Inflated([4] + y + body, 1 + |y|), 1 + |y|)
  {
    var n: bytes, w: bytes := [4] + x + body, [4] + y + body;
    var h, g := 1 + |x|, 1 + |y|;
    assert n[h..] == body == w[g..];
    assert n[..h][0 := 3] == [3] + x && w[..g][0 := 3] == [3] + y;
    GroupsSameBody(body, [3] + x, h, [3] + y, g);
  }
}
