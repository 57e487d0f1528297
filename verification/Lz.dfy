/** The packet compressor: the tokens it chooses, the stream it packs them into, and the decoder. */
module Lz {
  import opened Bytes

  /** One packed item: a plain byte, or a copy of `len` bytes starting `ofs` bytes into the body (from 1). */
  datatype Item = Literal(b: byte) | Copy(ofs: nat, len: nat)

  type Token = t: Item | t.Copy? ==> 0 < t.ofs < 4096 && 2 <= t.len <= 17
    witness Literal(0)

  datatype Match = Match(pos: nat, len: nat)

  // ------------------------------------------------------- choosing tokens; positions count from 1

  /** How far position `a` agrees with position `i` while staying before `i`, `c` bytes being known. */
  function WindowMatch(d: bytes, a: nat, i: nat, c: nat): (r: nat)
    requires 1 <= a && 1 <= i
    decreases |d| - (i + c)
  {
    if a + c < i && i + c < |d| && d[a + c - 1] == d[i + c - 1] then WindowMatch(d, a, i, c + 1) else c
  }

  /** How long the byte before position `i` goes on repeating from `i`, `c` bytes being known. */
  function RunMatch(d: bytes, i: nat, c: nat): (r: nat)
    requires 2 <= i <= |d|
    decreases |d| - (i + c)
  {
    if i + c < |d| && d[i + c - 1] == d[i - 2] then RunMatch(d, i, c + 1) else c
  }

  /** The scan of the window from position `a` on, `best` being the longest match so far. */
  function Scan(d: bytes, i: nat, a: nat, best: Match): (m: Match)
    requires 4 <= a && 6 <= i
    requires best.len > 2 ==> 4 <= best.pos < i
    ensures m.len >= best.len
    ensures m.len > 2 ==> 4 <= m.pos < i
    decreases i - a
  {
    if a >= i - 1 then best
    else
      var c := WindowMatch(d, a, i, 0);
      if c > best.len then
        if c > 17 then Match(a, c) else Scan(d, i, a + 1, Match(a, c))
      else Scan(d, i, a + 1, best)
  }

  /** The match the compressor settles on at position `i`; a length of at most 2 means none. */
  function BestMatch(d: bytes, i: nat): (m: Match)
    requires 6 <= i <= |d|
    ensures m.len > 2 ==> 4 <= m.pos < i
  {
    var w := Scan(d, i, 4, Match(0, 2));
    var r := RunMatch(d, i, 0);
    if r > w.len then Match(i - 1, r) else w
  }

  /** The token for position `i`; of a long match's length only the low four bits survive. */
  function Choose(d: bytes, i: nat): Token
    requires 4 <= i <= |d|
  {
    if i < 6 || i > 2000 then Literal(d[i - 1])
    else
      var m := BestMatch(d, i);
      if m.len > 2 then Copy(m.pos - 3, (m.len - 2) % 16 + 2) else Literal(d[i - 1])
  }

  function Width(t: Token): (n: nat)
    ensures n > 0
  {
    if t.Copy? then t.len else 1
  }

  function Tokens(d: bytes, i: nat): seq<Token>
    requires 4 <= i
    decreases |d| + 1 - i
  {
    if i > |d| then []
    else
      var t := Choose(d, i);
      [t] + Tokens(d, i + Width(t))
  }

  // ------------------------------------------------------- packing tokens

  function TokenBytes(t: Token): bytes {
    match t
    case Literal(b) => [b]
    case Copy(ofs, len) => Bytes16(ofs * 16 + (len - 2))
  }

  function Body(ts: seq<Token>): bytes {
    if ts == [] then [] else TokenBytes(ts[0]) + Body(ts[1..])
  }

  /** The flags of a group: bit `k` tells whether token `k` is a copy. */
  function Control(ts: seq<Token>): nat {
    if ts == [] then 0 else (if ts[0].Copy? then 1 else 0) + 2 * Control(ts[1..])
  }

  lemma {:induction false} ControlBits(ts: seq<Token>, j: nat)
    ensures Control(ts) < Pow2(|ts|)
    ensures Bit(Control(ts), j) == (j < |ts| && ts[j].Copy?)
  {
    if ts == [] {
      ZeroBits(j);
    } else {
      assert Control(ts) / 2 == Control(ts[1..]);
      ControlBits(ts[1..], if j == 0 then 0 else j - 1);
    }
  }

  lemma ControlIsByte(ts: seq<Token>)
    requires |ts| <= 8
    ensures Control(ts) < 256
  {
    ControlBits(ts, 0);
    Pow2Grows(|ts|, 8);
    Pow2Is256();
  }

  /** One group of at most eight tokens. */
  function Group(ts: seq<Token>): bytes
    requires |ts| <= 8
  {
    ControlIsByte(ts);
    [Control(ts)] + Body(ts)
  }

  /** The tokens in groups of eight; the last group may be short. */
  function Stream(ts: seq<Token>): bytes {
    if ts == [] then []
    else if |ts| <= 8 then Group(ts)
    else Group(ts[..8]) + Stream(ts[8..])
  }

  /** The last group with the terminator behind it: the terminator's flag and all higher flags are set. */
  function LastGroup(ts: seq<Token>): bytes
    requires |ts| < 8
  {
    ControlIsByte(ts);
    OrHighMeaning(Control(ts), |ts|, 0);
    [OrHigh(Control(ts), |ts|)] + Body(ts) + [0, 0]
  }

  function Packed(ts: seq<Token>): bytes {
    if |ts| < 8 then LastGroup(ts) else Group(ts[..8]) + Packed(ts[8..])
  }

  /** Packed when that is shorter, else the packet itself behind an "uncompressed" mark. */
  function Compressed(d: bytes): bytes
    requires |d| >= 1
  {
    var body := Packed(Tokens(d, 4));
    if |body| + 3 < |d| then [4, d[1], d[2]] + body else d[0 := 3]
  }

  // ------------------------------------------------------- decoding

  /** Appends `n` bytes read from position `b` of the output on, which may run into what it appends. */
  function CopyRun(out: bytes, b: nat, n: nat): (r: bytes)
    requires b >= 1
    ensures |r| == |out| + n && r[..|out|] == out
    decreases n
  {
    if n == 0 then out
    else CopyRun(out + [if b <= |out| then out[b - 1] else 0], b + 1, n - 1)
  }

  /** What the decoder makes of the bytes still to read when the next one is a control byte. */
  function Groups(rest: bytes, h: nat, out: bytes): (r: bytes)
    requires |out| >= 1
    ensures |r| >= |out|
    decreases |rest|, 0
  {
    if rest == [] then out else Slots(rest[1..], rest[0], 0, h, out)
  }

  /** The same inside a group, before slot `k` of the control byte `cbf`; running dry marks byte 0. */
  function Slots(rest: bytes, cbf: byte, k: nat, h: nat, out: bytes): (r: bytes)
    requires |out| >= 1 && k <= 8
    ensures |r| >= |out|
    decreases |rest|, 1, 8 - k
  {
    if k == 8 then Groups(rest, h, out)
    else if rest == [] then out[0 := 4]
    else if !Bit(cbf, k) then Slots(rest[1..], cbf, k + 1, h, out + [rest[0]])
    else
      var uop := Word16(rest);
      var tail := if |rest| >= 2 then rest[2..] else [];
      if uop / 16 == 0 then out
      else Slots(tail, cbf, k + 1, h, CopyRun(out, uop / 16 + h, uop % 16 + 2))
  }

  /** The whole decoder, for a header of `h` bytes. */
  function Inflated(d: bytes, h: nat): bytes
    requires |d| >= 1
    requires d[0] == 4 ==> 1 <= h <= |d|
  {
    if d[0] != 4 then d else Groups(d[h..], h, d[..h][0 := 3])
  }

  // ------------------------------------------------------- the loops of the source

  method MatchLength(d: bytes, a: nat, i: nat) returns (c: nat)
    requires 1 <= a && 1 <= i
    ensures c == WindowMatch(d, a, i, 0)
  {
    c := 0;
    while a + c < i && i + c < |d| && d[a + c - 1] == d[i + c - 1]
      invariant WindowMatch(d, a, i, c) == WindowMatch(d, a, i, 0)
      decreases |d| - (i + c)
    {
      c := c + 1;
    }
  }

  method RunLength(d: bytes, i: nat) returns (c: nat)
    requires 2 <= i <= |d|
    ensures c == RunMatch(d, i, 0)
  {
    c := 0;
    while i + c < |d| && d[i + c - 1] == d[i - 2]
      invariant RunMatch(d, i, c) == RunMatch(d, i, 0)
      decreases |d| - (i + c)
    {
      c := c + 1;
    }
  }

  method Search(d: bytes, i: nat) returns (pos: nat, len: nat)
    requires 6 <= i <= |d|
    ensures Match(pos, len) == BestMatch(d, i)
  {
    pos, len := 0, 2;
    var a := 4;
    while a < i - 1
      invariant 4 <= a
      invariant len > 2 ==> 4 <= pos < i
      invariant Scan(d, i, a, Match(pos, len)) == Scan(d, i, 4, Match(0, 2))
    {
      var c := MatchLength(d, a, i);
      if c > len {
        pos, len := a, c;
        if len > 17 {
          break;
        }
      }
      a := a + 1;
    }
    var c := RunLength(d, i);
    if c > len {
      pos, len := i - 1, c;
    }
  }

  // ------------------------------------------------------- the stream grows at its end

  /** Where the control byte of the last group stands. */
  function LastControl(ts: seq<Token>): (c: nat)
    requires ts != []
    ensures c < |Stream(ts)|
  {
    if |ts| <= 8 then 0 else |Group(ts[..8])| + LastControl(ts[8..])
  }

  function Flagged(c: byte, k: nat, t: Token): byte
    requires k < 8
  {
    if t.Copy? then SetBit(c, k) else c
  }

  lemma {:induction false} ControlSnoc(ts: seq<Token>, t: Token)
    ensures Control(ts + [t]) == if t.Copy? then OrBit(Control(ts), |ts|) else Control(ts)
  {
    if ts == [] {
      assert ([] + [t])[1..] == [];
    } else {
      assert (ts + [t])[1..] == ts[1..] + [t];
      ControlSnoc(ts[1..], t);
      assert Control(ts) / 2 == Control(ts[1..]);
    }
  }

  lemma {:induction false} BodySnoc(ts: seq<Token>, t: Token)
    ensures Body(ts + [t]) == Body(ts) + TokenBytes(t)
  {
    if ts == [] {
      assert ([] + [t])[1..] == [];
    } else {
      assert (ts + [t])[1..] == ts[1..] + [t];
      BodySnoc(ts[1..], t);
    }
  }

  /** The bytes `s` after token `t` took slot `k` of the group whose control byte is at `c`. */
  function Extended(s: bytes, c: nat, k: nat, t: Token): bytes
    requires c < |s| && k < 8
  {
    s[c := Flagged(s[c], k, t)] + TokenBytes(t)
  }

  lemma ExtendedBehind(p: bytes, s: bytes, c: nat, k: nat, t: Token)
    requires c < |s| && k < 8
    ensures Extended(p + s, |p| + c, k, t) == p + Extended(s, c, k, t)
  {
    var f := Flagged(s[c], k, t);
    assert (p + s)[|p| + c] == s[c];
    assert (p + s)[|p| + c := f] == p + s[c := f];
  }

  lemma GroupSnoc(ts: seq<Token>, t: Token)
    requires 0 < |ts| < 8
    ensures Group(ts + [t]) == Extended(Group(ts), 0, |ts|, t)
  {
    ControlSnoc(ts, t);
    BodySnoc(ts, t);
  }

  lemma GroupFirst(ts: seq<Token>)
    requires |ts| >= 8
    ensures Stream(ts) == Group(ts[..8]) + Stream(ts[8..])
  {
    if |ts| == 8 {
      assert ts[..8] == ts;
    }
  }

  /** One more token either opens a group ... */
  lemma {:induction false} StreamOpens(ts: seq<Token>, q: nat, t: Token)
    requires |ts| == 8 * q
    ensures LastControl(ts + [t]) == |Stream(ts)|
    ensures Stream(ts + [t]) == Stream(ts) + [if t.Copy? then 1 else 0] + TokenBytes(t)
  {
    var us := ts + [t];
    if ts == [] {
      assert us == [t];
      assert Stream([t]) == Group([t]) == [Control([t])] + Body([t]);
      BodySnoc([], t);
      ControlSnoc([], t);
    } else {
      assert us[..8] == ts[..8] && us[8..] == ts[8..] + [t];
      StreamOpens(ts[8..], q - 1, t);
      GroupFirst(ts);
    }
  }

  /** ... or sets its flag in the last control byte and adds its bytes. */
  lemma {:induction false} StreamExtends(ts: seq<Token>, q: nat, n: nat, t: Token)
    requires |ts| == 8 * q + n && 0 < n < 8
    ensures LastControl(ts + [t]) == LastControl(ts)
    ensures Stream(ts + [t]) == Extended(Stream(ts), LastControl(ts), n, t)
  {
    if |ts| < 8 {
      GroupSnoc(ts, t);
    } else {
      var head, tail := ts[..8], ts[8..];
      assert (ts + [t])[..8] == head && (ts + [t])[8..] == tail + [t];
      StreamExtends(tail, q - 1, n, t);
      StreamSplits(ts);
      StreamSplits(ts + [t]);
      ExtendedBehind(Group(head), Stream(tail), LastControl(tail), n, t);
    }
  }

  lemma StreamSplits(ts: seq<Token>)
    requires |ts| > 8
    ensures Stream(ts) == Group(ts[..8]) + Stream(ts[8..])
    ensures LastControl(ts) == |Group(ts[..8])| + LastControl(ts[8..])
  {
  }

  /** The terminator either opens a group of its own ... */
  lemma {:induction false} EndOpens(ts: seq<Token>, q: nat)
    requires |ts| == 8 * q
    ensures Packed(ts) == Stream(ts) + [255, 0, 0]
  {
    if ts == [] {
      AllOnes();
    } else {
      EndOpens(ts[8..], q - 1);
      PackedSplits(ts);
      GroupFirst(ts);
    }
  }

  /** The bytes `s` after the terminator took slot `n` of the group whose control byte is at `c`. */
  function Closed(s: bytes, c: nat, n: nat): bytes
    requires c < |s|
  {
    s[c := SetHigh(s[c], n)] + [0, 0]
  }

  lemma ClosedBehind(p: bytes, s: bytes, c: nat, n: nat)
    requires c < |s|
    ensures Closed(p + s, |p| + c, n) == p + Closed(s, c, n)
  {
    var f := SetHigh(s[c], n);
    assert (p + s)[|p| + c] == s[c];
    assert (p + s)[|p| + c := f] == p + s[c := f];
  }

  lemma GroupCloses(ts: seq<Token>)
    requires |ts| < 8
    ensures LastGroup(ts) == Closed(Group(ts), 0, |ts|)
  {
  }

  lemma PackedSplits(ts: seq<Token>)
    requires |ts| >= 8
    ensures Packed(ts) == Group(ts[..8]) + Packed(ts[8..])
  {
  }

  lemma StreamShort(ts: seq<Token>)
    requires 0 < |ts| <= 8
    ensures Stream(ts) == Group(ts) && LastControl(ts) == 0
  {
  }

  /** ... or closes the last one. */
  lemma {:induction false} EndCloses(ts: seq<Token>, q: nat, n: nat)
    requires |ts| == 8 * q + n && 0 < n < 8
    ensures Packed(ts) == Closed(Stream(ts), LastControl(ts), n)
  {
    if q == 0 {
      GroupCloses(ts);
      StreamShort(ts);
    } else {
      var tail := ts[8..];
      EndCloses(tail, q - 1, n);
      PackedSplits(ts);
      ClosedBehind(Group(ts[..8]), Stream(tail), LastControl(tail), n);
      StreamSplits(ts);
    }
  }

  lemma AllOnes()
    ensures OrHigh(0, 0) == 255
  {
    Pow2Is256();
    forall j: nat | j < 8
      ensures Bit(OrHigh(0, 0), j) == Bit(255, j)
    {
      OrHighMeaning(0, 0, j);
      OnesBits(j);
    }
    OrHighMeaning(0, 0, 0);
    BitsDecide(OrHigh(0, 0), 255, 8);
  }

  lemma OnesBits(j: nat)
    requires j < 8
    ensures Bit(255, j)
  {
    assert Bit(255, 0) && Bit(127, 0) && Bit(63, 0) && Bit(31, 0) && Bit(15, 0) && Bit(7, 0) && Bit(3, 0) && Bit(1, 0);
    assert Bit(15, 1) && Bit(15, 2) && Bit(15, 3);
    assert j >= 4 ==> Bit(255, j) == Bit(15, j - 4);
  }

  /** The compressor's output after the tokens `ts`: `count` slots of group `q` are behind it. */
  ghost predicate Holds(result: bytes, count: int, cbf: nat, ts: seq<Token>, q: int) {
    && -1 <= q && 0 <= count < 8 && |ts| == 8 * q + count + 1
    && result == Stream(ts)
    && (ts != [] ==> cbf == LastControl(ts) + 1)
  }

  lemma OpenedSlot(before: bytes, t: Token)
    ensures Extended(before + [0], |before|, 0, t) == before + [if t.Copy? then 1 else 0] + TokenBytes(t)
  {
    var bit: byte := if t.Copy? then 1 else 0;
    assert (before + [0])[|before| := bit] == before + [bit];
  }

  /** Opens the slot for the next token `t`, in a new group when the last one is full. */
  method NextSlot(before: bytes, full: nat, last: nat, ghost ts: seq<Token>, ghost q: int, ghost t: Token)
    returns (result: bytes, count: nat, cbf: nat)
    requires Holds(before, full, last, ts, q)
    ensures count < 8 && 0 < cbf <= |result|
    ensures Holds(Extended(result, cbf - 1, count, t), count, cbf, ts + [t], if full == 7 then q + 1 else q)
  {
    result, count, cbf := before, full, last;
    if count == 7 {
      StreamOpens(ts, q + 1, t);
      count := 0;
      result := result + [0];
      cbf := |result|;
      OpenedSlot(before, t);
    } else {
      StreamExtends(ts, q, count + 1, t);
      count := count + 1;
    }
  }

  /** Writes the item for position `i` into slot `count` of the group whose control byte is number `cbf`. */
  method PutItem(d: bytes, i: nat, before: bytes, count: nat, cbf: nat) returns (result: bytes, index: nat)
    requires 4 <= i <= |d| && count < 8 && 0 < cbf <= |before|
    ensures result == Extended(before, cbf - 1, count, Choose(d, i))
    ensures index == i + Width(Choose(d, i))
  {
    result, index := before, i;
    if index < 6 || index > 2000 {
      result := result + [d[index - 1]];
      index := index + 1;
    } else {
      var pos, len := Search(d, index);
      if len > 2 {
        result := result[cbf - 1 := SetBit(result[cbf - 1], count)];
        len := (len - 2) % 16;
        var kommando := (pos - 3) * 16 + len;
        result := result + Bytes16(kommando);
        index := index + len + 2;
      } else {
        result := result + [d[index - 1]];
        index := index + 1;
      }
    }
  }

  /** Writes the terminator. */
  method Terminate(before: bytes, count: nat, cbf: nat, ghost ts: seq<Token>, ghost q: int) returns (result: bytes)
    requires Holds(before, count, cbf, ts, q)
    ensures result == Packed(ts)
  {
    if count == 7 {
      EndOpens(ts, q + 1);
      result := before + [255];
    } else {
      EndCloses(ts, q, count + 1);
      result := before[cbf - 1 := SetHigh(before[cbf - 1], count + 1)];
    }
    result := result + [0, 0];
  }

  lemma TokensStep(d: bytes, i: nat, ts: seq<Token>)
    requires 4 <= i <= |d|
    ensures var t := Choose(d, i); (ts + [t]) + Tokens(d, i + Width(t)) == ts + Tokens(d, i)
  {
    var t := Choose(d, i);
    assert ts + ([t] + Tokens(d, i + Width(t))) == (ts + [t]) + Tokens(d, i + Width(t));
  }

  /** The compressor's loop, from the fourth byte on. */
  method PackTokens(d: bytes) returns (result: bytes)
    ensures result == Packed(Tokens(d, 4))
  {
    result := [];
    var count, index, cbf := 7, 4, 0;
    ghost var ts: seq<Token>, q := [], -1;
    while index < |d| + 1
      invariant 4 <= index
      invariant ts + Tokens(d, index) == Tokens(d, 4)
      invariant Holds(result, count, cbf, ts, q)
      decreases |d| + 1 - index
    {
      ghost var t, full := Choose(d, index), count == 7;
      TokensStep(d, index, ts);
      result, count, cbf := NextSlot(result, count, cbf, ts, q, t);
      result, index := PutItem(d, index, result, count, cbf);
      ts, q := ts + [t], if full then q + 1 else q;
    }
    assert ts + [] == ts;
    result := Terminate(result, count, cbf, ts, q);
  }

  /** The compressor. */
  method Compress(d: bytes) returns (result: bytes)
    requires |d| >= 1
    ensures result == Compressed(d)
  {
    result := PackTokens(d);
    if |result| + 3 < |d| {
      result := [4] + [d[1]] + [d[2]] + result;
    } else {
      result := d;
      result := result[0 := 3];
    }
  }

  /** The bytes not read yet. */
  function From(d: bytes, i: nat): bytes {
    if i <= |d| then d[i..] else []
  }

  method CopyBytes(out: bytes, a: nat, n: nat) returns (result: bytes)
    requires a >= 1
    ensures result == CopyRun(out, a, n)
  {
    result := out;
    var b := a;
    while b < a + n
      invariant a <= b <= a + n
      invariant CopyRun(result, b, a + n - b) == CopyRun(out, a, n)
    {
      result := result + [if b <= |result| then result[b - 1] else 0];
      b := b + 1;
    }
  }

  /** Slot `k` ends the decoding: the data ran out, or it is the terminator. */
  predicate Ends(rest: bytes, cbf: byte, k: nat) {
    rest == [] || (Bit(cbf, k) && Word16(rest) / 16 == 0)
  }

  function AfterSlot(rest: bytes, cbf: byte, k: nat): bytes
    requires !Ends(rest, cbf, k)
  {
    if !Bit(cbf, k) then rest[1..] else if |rest| >= 2 then rest[2..] else []
  }

  function SlotOutput(rest: bytes, cbf: byte, k: nat, h: nat, out: bytes): bytes
    requires !Ends(rest, cbf, k)
  {
    if !Bit(cbf, k) then out + [rest[0]] else CopyRun(out, Word16(rest) / 16 + h, Word16(rest) % 16 + 2)
  }

  lemma SlotsStep(rest: bytes, cbf: byte, k: nat, h: nat, out: bytes)
    requires k < 8 && |out| >= 1 && !Ends(rest, cbf, k)
    ensures |SlotOutput(rest, cbf, k, h, out)| >= 1
    ensures Slots(rest, cbf, k, h, out) ==
            Slots(AfterSlot(rest, cbf, k), cbf, k + 1, h, SlotOutput(rest, cbf, k, h, out))
  {
  }

  /** One slot, at `start`: a byte taken over, a copy, or the end. */
  method DecodeSlot(d: bytes, start: nat, cbf: byte, k: nat, h: nat, out: bytes)
    returns (result: bytes, index: nat, done: bool)
    requires |out| >= 1 && k < 8
    ensures done <==> Ends(From(d, start), cbf, k)
    ensures done ==> result == (if From(d, start) == [] then out[0 := 4] else out) && index >= start
    ensures !done ==> result == SlotOutput(From(d, start), cbf, k, h, out)
    ensures !done ==> From(d, index) == AfterSlot(From(d, start), cbf, k) && index >= start
  {
    result, index, done := out, start, false;
    ghost var rest := From(d, start);
    if index >= |d| {
      return result[0 := 4], index, true;
    }
    if !Bit(cbf, k) {
      result := result + [d[index]];
      index := index + 1;
      assert From(d, index) == rest[1..];
    } else {
      var uop := Word16(d[index..]);
      index := index + 2;
      assert From(d, index) == if |rest| >= 2 then rest[2..] else [];
      var a := uop / 16;
      if a == 0 {
        return result, index, true;
      }
      uop := uop % 16;
      a := a + h;
      result := CopyBytes(result, a, uop + 2);
    }
  }

  lemma SlotsEnd(rest: bytes, cbf: byte, k: nat, h: nat, out: bytes)
    requires |out| >= 1 && k < 8 && Ends(rest, cbf, k)
    ensures Slots(rest, cbf, k, h, out) == if rest == [] then out[0 := 4] else out
  {
  }

  /** The eight slots of one group; `done` when the terminator or the end of the data was met. */
  method DecodeSlots(d: bytes, start: nat, cbf: byte, h: nat, out: bytes)
    returns (result: bytes, index: nat, done: bool)
    requires |out| >= 1
    ensures |result| >= 1 && index >= start
    ensures Slots(From(d, start), cbf, 0, h, out) == if done then result else Groups(From(d, index), h, result)
  {
    result, index, done := out, start, false;
    for k := 0 to 8
      invariant index >= start && |result| >= 1 && !done
      invariant Slots(From(d, index), cbf, k, h, result) == Slots(From(d, start), cbf, 0, h, out)
    {
      ghost var rest, sofar := From(d, index), result;
      result, index, done := DecodeSlot(d, index, cbf, k, h, result);
      if done {
        SlotsEnd(rest, cbf, k, h, sofar);
        return;
      }
      SlotsStep(rest, cbf, k, h, sofar);
    }
  }

  /** The decoder. */
  method Decompress(d: bytes, h: nat) returns (result: bytes)
    requires |d| >= 1
    requires d[0] == 4 ==> 1 <= h <= |d|
    ensures result == Inflated(d, h)
  {
    if d[0] != 4 {
      return d;
    }
    result := d[..h][0 := 3];
    var index := h;
    while index < |d|
      invariant h <= index && |result| >= 1
      invariant Groups(From(d, index), h, result) == Inflated(d, h)
      decreases |d| - index
    {
      var cbf := d[index];
      assert From(d, index)[1..] == From(d, index + 1);
      var done;
      result, index, done := DecodeSlots(d, index + 1, cbf, h, result);
      if done {
        return;
      }
    }
  }
}
