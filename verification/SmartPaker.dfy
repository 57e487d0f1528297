/** The compact encoding of movement packets, and exactly when it can be undone. */
module SmartPaker {
  import opened Bytes
  import opened Smartpak

  // ------------------------------------------------------- the encoder

  /** A movement packet the encoder shortens. */
  predicate IsMove(s: bytes) {
    |s| >= 7 && s[0] == MOVE
  }

  /** The encoding of one subpacket; only the first movement also gives its tick. */
  function Paked(s: bytes, first: bool): bytes {
    if !IsMove(s) then s
    else
      (if first then [TICK_START] + s[3..7] else []) +
      (if s[1] == 0x0b && s[2] == 0x00 then [TICK] else [TICK_OTHER] + s[1..3] + s[7..])
  }

  function StillFirst(s: bytes, first: bool): bool {
    first && !IsMove(s)
  }

  function PakedAll(subpaks: seq<bytes>, first: bool): bytes {
    if subpaks == [] then [] else Paked(subpaks[0], first) + PakedAll(subpaks[1..], StillFirst(subpaks[0], first))
  }

  class Paker {
    var first: bool

    constructor ()
      ensures first
    {
      first := true;
    }

    method Pak(subpak: bytes) returns (result: bytes)
      modifies this
      ensures result == Paked(subpak, old(first)) && first == StillFirst(subpak, old(first))
    {
      if |subpak| < 7 || subpak[0] != MOVE {
        return subpak;
      }
      result := [];
      if first {
        first := false;
        result := [TICK_START] + subpak[3..7];
      }
      if subpak[1] == 0x0b && subpak[2] == 0x00 {
        result := result + [TICK];
      } else {
        result := result + ([TICK_OTHER] + subpak[1..3] + subpak[7..]);
      }
    }
  }

  lemma PakedAllStep(subpaks: seq<bytes>, i: nat, first: bool, sofar: bytes)
    requires i < |subpaks|
    ensures sofar + Paked(subpaks[i], first) + PakedAll(subpaks[i + 1..], StillFirst(subpaks[i], first)) ==
            sofar + PakedAll(subpaks[i..], first)
  {
    assert subpaks[i..][1..] == subpaks[i + 1..];
  }

  /** What the recorder makes of the subpackets of one packet. */
  function Filtered(subpaks: seq<bytes>): bytes {
    [3] + PakedAll(subpaks, true)
  }

  /** The demo recorder's loop: one encoder for all subpackets of a packet, behind an "uncompressed" mark. */
  method FilterMoves(subpaks: seq<bytes>) returns (filteredMoves: bytes)
    requires forall i :: 0 <= i < |subpaks| ==> subpaks[i] != []
    ensures filteredMoves == Filtered(subpaks)
  {
    filteredMoves := [3];
    var smartPaker := new Paker();
    for i := 0 to |subpaks|
      invariant filteredMoves + PakedAll(subpaks[i..], smartPaker.first) == [3] + PakedAll(subpaks, true)
    {
      var s := subpaks[i];
      PakedAllStep(subpaks, i, smartPaker.first, filteredMoves);
      if s[0] == MOVE {
        var bs := smartPaker.Pak(s);
        filteredMoves := filteredMoves + bs;
      } else {
        filteredMoves := filteredMoves + s;
      }
    }
  }

  // ------------------------------------------------------- what comes back

  /** A subpacket other than a full movement whose size does not depend on what follows it. */
  predicate Plain(s: bytes) {
    && s != []
    && s[0] != ZERO && s[0] != TICK && s[0] != TICK_START && s[0] != TICK_OTHER
    && !IsMove(s)
    && (s[0] == CHAT ==> |s| == 65 && s[64] == 0)
    && (s[0] == MOVE || s[0] == EXTENDED ==> |s| >= 3)
    && (s[0] == RECORDER ==> |s| >= 2)
    && ExpectedSize(s) == |s|
  }

  /** A full movement packet with a correct length field. */
  predicate Movement(s: bytes) {
    IsMove(s) && Word16(s[1..]) == |s|
  }

  predicate Packable(subpaks: seq<bytes>) {
    forall s <- subpaks :: Plain(s) || Movement(s)
  }

  /** The movement `s` as the reader rebuilds it at tick `tick`. */
  function Rebuilt(s: bytes, tick: nat): bytes
    requires Movement(s)
  {
    if |s| == 11 then s[..3] + Bytes32(tick) + [0xff, 0xff, 1, 0]
    else s[..3] + Bytes32(tick) + s[7..]
  }

  /** The subpackets as the reader gives them back; ticks are counted from the first movement on. */
  function Returned(subpaks: seq<bytes>, first: bool, tick: nat): seq<bytes>
    requires Packable(subpaks)
  {
    if subpaks == [] then []
    else
      var s := subpaks[0];
      if Plain(s) then [s] + Returned(subpaks[1..], first, tick)
      else
        var t := if first then Word32(s[3..]) else tick;
        [Rebuilt(s, t)] + Returned(subpaks[1..], false, (t + 1) % U32)
  }

  /** What stands for the body of a movement once its tick is known. */
  function Short(s: bytes): bytes
    requires IsMove(s)
  {
    if s[1] == 0x0b && s[2] == 0x00 then [TICK] else [TICK_OTHER] + s[1..3] + s[7..]
  }

  /** A subpacket of the compact form whose size does not depend on what follows it. */
  predicate Delimited(c: bytes) {
    || Plain(c)
    || (|c| == 1 && c[0] == TICK)
    || (|c| == 5 && c[0] == TICK_START)
    || (|c| >= 3 && c[0] == TICK_OTHER && Word16(c[1..]) == |c| + 4)
  }

  lemma DelimitedHead(c: bytes, rest: bytes)
    requires Delimited(c)
    ensures HeadReadable(c + rest) && FirstEnd(c + rest) == |c|
  {
    assert (c + rest)[0] == c[0];
    if |c| >= 3 {
      assert (c + rest)[1..][..2] == c[1..][..2];
    }
  }

  predicate AllDelimited(cs: seq<bytes>) {
    forall i :: 0 <= i < |cs| ==> Delimited(cs[i])
  }

  function EmitsAll(cs: seq<bytes>, tick: nat): seq<bytes>
    requires AllDelimited(cs)
  {
    if cs == [] then [] else Emits(cs[0], tick) + EmitsAll(cs[1..], NextTick(cs[0], tick))
  }

  /** The reader finds delimited subpackets one by one. */
  lemma {:induction false} ConcatUnpacks(cs: seq<bytes>, tick: nat)
    requires AllDelimited(cs)
    ensures Readable(Concat(cs)) && Unpacked(Concat(cs), tick) == EmitsAll(cs, tick)
    decreases |cs|
  {
    if cs != [] {
      var c, rest := cs[0], Concat(cs[1..]);
      DelimitedHead(c, rest);
      ConcatUnpacks(cs[1..], NextTick(c, tick));
      assert (c + rest)[..|c|] == c && (c + rest)[|c|..] == rest;
    }
  }

  /** The delimited pieces that encode one subpacket. */
  function Pieces(s: bytes, first: bool): seq<bytes> {
    if !IsMove(s) then [s]
    else (if first then [[TICK_START] + s[3..7]] else []) + [Short(s)]
  }

  function PiecesAll(subpaks: seq<bytes>, first: bool): seq<bytes> {
    if subpaks == [] then [] else Pieces(subpaks[0], first) + PiecesAll(subpaks[1..], StillFirst(subpaks[0], first))
  }

  lemma {:induction false} ConcatSplits(cs: seq<bytes>, ds: seq<bytes>)
    ensures Concat(cs + ds) == Concat(cs) + Concat(ds)
  {
    if cs == [] {
      assert cs + ds == ds;
    } else {
      assert (cs + ds)[1..] == cs[1..] + ds;
      ConcatSplits(cs[1..], ds);
    }
  }

  lemma PiecesJoin(s: bytes, first: bool)
    ensures Concat(Pieces(s, first)) == Paked(s, first)
  {
    var p := Pieces(s, first);
    if |p| == 1 {
      assert Concat(p) == p[0] + Concat(p[1..]) == p[0];
    } else {
      assert Concat(p[1..]) == p[1] + Concat(p[1..][1..]) == p[1];
    }
  }

  lemma {:induction false} PiecesAllJoin(subpaks: seq<bytes>, first: bool)
    ensures Concat(PiecesAll(subpaks, first)) == PakedAll(subpaks, first)
    decreases |subpaks|
  {
    if subpaks != [] {
      var s := subpaks[0];
      PiecesJoin(s, first);
      PiecesAllJoin(subpaks[1..], StillFirst(s, first));
      ConcatSplits(Pieces(s, first), PiecesAll(subpaks[1..], StillFirst(s, first)));
    }
  }

  /** The length field is the two bytes behind the code. */
  lemma SameLength(p: bytes, s: bytes)
    requires |p| >= 3 && |s| >= 3 && p[1..3] == s[1..3]
    ensures Word16(p[1..]) == Word16(s[1..])
  {
    assert p[1] == p[1..3][0] && p[2] == p[1..3][1];
    assert s[1] == s[1..3][0] && s[2] == s[1..3][1];
  }

  lemma ShortEmits(s: bytes, tick: nat)
    requires Movement(s)
    ensures Delimited(Short(s))
    ensures Emits(Short(s), tick) == [Rebuilt(s, tick)] && NextTick(Short(s), tick) == (tick + 1) % U32
  {
    assert Word16(s[1..]) == |s|;
    if s[1] == 0x0b && s[2] == 0x00 {
      assert |s| == 11;
      assert [MOVE, 0x0b, 0] == s[..3];
    } else {
      var p := Short(s);
      assert |s| != 11;
      assert p[1..3] == s[1..3] && p[3..] == s[7..];
      SameLength(p, s);
      assert [MOVE] + s[1..3] == s[..3];
    }
  }

  lemma EmitsCons(c: bytes, rest: seq<bytes>, tick: nat)
    requires Delimited(c) && AllDelimited(rest)
    ensures AllDelimited([c] + rest)
    ensures EmitsAll([c] + rest, tick) == Emits(c, tick) + EmitsAll(rest, NextTick(c, tick))
  {
    assert ([c] + rest)[1..] == rest;
  }

  lemma StartEmits(s: bytes, tick: nat)
    requires |s| >= 7
    ensures var start := [TICK_START] + s[3..7];
      Delimited(start) && Emits(start, tick) == [] && NextTick(start, tick) == Word32(s[3..])
  {
    assert ([TICK_START] + s[3..7])[1..] == s[3..][..4];
  }

  lemma MovementEmits(s: bytes, first: bool, tick: nat, rest: seq<bytes>)
    requires Movement(s) && AllDelimited(rest)
    ensures var t := if first then Word32(s[3..]) else tick;
      && AllDelimited(Pieces(s, first) + rest)
      && EmitsAll(Pieces(s, first) + rest, tick) == [Rebuilt(s, t)] + EmitsAll(rest, (t + 1) % U32)
  {
    var t := if first then Word32(s[3..]) else tick;
    ShortEmits(s, t);
    EmitsCons(Short(s), rest, t);
    if first {
      var start := [TICK_START] + s[3..7];
      StartEmits(s, tick);
      EmitsCons(start, [Short(s)] + rest, tick);
      assert Pieces(s, first) + rest == [start] + ([Short(s)] + rest);
    }
  }

  /** A subpacket as it is given back. */
  function Back(s: bytes, first: bool, tick: nat): bytes
    requires Plain(s) || Movement(s)
  {
    if Plain(s) then s else Rebuilt(s, if first then Word32(s[3..]) else tick)
  }

  function TickAfter(s: bytes, first: bool, tick: nat): nat
    requires Plain(s) || Movement(s)
  {
    if Plain(s) then tick else ((if first then Word32(s[3..]) else tick) + 1) % U32
  }

  lemma ReturnedStep(subpaks: seq<bytes>, first: bool, tick: nat)
    requires Packable(subpaks) && subpaks != []
    ensures Packable(subpaks[1..])
    ensures var s := subpaks[0];
      Returned(subpaks, first, tick)
        == [Back(s, first, tick)] + Returned(subpaks[1..], StillFirst(s, first), TickAfter(s, first, tick))
  {
  }

  lemma PiecesEmit(s: bytes, first: bool, tick: nat, rest: seq<bytes>)
    requires (Plain(s) || Movement(s)) && AllDelimited(rest)
    ensures AllDelimited(Pieces(s, first) + rest)
    ensures EmitsAll(Pieces(s, first) + rest, tick) == [Back(s, first, tick)] + EmitsAll(rest, TickAfter(s, first, tick))
  {
    if Plain(s) {
      EmitsCons(s, rest, tick);
    } else {
      MovementEmits(s, first, tick, rest);
    }
  }

  lemma {:induction false} PiecesAllEmit(subpaks: seq<bytes>, first: bool, tick: nat)
    requires Packable(subpaks)
    ensures AllDelimited(PiecesAll(subpaks, first))
    ensures EmitsAll(PiecesAll(subpaks, first), tick) == Returned(subpaks, first, tick)
    decreases |subpaks|
  {
    if subpaks != [] {
      var s, more := subpaks[0], subpaks[1..];
      ReturnedStep(subpaks, first, tick);
      PiecesAllEmit(more, StillFirst(s, first), TickAfter(s, first, tick));
      PiecesEmit(s, first, tick, PiecesAll(more, StillFirst(s, first)));
    }
  }

  /** What a caller can check: movements carry consecutive ticks, and short ones end as the reader assumes. */
  predicate InStep(subpaks: seq<bytes>, first: bool, tick: nat)
    requires Packable(subpaks)
  {
    subpaks == [] ||
    var s := subpaks[0];
    if Plain(s) then InStep(subpaks[1..], first, tick)
    else
      && (!first ==> Word32(s[3..]) == tick)
      && (|s| == 11 ==> s[7..] == [0xff, 0xff, 1, 0])
      && InStep(subpaks[1..], false, (Word32(s[3..]) + 1) % U32)
  }

  lemma RebuiltIsSame(s: bytes, tick: nat)
    requires Movement(s) && tick < U32
    ensures Rebuilt(s, tick) == s <==> Word32(s[3..]) == tick && (|s| == 11 ==> s[7..] == [0xff, 0xff, 1, 0])
  {
    var r := Rebuilt(s, tick);
    assert r[3..7] == Bytes32(tick);
    assert s[3..7] == s[3..][..4];
    Word32Bytes32(s[3..]);
    Bytes32Word32(tick, []);
    assert Bytes32(tick) + [] == Bytes32(tick);
    assert s == s[..3] + s[3..7] + s[7..];
    if r == s {
      assert r[7..] == s[7..];
    }
  }

  lemma ConsIsSame(x: bytes, xs: seq<bytes>, ys: seq<bytes>)
    requires ys != []
    ensures [x] + xs == ys <==> x == ys[0] && xs == ys[1..]
  {
    assert ys == [ys[0]] + ys[1..];
    assert ([x] + xs)[0] == x && ([x] + xs)[1..] == xs;
  }

  /** One subpacket is in step. */
  predicate HeadInStep(s: bytes, first: bool, tick: nat)
    requires Plain(s) || Movement(s)
  {
    Plain(s) || ((!first ==> Word32(s[3..]) == tick) && (|s| == 11 ==> s[7..] == [0xff, 0xff, 1, 0]))
  }

  lemma BackIsSame(s: bytes, first: bool, tick: nat)
    requires (Plain(s) || Movement(s)) && tick < U32
    ensures Back(s, first, tick) == s <==> HeadInStep(s, first, tick)
  {
    if !Plain(s) {
      RebuiltIsSame(s, if first then Word32(s[3..]) else tick);
    }
  }

  lemma InStepStep(subpaks: seq<bytes>, first: bool, tick: nat)
    requires Packable(subpaks) && subpaks != []
    ensures Packable(subpaks[1..])
    ensures var s := subpaks[0];
      InStep(subpaks, first, tick) <==>
        HeadInStep(s, first, tick) && InStep(subpaks[1..], StillFirst(s, first), TickAfter(s, first, tick))
  {
    var s := subpaks[0];
    if Plain(s) {
      assert StillFirst(s, first) == first && TickAfter(s, first, tick) == tick;
    } else {
      assert !StillFirst(s, first);
      if first || Word32(s[3..]) == tick {
        assert TickAfter(s, first, tick) == (Word32(s[3..]) + 1) % U32;
      }
    }
  }

  lemma {:induction false} ReturnedIsSame(subpaks: seq<bytes>, first: bool, tick: nat)
    requires Packable(subpaks) && tick < U32
    ensures Returned(subpaks, first, tick) == subpaks <==> InStep(subpaks, first, tick)
    decreases |subpaks|
  {
    if subpaks != [] {
      var s, more := subpaks[0], subpaks[1..];
      ReturnedStep(subpaks, first, tick);
      InStepStep(subpaks, first, tick);
      BackIsSame(s, first, tick);
      ReturnedIsSame(more, StillFirst(s, first), TickAfter(s, first, tick));
      ConsIsSame(Back(s, first, tick), Returned(more, StillFirst(s, first), TickAfter(s, first, tick)), subpaks);
    }
  }

  /**
   * The encoded packet always unpacks, to the same subpackets if and only if the movements are in step.
   * Here `tick` plays no part: the first movement sets it.
   */
  lemma {:induction false} RoundTrip(subpaks: seq<bytes>)
    requires Packable(subpaks)
    ensures WellFormed([3] + PakedAll(subpaks, true), false, false)
    ensures Unpacked(SlowBody([3] + PakedAll(subpaks, true), false, false), 0) == subpaks <==> InStep(subpaks, true, 0)
  {
    var c: bytes := [3] + PakedAll(subpaks, true);
    PiecesAllEmit(subpaks, true, 0);
    PiecesAllJoin(subpaks, true);
    ConcatUnpacks(PiecesAll(subpaks, true), 0);
    ReturnedIsSame(subpaks, true, 0);
    assert WithChecksum(c, false)[3..] == PakedAll(subpaks, true);
  }

  /** Plain subpackets and full movements are read as they stand. */
  lemma StandsAlone(s: bytes)
    requires Plain(s) || Movement(s)
    ensures Readable(s) && Alone(s)
  {
    assert s[|s|..] == [];
  }

  const FIVE: bytes := [MOVE, 11, 0, 5, 0, 0, 0, 0xff, 0xff, 1, 0]
  const SEVEN: bytes := [MOVE, 11, 0, 7, 0, 0, 0, 0xff, 0xff, 1, 0]

  /** Two short movements, at ticks five and seven. */
  const GAP: seq<bytes> := [FIVE, SEVEN]

  lemma GapIsPackable()
    ensures Movement(FIVE) && Word32(FIVE[3..]) == 5 && Movement(SEVEN) && Word32(SEVEN[3..]) == 7
    ensures Packable(GAP)
  {
  }

  /** They do not come back, since the second is not at tick six. */
  lemma GapIsLost()
    ensures Packable(GAP) && !InStep(GAP, true, 0)
    ensures WellFormed([3] + PakedAll(GAP, true), false, false)
    ensures Unpacked(SlowBody([3] + PakedAll(GAP, true), false, false), 0) != GAP
  {
    GapIsPackable();
    var rest: seq<bytes> := [SEVEN];
    assert GAP[1..] == rest;
    InStepStep(GAP, true, 0);
    InStepStep(rest, false, 6);
    RoundTrip(GAP);
  }
}
