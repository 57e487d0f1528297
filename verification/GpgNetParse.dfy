/** The resumable GPGNet parser: an interrupted command goes on where it stopped. */
module GpgNetParse {
  import opened Bytes
  import opened Streams
  import opened Draining
  import opened GpgNet

  // ------------------------------------------------------- readers

  /** A buffer of known size, filled as far as `got`. */
  datatype Reader = Reader(size: nat, got: bytes)

  datatype ArrayReader = ArrayReader(size: Reader, data: Reader)

  datatype ValueReader = Unset | IntReader(word: Reader) | BytesReader(array: ArrayReader)

  datatype Slot = Slot(kind: Reader, value: ValueReader)

  const NEW_WORD := Reader(4, [])
  const NEW_ARRAY := ArrayReader(NEW_WORD, Reader(0, []))
  const NEW_SLOT := Slot(Reader(1, []), Unset)

  predicate Full(r: Reader) {
    |r.got| == r.size
  }

  predicate ValidWord(r: Reader) {
    r.size == 4 && |r.got| <= 4
  }

  /** The data come after the size, and are of that size. */
  predicate ValidArray(a: ArrayReader) {
    && ValidWord(a.size)
    && (a.data.got != [] ==> Full(a.size) && a.data.size == Word32(a.size.got) <= MAX_RECORD_SIZE && |a.data.got| <= a.data.size)
  }

  function ArrayTaken(a: ArrayReader): bytes {
    a.size.got + a.data.got
  }

  predicate ValidSlot(s: Slot) {
    && s.kind.size == 1 && |s.kind.got| <= 1
    && match s.value
       case Unset => true
       case IntReader(w) => s.kind.got == [0] && ValidWord(w)
       case BytesReader(a) => s.kind.got == [1] && ValidArray(a)
  }

  function SlotTaken(s: Slot): bytes {
    s.kind.got +
    match s.value
    case Unset => []
    case IntReader(w) => w.got
    case BytesReader(a) => ArrayTaken(a)
  }

  function SlotsTaken(ss: seq<Slot>): bytes {
    if ss == [] then [] else SlotTaken(ss[0]) + SlotsTaken(ss[1..])
  }

  lemma {:induction false} SlotsTakenAppend(a: seq<Slot>, b: seq<Slot>)
    ensures SlotsTaken(a + b) == SlotsTaken(a) + SlotsTaken(b)
    decreases |a|
  {
    if a == [] {
      assert a + b == b;
    } else {
      SlotsTakenAppend(a[1..], b);
      assert (a + b)[1..] == a[1..] + b;
    }
  }

  /** Everything but the last slot holds a whole argument. */
  ghost predicate ValidSlots(ss: seq<Slot>) {
    && (forall i :: 0 <= i < |ss| ==> ValidSlot(ss[i]))
    && (forall i :: 0 <= i < |ss| - 1 ==> Whole(ss[i]))
  }

  predicate Whole(s: Slot) {
    DecodeArgument(SlotTaken(s)).Got? && DecodeArgument(SlotTaken(s)).rest == []
  }

  // ------------------------------------------------------- filling the readers

  method Fill(r: Reader, input: InputStream) returns (q: Reader)
    requires |r.got| <= r.size
    modifies input
    ensures q.size == r.size && |q.got| <= q.size
    ensures r.got + old(input.data) == q.got + input.data
    ensures Full(q) || input.data == []
    ensures Full(r) ==> q == r && input.data == old(input.data)
  {
    q := r;
    if |r.got| < r.size {
      var more := input.Read(r.size - |r.got|);
      q := r.(got := r.got + more);
    }
  }

  lemma ArrayDecodes(size: bytes, data: bytes, rest: bytes)
    requires |size| == 4 && Word32(size) <= MAX_RECORD_SIZE
    ensures |data| == Word32(size) ==> DecodeBytes(size + data + rest) == Got(data, rest)
    ensures |data| < Word32(size) ==> DecodeBytes(size + data) == NotReady
  {
    Word32Prefix(size, data);
    Word32Prefix(size, data + rest);
    assert size + data + rest == size + (data + rest);
    if |data| == Word32(size) {
      assert (size + data + rest)[4..4 + |data|] == data;
      assert (size + data + rest)[4 + |data|..] == rest;
    }
  }

  /** The size of an array comes first; nothing of its data has been taken before it. */
  method FillSize(a: ArrayReader, input: InputStream) returns (b: ArrayReader)
    requires ValidArray(a)
    modifies input
    ensures ValidArray(b) && b.data == a.data
    ensures ArrayTaken(a) + old(input.data) == ArrayTaken(b) + input.data
    ensures !Full(b.size) ==> b.data.got == [] && input.data == []
  {
    var size := Fill(a.size, input);
    b := a.(size := size);
    if a.data.got == [] {
      assert ArrayTaken(a) == a.size.got && ArrayTaken(b) == size.got;
    }
  }

  method FillArray(a: ArrayReader, input: InputStream) returns (b: ArrayReader, reply: Reply<bytes>)
    requires ValidArray(a)
    modifies input
    ensures ValidArray(b)
    ensures ArrayTaken(a) + old(input.data) == ArrayTaken(b) + input.data
    ensures Agrees(reply, input.data, DecodeBytes(ArrayTaken(a) + old(input.data)))
  {
    ghost var s := ArrayTaken(a) + input.data;
    b := FillSize(a, input);
    if !Full(b.size) { return b, Wait; }
    var size := b.size.got;
    Word32Prefix(size, b.data.got + input.data);
    assert s == size + (b.data.got + input.data);
    if Word32(size) > MAX_RECORD_SIZE { return b, Fail; }
    var data := Fill(Reader(Word32(size), b.data.got), input);
    b := b.(data := data);
    assert s == size + data.got + input.data;
    ArrayDecodes(size, data.got, input.data);
    if Full(data) { reply := Ready(data.got); } else {
      assert s == size + data.got;
      reply := Wait;
    }
  }

  lemma NumberDecodes(word: bytes, rest: bytes)
    ensures |word| == 4 ==> DecodeArgument([0] + word + rest) == Got(Int(Word32(word)), rest)
    ensures |word| < 4 ==> DecodeArgument([0] + word) == NotReady
  {
    var s := [0] + word + rest;
    if |word| == 4 {
      assert s[1..5] == word && s[5..] == rest;
    }
  }

  lemma ContentDecodes(s: bytes)
    ensures DecodeArgument([1] + s) ==
      match DecodeBytes(s)
      case NotReady => NotReady
      case Bad => Bad
      case Got(content, rest) => Got(Data(content), rest)
  {
    assert ([1] + s)[1..] == s;
  }

  /** The reader that fits the type byte is made when the type is known. */
  function Fitted(s: Slot): ValueReader {
    if s.value != Unset then s.value
    else if s.kind.got == [0] then IntReader(NEW_WORD)
    else if s.kind.got == [1] then BytesReader(NEW_ARRAY)
    else Unset
  }

  method FillKind(s: Slot, input: InputStream) returns (t: Slot)
    requires ValidSlot(s)
    modifies input
    ensures ValidSlot(t)
    ensures SlotTaken(s) + old(input.data) == SlotTaken(t) + input.data
    ensures !Full(t.kind) ==> t.kind.got == [] && t.value == Unset && input.data == []
    ensures Full(t.kind) ==> t.value == Fitted(t) && |t.kind.got| == 1
  {
    var kind := Fill(s.kind, input);
    t := s.(kind := kind);
    t := t.(value := Fitted(t));
  }

  method FillNumber(w: Reader, input: InputStream) returns (v: Reader, reply: Reply<Argument>)
    requires ValidWord(w)
    modifies input
    ensures ValidWord(v)
    ensures w.got + old(input.data) == v.got + input.data
    ensures Agrees(reply, input.data, DecodeArgument([0] + (w.got + old(input.data))))
  {
    v := Fill(w, input);
    NumberDecodes(v.got, input.data);
    Regroup([0], v.got, input.data);
    if Full(v) {
      reply := Ready(Int(Word32(v.got)));
    } else {
      Nothing(v.got);
      reply := Wait;
    }
  }

  method FillContent(a: ArrayReader, input: InputStream) returns (b: ArrayReader, reply: Reply<Argument>)
    requires ValidArray(a)
    modifies input
    ensures ValidArray(b)
    ensures ArrayTaken(a) + old(input.data) == ArrayTaken(b) + input.data
    ensures Agrees(reply, input.data, DecodeArgument([1] + (ArrayTaken(a) + old(input.data))))
  {
    ContentDecodes(ArrayTaken(a) + input.data);
    var r;
    b, r := FillArray(a, input);
    reply := match r case Wait => Wait case Fail => Fail case Ready(content) => Ready(Data(content));
  }

  method FillValue(s: Slot, input: InputStream) returns (t: Slot, reply: Reply<Argument>)
    requires ValidSlot(s) && Full(s.kind) && s.value == Fitted(s)
    modifies input
    ensures ValidSlot(t)
    ensures SlotTaken(s) + old(input.data) == SlotTaken(t) + input.data
    ensures Agrees(reply, input.data, DecodeArgument(SlotTaken(s) + old(input.data)))
  {
    t := s;
    match s.value
    case Unset =>
      assert (SlotTaken(s) + input.data)[0] == s.kind.got[0];
      reply := Fail;
    case IntReader(w) =>
      Regroup([0], w.got, input.data);
      var v;
      v, reply := FillNumber(w, input);
      t := s.(value := IntReader(v));
      Regroup([0], v.got, input.data);
    case BytesReader(a) =>
      Regroup([1], ArrayTaken(a), input.data);
      var b;
      b, reply := FillContent(a, input);
      t := s.(value := BytesReader(b));
      Regroup([1], ArrayTaken(b), input.data);
  }

  method FillSlot(s: Slot, input: InputStream) returns (t: Slot, reply: Reply<Argument>)
    requires ValidSlot(s)
    modifies input
    ensures ValidSlot(t)
    ensures SlotTaken(s) + old(input.data) == SlotTaken(t) + input.data
    ensures Agrees(reply, input.data, DecodeArgument(SlotTaken(s) + old(input.data)))
  {
    t := FillKind(s, input);
    if Full(t.kind) {
      t, reply := FillValue(t, input);
    } else {
      reply := Wait;
    }
  }

  // ------------------------------------------------------- whole and partial arguments

  lemma BytesWhole(b: bytes, v: bytes, rest: bytes)
    requires DecodeBytes(b + rest) == Got(v, rest)
    ensures DecodeBytes(b) == Got(v, [])
  {
    var s := b + rest;
    assert |b| == 4 + Word32(s);
    Word32Prefix(b, rest);
    assert b[4..|b|] == s[4..|b|];
    assert b[|b|..] == [];
  }

  lemma ArgumentWhole(b: bytes, v: Argument, rest: bytes)
    requires DecodeArgument(b + rest) == Got(v, rest)
    ensures DecodeArgument(b) == Got(v, [])
  {
    var s := b + rest;
    assert |s| == |b| + |rest|;
    if s[0] == 0 {
      assert |b| == 5;
      assert b[1..5] == s[1..5];
    } else {
      DecodedIsShorter(s[1..]);
      assert s[1..] == b[1..] + rest;
      BytesWhole(b[1..], v.content, rest);
    }
  }

  lemma DecodedIsShorter(s: bytes)
    ensures DecodeBytes(s).Got? ==> |DecodeBytes(s).rest| < |s|
  {
  }

  lemma WholeGoes(s: Slot, rest: bytes)
    requires Whole(s)
    ensures DecodeArgument(SlotTaken(s) + rest) == Got(DecodeArgument(SlotTaken(s)).value, rest)
  {
    ArgumentGrows(SlotTaken(s), rest);
    assert [] + rest == rest;
  }

  /** The bytes of slot `k` and those behind it. */
  lemma SlotsTakenAt(ss: seq<Slot>, k: nat)
    requires k < |ss|
    ensures SlotsTaken(ss[k..]) == SlotTaken(ss[k]) + SlotsTaken(ss[k + 1..])
  {
    assert ss[k..][1..] == ss[k + 1..];
  }

  lemma SlotsTakenSplit(ss: seq<Slot>, k: nat)
    requires k <= |ss|
    ensures SlotsTaken(ss) == SlotsTaken(ss[..k]) + SlotsTaken(ss[k..])
  {
    SlotsTakenAppend(ss[..k], ss[k..]);
    assert ss[..k] + ss[k..] == ss;
  }

  /** The bytes from slot `k` on. */
  function Behind(slots: seq<Slot>, k: nat, left: bytes): bytes
    requires k <= |slots|
  {
    SlotsTaken(slots[k..]) + left
  }

  /** What one argument's turn does to the bytes from its slot on. */
  ghost predicate Turned(reply: Reply<Argument>, s: bytes, slots: seq<Slot>, k: nat, left: bytes)
    requires k < |slots|
  {
    && Behind(slots, k, left) == s
    && match DecodeArgument(s)
       case NotReady => reply == Wait && left == [] && |slots| == k + 1
       case Bad => reply == Fail
       case Got(v, rest) => reply == Ready(v) && Whole(slots[k]) && Behind(slots, k + 1, left) == rest
  }

  lemma WholeSlotTurns(slots: seq<Slot>, k: nat, left: bytes)
    requires k < |slots| && Whole(slots[k])
    ensures Turned(Ready(DecodeArgument(SlotTaken(slots[k])).value), Behind(slots, k, left), slots, k, left)
  {
    SlotsTakenAt(slots, k);
    var rest := Behind(slots, k + 1, left);
    assert Behind(slots, k, left) == SlotTaken(slots[k]) + rest;
    WholeGoes(slots[k], rest);
  }

  lemma LastSlotTurns(reply: Reply<Argument>, s: bytes, slots: seq<Slot>, k: nat, left: bytes)
    requires |slots| == k + 1
    requires SlotTaken(slots[k]) + left == s && Agrees(reply, left, DecodeArgument(s))
    ensures Turned(reply, s, slots, k, left)
  {
    SlotsTakenAt(slots, k);
    assert slots[k + 1..] == [];
    if DecodeArgument(s).Got? {
      ArgumentWhole(SlotTaken(slots[k]), DecodeArgument(s).value, left);
    }
  }

  lemma PrependNothing(p: Parsed<seq<Argument>>)
    ensures Prepend([], p) == p
  {
    if p.Got? { assert [] + p.value == p.value; }
  }

  lemma DecodeStep(args: seq<Argument>, s: bytes, n: nat)
    requires n > 0
    ensures Prepend(args, DecodeArguments(s, n)) ==
      match DecodeArgument(s)
      case NotReady => NotReady
      case Bad => Bad
      case Got(a, rest) => Prepend(args + [a], DecodeArguments(rest, n - 1))
  {
    if DecodeArgument(s).Got? && DecodeArguments(DecodeArgument(s).rest, n - 1).Got? {
      var a, more := DecodeArgument(s).value, DecodeArguments(DecodeArgument(s).rest, n - 1).value;
      assert args + ([a] + more) == args + [a] + more;
    }
  }

  /** A decoding `all` that has given `args` and goes on with `m` more arguments from `s`. */
  datatype Decoding = Decoding(all: Parsed<seq<Argument>>, args: seq<Argument>, s: bytes, m: nat)

  ghost predicate GoesOn(d: Decoding) {
    d.all == Prepend(d.args, DecodeArguments(d.s, d.m))
  }

  /** The first `k` slots hold the arguments so far, and the decoding goes on behind them. */
  ghost predicate Halfway(d: Decoding, slots: seq<Slot>, left: bytes, k: nat, n: nat) {
    && k <= |slots| <= n && d.m == n - k
    && (forall i :: 0 <= i < k ==> Whole(slots[i]))
    && d.s == Behind(slots, k, left)
    && GoesOn(d)
  }

  lemma TurnKeepsBytes(was: seq<Slot>, leftWas: bytes, slots: seq<Slot>, left: bytes, k: nat)
    requires k <= |was| && k <= |slots| && slots[..k] == was[..k]
    requires Behind(slots, k, left) == Behind(was, k, leftWas)
    ensures SlotsTaken(slots) + left == SlotsTaken(was) + leftWas
  {
    SlotsTakenSplit(was, k);
    SlotsTakenSplit(slots, k);
    Regroup(SlotsTaken(slots[..k]), SlotsTaken(slots[k..]), left);
    Regroup(SlotsTaken(was[..k]), SlotsTaken(was[k..]), leftWas);
  }

  lemma StepGot(d: Decoding, v: Argument, rest: bytes) returns (e: Decoding)
    requires d.m > 0 && GoesOn(d) && DecodeArgument(d.s) == Got(v, rest)
    ensures GoesOn(e) && e == Decoding(d.all, d.args + [v], rest, d.m - 1)
  {
    DecodeStep(d.args, d.s, d.m);
    e := Decoding(d.all, d.args + [v], rest, d.m - 1);
  }

  lemma StepStops(d: Decoding)
    requires d.m > 0 && GoesOn(d)
    ensures DecodeArgument(d.s) == NotReady ==> d.all == NotReady
    ensures DecodeArgument(d.s) == Bad ==> d.all == Bad
  {
  }

  /** What one more argument does to the decoding. */
  lemma TurnStops(reply: Reply<Argument>, d: Decoding, slots: seq<Slot>, k: nat, left: bytes) returns (e: Decoding)
    requires d.m > 0 && GoesOn(d)
    requires k < |slots| && Turned(reply, d.s, slots, k, left)
    ensures reply == Wait ==> d.all == NotReady && left == []
    ensures reply == Fail ==> d.all == Bad
    ensures reply.Ready? ==>
      GoesOn(e) && e == Decoding(d.all, d.args + [reply.value], Behind(slots, k + 1, left), d.m - 1)
  {
    e := d;
    if reply.Ready? {
      e := StepGot(d, reply.value, Behind(slots, k + 1, left));
    } else {
      StepStops(d);
    }
  }

  lemma TurnOn(
    reply: Reply<Argument>, d: Decoding, was: seq<Slot>, leftWas: bytes, slots: seq<Slot>, left: bytes, k: nat, n: nat)
      returns (e: Decoding)
    requires Halfway(d, was, leftWas, k, n) && k < |slots| <= n
    requires slots[..k] == was[..k]
    requires Turned(reply, d.s, slots, k, left)
    ensures SlotsTaken(slots) + left == SlotsTaken(was) + leftWas
    ensures reply == Wait ==> d.all == NotReady && left == []
    ensures reply == Fail ==> d.all == Bad
    ensures reply.Ready? ==> e.all == d.all && e.args == d.args + [reply.value] && Halfway(e, slots, left, k + 1, n)
  {
    TurnKeepsBytes(was, leftWas, slots, left, k);
    e := TurnStops(reply, d, slots, k, left);
    forall i | 0 <= i < k
      ensures Whole(slots[i])
    {
      assert slots[i] == slots[..k][i] == was[..k][i] == was[i];
    }
  }

  lemma NoneRead(slots: seq<Slot>, left: bytes, n: nat) returns (d: Decoding)
    requires |slots| <= n
    ensures Halfway(d, slots, left, 0, n) && d.args == [] && d.all == DecodeArguments(SlotsTaken(slots) + left, n)
  {
    assert slots[0..] == slots;
    PrependNothing(DecodeArguments(SlotsTaken(slots) + left, n));
    d := Decoding(DecodeArguments(SlotsTaken(slots) + left, n), [], Behind(slots, 0, left), n);
  }

  lemma AllRead(d: Decoding, slots: seq<Slot>, left: bytes, n: nat)
    requires Halfway(d, slots, left, n, n)
    ensures d.all == Got(d.args, left)
  {
    assert slots[n..] == [];
    assert Behind(slots, n, left) == left;
    assert d.args + [] == d.args;
  }

  method FillWhole(s: Slot, input: InputStream) returns (t: Slot, reply: Reply<Argument>)
    requires ValidSlot(s) && Whole(s)
    modifies input
    ensures ValidSlot(t) && SlotTaken(t) == SlotTaken(s) && input.data == old(input.data)
    ensures reply == Ready(DecodeArgument(SlotTaken(s)).value)
  {
    ghost var b, left := SlotTaken(s), input.data;
    WholeGoes(s, left);
    t, reply := FillSlot(s, input);
    assert input.data == left;
    assert SlotTaken(t) == b by {
      assert (SlotTaken(t) + left)[..|b|] == (b + left)[..|b|];
    }
  }

  method FillFullArray(a: ArrayReader, input: InputStream) returns (b: ArrayReader, reply: Reply<bytes>)
    requires ValidArray(a) && DecodeBytes(ArrayTaken(a)).Got? && DecodeBytes(ArrayTaken(a)).rest == []
    modifies input
    ensures ValidArray(b) && ArrayTaken(b) == ArrayTaken(a) && input.data == old(input.data)
    ensures reply == Ready(DecodeBytes(ArrayTaken(a)).value)
  {
    ghost var s, left := ArrayTaken(a), input.data;
    BytesGrow(s, left);
    assert [] + left == left;
    b, reply := FillArray(a, input);
    assert input.data == left;
    assert ArrayTaken(b) == s by {
      assert (ArrayTaken(b) + left)[..|s|] == (s + left)[..|s|];
    }
  }

  /** The commands taken so far are the first of all, and the others are those of what is left. */
  ghost predicate Drains(d: Unfinished<Command>) {
    CommandIsStable();
    DrainsOn(DecodeCommand, d)
  }

  lemma DrainsFrom(s: bytes) returns (d: Unfinished<Command>)
    ensures Drains(d) && d == Unfinished(CommandsIn(s), [], s)
  {
    CommandIsStable();
    d := NoneDrained(DecodeCommand, s);
  }

  lemma DrainsAll(d: Unfinished<Command>)
    requires Drains(d) && DecodeCommand(d.s) == NotReady
    ensures d.all == Drained(d.items, d.s, false)
  {
    CommandIsStable();
    AllDrained(DecodeCommand, d);
  }

  lemma DrainsReply(d: Unfinished<Command>, reply: Reply<Command>, left: bytes, p: Parsed<Command>)
      returns (e: Unfinished<Command>)
    requires p == DecodeCommand(d.s) && Drains(d) && Agrees(reply, left, p)
    ensures reply.Ready? ==>
      |left| < |d.s| && Drains(e) && e == Unfinished(d.all, d.items + [reply.value], left)
    ensures !reply.Ready? ==> d.all == Drained(d.items, d.s, reply == Fail)
    ensures reply == Wait ==> p == NotReady
  {
    CommandIsStable();
    e := DrainAgrees(DecodeCommand, d, reply, left, p);
  }

  class GpgNetParse {
    var command: ArrayReader
    var numArgs: Reader
    var slots: seq<Slot>

    ghost predicate Valid()
      reads this
    {
      && ValidArray(command) && ValidWord(numArgs) && ValidSlots(slots)
      && (numArgs.got != [] ==> DecodeBytes(ArrayTaken(command)).Got? && DecodeBytes(ArrayTaken(command)).rest == [])
      && (slots != [] ==> Full(numArgs) && |slots| <= Word32(numArgs.got) <= MAX_NUM_ARGS)
    }

    /** The bytes of the command in progress that were read already. */
    ghost function Taken(): bytes
      reads this
    {
      ArrayTaken(command) + Tail()
    }

    ghost function Tail(): bytes
      reads this
    {
      numArgs.got + SlotsTaken(slots)
    }

    constructor ()
      ensures Valid() && Taken() == []
    {
      command, numArgs, slots := NEW_ARRAY, NEW_WORD, [];
    }

    method Reset()
      requires Valid()
      modifies this
      ensures Valid() && Taken() == []
    {
      command := ArrayReader(NEW_WORD, command.data.(got := []));
      numArgs := NEW_WORD;
      slots := [];
    }

    /** A slot before the last answers again what it holds, and reads nothing. */
    method ReadWhole(k: nat, input: InputStream) returns (reply: Reply<Argument>)
      requires k < |slots| && ValidSlot(slots[k]) && Whole(slots[k])
      modifies this`slots, input
      ensures |slots| == |old(slots)| && ValidSlot(slots[k]) && slots == old(slots)[k := slots[k]]
      ensures Whole(slots[k]) && input.data == old(input.data)
      ensures Turned(reply, Behind(old(slots), k, old(input.data)), slots, k, input.data)
    {
      ghost var was := slots;
      var t;
      t, reply := FillWhole(slots[k], input);
      slots := slots[k := t];
      SlotsTakenAt(was, k);
      SlotsTakenAt(slots, k);
      assert slots[k + 1..] == was[k + 1..];
      WholeSlotTurns(slots, k, input.data);
    }

    /** The last slot goes on where it stopped. */
    method ReadLast(input: InputStream) returns (reply: Reply<Argument>)
      requires slots != [] && ValidSlot(slots[|slots| - 1])
      modifies this`slots, input
      ensures |slots| == |old(slots)| && ValidSlot(slots[|slots| - 1])
      ensures slots == old(slots)[|slots| - 1 := slots[|slots| - 1]]
      ensures Turned(reply, SlotsTaken(old(slots)[|slots| - 1..]) + old(input.data), slots, |slots| - 1, input.data)
    {
      var k := |slots| - 1;
      ghost var s := SlotTaken(slots[k]) + input.data;
      SlotsTakenAt(slots, k);
      assert SlotsTaken(slots[k..]) == SlotTaken(slots[k]);
      var t;
      t, reply := FillSlot(slots[k], input);
      slots := slots[k := t];
      LastSlotTurns(reply, s, slots, k, input.data);
    }

    method NextArgument(k: nat, input: InputStream) returns (reply: Reply<Argument>)
      requires ValidSlots(slots) && k <= |slots| && forall i :: 0 <= i < k ==> Whole(slots[i])
      modifies this`slots, input
      ensures ValidSlots(slots) && k < |slots| && slots[..k] == old(slots)[..k]
      ensures |slots| == if k == |old(slots)| then k + 1 else |old(slots)|
      ensures Turned(reply, Behind(old(slots), k, old(input.data)), slots, k, input.data)
    {
      if k == |slots| {
        slots := slots + [NEW_SLOT];
        SlotsTakenAt(slots, k);
        assert slots[k + 1..] == [] && SlotTaken(NEW_SLOT) == [];
        assert SlotsTaken(slots[k..]) == SlotsTaken(old(slots)[k..]);
      }
      if k < |slots| - 1 {
        reply := ReadWhole(k, input);
      } else {
        reply := ReadLast(input);
      }
    }

    /** All arguments from the first on; those read before answer at once. */
    method GetArguments(n: nat, input: InputStream) returns (reply: Reply<seq<Argument>>)
      requires ValidSlots(slots) && |slots| <= n
      modifies this`slots, input
      ensures ValidSlots(slots) && |slots| <= n
      ensures SlotsTaken(old(slots)) + old(input.data) == SlotsTaken(slots) + input.data
      ensures Agrees(reply, input.data, DecodeArguments(SlotsTaken(old(slots)) + old(input.data), n))
    {
      ghost var taken := SlotsTaken(slots) + input.data;
      var args := [];
      ghost var d := NoneRead(slots, input.data, n);
      ghost var all := d.all;
      for k := 0 to n
        invariant ValidSlots(slots) && SlotsTaken(slots) + input.data == taken
        invariant Halfway(d, slots, input.data, k, n) && d.args == args && d.all == all
      {
        ghost var was, left := slots, input.data;
        var r := NextArgument(k, input);
        d := TurnOn(r, d, was, left, slots, input.data, k, n);
        if r == Wait { return Wait; }
        if r == Fail { return Fail; }
        args := args + [r.value];
      }
      AllRead(d, slots, input.data, n);
      reply := Ready(args);
    }

    method GetCount(input: InputStream) returns (full: bool)
      requires Valid() && DecodeBytes(ArrayTaken(command)).Got? && DecodeBytes(ArrayTaken(command)).rest == []
      modifies this`numArgs, input
      ensures Valid()
      ensures Tail() + input.data == old(Tail() + input.data)
      ensures full == Full(numArgs) && (!full ==> input.data == [] && slots == [])
    {
      if slots == [] {
        assert Tail() == numArgs.got;
        numArgs := Fill(numArgs, input);
        assert Tail() == numArgs.got;
      } else {
        numArgs := Fill(numArgs, input);
      }
      full := Full(numArgs);
    }

    /** The number of arguments and the arguments, once the name is there. */
    method GetTail(name: bytes, input: InputStream) returns (reply: Reply<Command>)
      requires Valid() && DecodeBytes(ArrayTaken(command)) == Got(name, [])
      modifies this`numArgs, this`slots, input
      ensures Valid()
      ensures Tail() + input.data == old(Tail() + input.data)
      ensures Agrees(reply, input.data, DecodeTail(name, old(Tail() + input.data)))
    {
      ghost var s := Tail() + input.data;
      var full := GetCount(input);
      Regroup(numArgs.got, SlotsTaken(slots), input.data);
      if !full {
        assert SlotsTaken(slots) == [] && s == numArgs.got;
        return Wait;
      }
      var n := Word32(numArgs.got);
      Word32Prefix(numArgs.got, SlotsTaken(slots) + input.data);
      if n > MAX_NUM_ARGS { return Fail; }
      assert s[4..] == SlotsTaken(slots) + input.data;
      var r := GetArguments(n, input);
      Regroup(numArgs.got, SlotsTaken(slots), input.data);
      reply := match r case Wait => Wait case Fail => Fail case Ready(args) => Ready(Command(name, args));
    }

    /** The name that starts a command; an interrupted one goes on, a whole one is answered again. */
    method GetName(input: InputStream) returns (reply: Reply<bytes>)
      requires Valid()
      modifies this`command, input
      ensures Valid()
      ensures Taken() + input.data == old(Taken() + input.data)
      ensures match DecodeBytes(old(Taken() + input.data))
        case NotReady => reply == Wait && input.data == []
        case Bad => reply == Fail
        case Got(v, rest) =>
          reply == Ready(v) && DecodeBytes(ArrayTaken(command)) == Got(v, [])
          && Tail() + input.data == rest
    {
      ghost var b, tail, left := ArrayTaken(command), Tail(), input.data;
      Regroup(b, tail, left);
      if numArgs.got != [] {
        var filled;
        filled, reply := FillFullArray(command, input);
        command := filled;
        BytesGrow(b, tail + left);
        assert [] + (tail + left) == tail + left;
      } else {
        assert tail == [];
        assert tail + left == left;
        var filled;
        filled, reply := FillArray(command, input);
        command := filled;
        assert tail + input.data == input.data;
        if reply.Ready? {
          BytesWhole(ArrayTaken(command), reply.value, input.data);
        }
      }
      Regroup(ArrayTaken(command), tail, input.data);
    }

    method FinishCommand(name: bytes, input: InputStream) returns (reply: Reply<Command>)
      requires Valid() && DecodeBytes(ArrayTaken(command)) == Got(name, [])
      modifies this, input
      ensures Valid()
      ensures Agrees(reply, input.data, DecodeTail(name, old(Tail() + input.data)))
      ensures if reply.Ready? then Taken() == [] else Taken() + input.data == old(Taken() + input.data)
    {
      Regroup(ArrayTaken(command), Tail(), input.data);
      reply := GetTail(name, input);
      Regroup(ArrayTaken(command), Tail(), input.data);
      if reply.Ready? { Reset(); }
    }

    /**
     * A whole command, or as much of one as there is. Decoding what an interrupted call had taken together
     * with what has arrived since gives the same; nothing is read twice and nothing is skipped.
     */
    method GetCommand(input: InputStream) returns (reply: Reply<Command>)
      requires Valid()
      modifies this, input
      ensures Valid()
      ensures Agrees(reply, input.data, DecodeCommand(old(Taken() + input.data)))
      ensures reply.Ready? ==> Taken() == []
      ensures !reply.Ready? ==> Taken() + input.data == old(Taken() + input.data)
    {
      ghost var s := Taken() + input.data;
      var name := GetName(input);
      if name == Wait { return Wait; }
      if name == Fail { return Fail; }
      assert DecodeCommand(s) == DecodeTail(name.value, Tail() + input.data);
      reply := FinishCommand(name.value, input);
    }

    /** Nothing unread, and no whole command taken. */
    ghost predicate Waiting(input: InputStream)
      reads this, input
    {
      Valid() && input.data == [] && DecodeCommand(Taken()) == NotReady
    }

    /** This parser is in the middle of draining `d`. */
    ghost predicate Takes(input: InputStream, d: Unfinished<Command>)
      reads this, input
    {
      && Valid() && d.s == Taken() + input.data && Drains(d)
      && (input.data == [] ==> DecodeCommand(d.s) == NotReady)
    }

    /** Draining is over: nothing more is whole, or the stream has failed. */
    ghost predicate Stops(input: InputStream, d: Unfinished<Command>, failed: bool)
      reads this, input
    {
      d.all == Drained(d.items, Taken() + input.data, failed) && (!failed ==> Waiting(input))
    }

    /** One more command of those that are drained. */
    method TakeCommand(input: InputStream, ghost d: Unfinished<Command>)
        returns (reply: Reply<Command>, ghost e: Unfinished<Command>)
      requires Takes(input, d)
      modifies this, input
      ensures reply.Ready? ==>
        |e.s| < |d.s| && Takes(input, e) && e.all == d.all && e.items == d.items + [reply.value]
      ensures !reply.Ready? ==> Stops(input, d, reply == Fail)
    {
      ghost var p := DecodeCommand(d.s);
      reply := GetCommand(input);
      e := DrainsReply(d, reply, input.data, p);
      Nothing(Taken());
      Nothing(input.data);
    }

    /** The commands that what is unread completes. */
    method TakeAll(input: InputStream, ghost first: Unfinished<Command>) returns (commands: seq<Command>, failed: bool)
      requires Takes(input, first) && first.items == []
      modifies this, input
      ensures first.all == Drained(commands, Taken() + input.data, failed)
      ensures !failed ==> Waiting(input)
    {
      ghost var d := first;
      commands, failed := [], false;
      while input.data != []
        invariant Takes(input, d) && d.items == commands && d.all == first.all
        decreases |d.s|
      {
        var reply;
        reply, d := TakeCommand(input, d);
        if !reply.Ready? { return commands, reply == Fail; }
        commands := commands + [reply.value];
      }
      Nothing(Taken());
      DrainsAll(d);
    }

    /** All commands that are whole once `chunk` has arrived, as draining the bytes seen so far gives them. */
    method OnReadyRead(input: InputStream, chunk: bytes) returns (commands: seq<Command>, failed: bool)
      requires Waiting(input)
      modifies this, input
      ensures CommandsIn(old(Taken()) + chunk) == Drained(commands, Taken() + input.data, failed)
      ensures !failed ==> Waiting(input)
    {
      ghost var d := DrainsFrom(Taken() + chunk);
      Nothing(Taken());
      input.Arrive(chunk);
      Nothing(chunk);
      commands, failed := TakeAll(input, d);
    }
  }
}
