/** Taking items off a stream that arrives in chunks. */
module Draining {
  import opened Bytes
  import opened Streams

  type Decoder<!T> = bytes -> Parsed<T>

  /** What was decoded stays decoded when more bytes follow. */
  ghost predicate Grows<T>(p: Parsed<T>, q: Parsed<T>, more: bytes) {
    match p
    case NotReady => true
    case Bad => q == Bad
    case Got(v, rest) => q == Got(v, rest + more)
  }

  ghost predicate Stable<T>(f: Decoder<T>) {
    && (forall s: bytes, more: bytes :: Grows(f(s), f(s + more), more))
    && (forall s: bytes :: f(s).Got? ==> |f(s).rest| < |s|)
  }

  datatype Drained<T> = Drained(items: seq<T>, left: bytes, failed: bool)

  function Led<T>(xs: seq<T>, d: Drained<T>): Drained<T> {
    Drained(xs + d.items, d.left, d.failed)
  }

  /** All items that `s` holds, and what is left. */
  ghost function Drain<T>(f: Decoder<T>, s: bytes): Drained<T>
    requires Stable(f)
    decreases |s|
  {
    match f(s)
    case NotReady => Drained([], s, false)
    case Bad => Drained([], s, true)
    case Got(x, rest) => Led([x], Drain(f, rest))
  }

  /** Draining after each chunk; a failed stream is not read any more. */
  ghost function DrainChunks<T>(f: Decoder<T>, left: bytes, chunks: seq<bytes>): Drained<T>
    requires Stable(f)
    decreases |chunks|
  {
    if chunks == [] then Drained([], left, false)
    else
      var d := Drain(f, left + chunks[0]);
      if d.failed then d else Led(d.items, DrainChunks(f, d.left, chunks[1..]))
  }

  function WriteAll<T>(w: T -> bytes, xs: seq<T>): bytes {
    if xs == [] then [] else w(xs[0]) + WriteAll(w, xs[1..])
  }

  // ------------------------------------------------------- sequences

  lemma {:induction false} WriteAllSnoc<T>(w: T -> bytes, xs: seq<T>, x: T)
    ensures WriteAll(w, xs + [x]) == WriteAll(w, xs) + w(x)
    decreases |xs|
  {
    if xs == [] {
      assert WriteAll(w, [x]) == w(x) + [];
    } else {
      assert (xs + [x])[1..] == xs[1..] + [x];
      WriteAllSnoc(w, xs[1..], x);
      Regroup(w(xs[0]), WriteAll(w, xs[1..]), w(x));
    }
  }

  lemma LedTwice<T>(a: seq<T>, b: seq<T>, d: Drained<T>)
    ensures Led(a, Led(b, d)) == Led(a + b, d) && Led([], d) == d
  {
    assert a + (b + d.items) == (a + b) + d.items;
  }

  lemma LedNowhere<T>(xs: seq<T>, s: bytes, failed: bool)
    ensures Led(xs, Drained([], s, failed)) == Drained(xs, s, failed)
  {
    assert xs + [] == xs;
  }

  // ------------------------------------------------------- chunks do not matter

  lemma DrainStep<T>(f: Decoder<T>, s: bytes, x: T, rest: bytes)
    requires Stable(f) && f(s) == Got(x, rest)
    ensures |rest| < |s| && Drain(f, s) == Led([x], Drain(f, rest))
  {
  }

  lemma DrainStops<T>(f: Decoder<T>, s: bytes, p: Parsed<T>)
    requires Stable(f) && p == f(s) && !p.Got?
    ensures Drain(f, s) == Drained([], s, p == Bad)
  {
  }

  lemma {:induction false} DrainInParts<T>(f: Decoder<T>, s: bytes, more: bytes)
    requires Stable(f) && !Drain(f, s).failed
    ensures Drain(f, s + more) == Led(Drain(f, s).items, Drain(f, Drain(f, s).left + more))
    decreases |s|
  {
    assert Grows(f(s), f(s + more), more);
    match f(s)
    case Got(x, rest) =>
      DrainStep(f, s, x, rest);
      DrainStep(f, s + more, x, rest + more);
      DrainInParts(f, rest, more);
      LedTwice([x], Drain(f, rest).items, Drain(f, Drain(f, rest).left + more));
    case NotReady =>
      LedTwice([], [], Drain(f, s + more));
    case Bad =>
  }

  lemma {:induction false} FailedIsKept<T>(f: Decoder<T>, s: bytes, more: bytes)
    requires Stable(f) && Drain(f, s).failed
    ensures Drain(f, s + more).failed
    decreases |s|
  {
    assert Grows(f(s), f(s + more), more);
    match f(s)
    case Got(x, rest) => FailedIsKept(f, rest, more);
    case _ =>
  }

  lemma {:induction false} LeftIsDrained<T>(f: Decoder<T>, s: bytes)
    requires Stable(f) && !Drain(f, s).failed
    ensures Drain(f, Drain(f, s).left) == Drained([], Drain(f, s).left, false)
    decreases |s|
  {
    match f(s)
    case Got(x, rest) => LeftIsDrained(f, rest);
    case _ =>
  }

  /** However a stream is cut, the same items come out of it. */
  lemma {:induction false} ChunksDoNotMatter<T>(f: Decoder<T>, left: bytes, chunks: seq<bytes>)
    requires Stable(f) && Drain(f, left) == Drained([], left, false)
    requires !Drain(f, left + Concat(chunks)).failed
    ensures DrainChunks(f, left, chunks) == Drain(f, left + Concat(chunks))
    decreases |chunks|
  {
    if chunks == [] {
      Nothing(left);
    } else {
      var s, more := left + chunks[0], Concat(chunks[1..]);
      Regroup(left, chunks[0], more);
      if Drain(f, s).failed {
        FailedIsKept(f, s, more);
      } else {
        DrainInParts(f, s, more);
        LeftIsDrained(f, s);
        ChunksDoNotMatter(f, Drain(f, s).left, chunks[1..]);
      }
    }
  }

  lemma {:induction false} DrainOfWritten<T>(f: Decoder<T>, w: T -> bytes, xs: seq<T>)
    requires Stable(f) && f([]) == NotReady
    requires forall i: nat, rest :: i < |xs| ==> f(w(xs[i]) + rest) == Got(xs[i], rest)
    ensures Drain(f, WriteAll(w, xs)) == Drained(xs, [], false)
    decreases |xs|
  {
    if xs != [] {
      var rest := WriteAll(w, xs[1..]);
      DrainStep(f, w(xs[0]) + rest, xs[0], rest);
      forall i: nat, more | i < |xs[1..]|
        ensures f(w(xs[1..][i]) + more) == Got(xs[1..][i], more)
      {
        assert xs[1..][i] == xs[i + 1];
      }
      DrainOfWritten(f, w, xs[1..]);
      assert [xs[0]] + xs[1..] == xs;
    }
  }

  /** Items written one after the other come back as they were, under any chunking. */
  lemma WrittenIsRead<T>(f: Decoder<T>, w: T -> bytes, xs: seq<T>, chunks: seq<bytes>)
    requires Stable(f) && f([]) == NotReady
    requires forall i: nat, rest :: i < |xs| ==> f(w(xs[i]) + rest) == Got(xs[i], rest)
    requires Concat(chunks) == WriteAll(w, xs)
    ensures DrainChunks(f, [], chunks) == Drained(xs, [], false)
  {
    DrainOfWritten(f, w, xs);
    Nothing(Concat(chunks));
    DrainStops(f, [], NotReady);
    ChunksDoNotMatter(f, [], chunks);
  }

  // ------------------------------------------------------- one item at a time

  /** Of all that is drained, `items` came first and the others are those of `s`. */
  datatype Unfinished<T> = Unfinished(all: Drained<T>, items: seq<T>, s: bytes)

  ghost predicate DrainsOn<T>(f: Decoder<T>, d: Unfinished<T>)
    requires Stable(f)
  {
    d.all == Led(d.items, Drain(f, d.s))
  }

  lemma NoneDrained<T>(f: Decoder<T>, s: bytes) returns (d: Unfinished<T>)
    requires Stable(f)
    ensures DrainsOn(f, d) && d == Unfinished(Drain(f, s), [], s)
  {
    LedTwice([], [], Drain(f, s));
    d := Unfinished(Drain(f, s), [], s);
  }

  lemma AllDrained<T>(f: Decoder<T>, d: Unfinished<T>)
    requires Stable(f) && DrainsOn(f, d) && f(d.s) == NotReady
    ensures d.all == Drained(d.items, d.s, false)
  {
    DrainStops(f, d.s, NotReady);
    LedNowhere(d.items, d.s, false);
  }

  lemma DrainAgrees<T>(f: Decoder<T>, d: Unfinished<T>, reply: Reply<T>, left: bytes, p: Parsed<T>)
      returns (e: Unfinished<T>)
    requires Stable(f) && p == f(d.s) && DrainsOn(f, d) && Agrees(reply, left, p)
    ensures reply.Ready? ==>
      |left| < |d.s| && DrainsOn(f, e) && e == Unfinished(d.all, d.items + [reply.value], left)
    ensures !reply.Ready? ==> d.all == Drained(d.items, d.s, reply == Fail)
    ensures reply == Wait ==> p == NotReady
  {
    e := d;
    if reply.Ready? {
      DrainStep(f, d.s, reply.value, left);
      LedTwice(d.items, [reply.value], Drain(f, left));
      e := Unfinished(d.all, d.items + [reply.value], left);
    } else {
      DrainStops(f, d.s, p);
      LedNowhere(d.items, d.s, reply == Fail);
    }
  }
}
