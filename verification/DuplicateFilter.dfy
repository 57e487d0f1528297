/** The filter for repeated packets: 256 buckets and a queue, in place of a plain window of the last 128. */
module DuplicateFilter {
  import opened Bytes
  import opened Crc32
  import Detection

  const EXPIRY_QUEUE_LENGTH: nat := 128
  const BUCKETS: nat := 256

  // ------------------------------------------------------- the window

  /** The packet's fingerprint: the register after its ids and its data, not complemented. */
  function Fingerprint(sourceId: nat, destId: nat, data: bytes): nat {
    Divided(ONES, Bytes32(sourceId) + Bytes32(destId) + data)
  }

  function Last(s: seq<nat>, n: nat): seq<nat> {
    if |s| <= n then s else s[|s| - n..]
  }

  /** A fingerprint in the window is a duplicate; any other enters it, and may push the oldest out. */
  function Slide(window: seq<nat>, crc: nat): seq<nat> {
    if crc in window then window else Last(window + [crc], EXPIRY_QUEUE_LENGTH)
  }

  predicate Distinct(s: seq<nat>) {
    forall i, j :: 0 <= i < j < |s| ==> s[i] != s[j]
  }

  /** The fingerprints that were let through, of all that came. */
  function Accepted(history: seq<nat>): seq<nat> {
    if history == [] then []
    else
      var before, crc := Accepted(history[..|history| - 1]), history[|history| - 1];
      if crc in Last(before, EXPIRY_QUEUE_LENGTH) then before else before + [crc]
  }

  lemma LastOfLast(s: seq<nat>, crc: nat, n: nat)
    requires n > 0
    ensures Last(Last(s, n) + [crc], n) == Last(s + [crc], n)
  {
  }

  /** The window slides over what was accepted. */
  lemma WindowIsLastAccepted(history: seq<nat>, crc: nat)
    ensures Slide(Last(Accepted(history), EXPIRY_QUEUE_LENGTH), crc) == Last(Accepted(history + [crc]), EXPIRY_QUEUE_LENGTH)
  {
    assert (history + [crc])[..|history|] == history;
    LastOfLast(Accepted(history), crc, EXPIRY_QUEUE_LENGTH);
  }

  /** A window never holds a fingerprint twice. */
  lemma SlideKeepsDistinct(window: seq<nat>, crc: nat)
    requires Distinct(window)
    ensures Distinct(Slide(window, crc))
  {
  }

  /** The window after all of `history` has gone through it. */
  function WindowAfter(history: seq<nat>): seq<nat> {
    if history == [] then [] else Slide(WindowAfter(history[..|history| - 1]), history[|history| - 1])
  }

  /** Over any history the window is the last 128 that were accepted, each once. */
  lemma {:induction false} WindowOverHistory(history: seq<nat>)
    ensures WindowAfter(history) == Last(Accepted(history), EXPIRY_QUEUE_LENGTH)
    ensures Distinct(WindowAfter(history))
    decreases |history|
  {
    if history != [] {
      var before, crc := history[..|history| - 1], history[|history| - 1];
      WindowOverHistory(before);
      assert before + [crc] == history;
      WindowIsLastAccepted(before, crc);
      SlideKeepsDistinct(WindowAfter(before), crc);
    }
  }

  /** A packet that was accepted is caught again until 128 others have been accepted after it. */
  lemma RepeatsAreCaught(accepted: seq<nat>, later: seq<nat>, crc: nat)
    ensures |later| < EXPIRY_QUEUE_LENGTH ==> crc in Last(accepted + [crc] + later, EXPIRY_QUEUE_LENGTH)
    ensures |later| >= EXPIRY_QUEUE_LENGTH && crc !in later ==> crc !in Last(accepted + [crc] + later, EXPIRY_QUEUE_LENGTH)
  {
    var s, n := accepted + [crc] + later, EXPIRY_QUEUE_LENGTH;
    if |later| < n {
      var k := |s| - 1 - |later|;
      assert s[k] == crc;
      if |s| > n { assert Last(s, n)[k - (|s| - n)] == crc; }
    } else {
      forall i | 0 <= i < n
        ensures Last(s, n)[i] in later
      {
        assert Last(s, n)[i] == later[|later| - n + i];
      }
    }
  }

  lemma FingerprintParts(sourceId: nat, destId: nat, a: bytes, x: bytes, b: bytes)
    ensures Bytes32(sourceId) + Bytes32(destId) + (a + x + b) == (Bytes32(sourceId) + Bytes32(destId) + a) + x + b
  {
  }

  /** A packet that differs from another within four neighbouring bytes is not taken for it. */
  lemma DataShows(sourceId: nat, destId: nat, a: bytes, x: bytes, y: bytes, b: bytes)
    requires |x| == |y| <= 4 && x != y
    ensures Fingerprint(sourceId, destId, a + x + b) != Fingerprint(sourceId, destId, a + y + b)
  {
    FingerprintParts(sourceId, destId, a, x, b);
    FingerprintParts(sourceId, destId, a, y, b);
    Detection.BurstShows(ONES, Bytes32(sourceId) + Bytes32(destId) + a, x, y, b);
  }

  lemma IdParts(sourceId: nat, destId: nat, data: bytes)
    ensures Bytes32(sourceId) + Bytes32(destId) + data == [] + Bytes32(sourceId) + (Bytes32(destId) + data)
  {
  }

  lemma IdsDiffer(a: nat, b: nat)
    requires a < U32 && b < U32 && a != b
    ensures Bytes32(a) != Bytes32(b)
  {
    Bytes32Word32(a, []);
    Bytes32Word32(b, []);
    Nothing(Bytes32(a));
    Nothing(Bytes32(b));
  }

  /** Nor is the same packet from or for somebody else. */
  lemma IdsShow(sourceId: nat, destId: nat, other: nat, data: bytes)
    requires sourceId < U32 && destId < U32 && other < U32
    ensures other != sourceId ==> Fingerprint(other, destId, data) != Fingerprint(sourceId, destId, data)
    ensures other != destId ==> Fingerprint(sourceId, other, data) != Fingerprint(sourceId, destId, data)
  {
    if other != sourceId {
      IdsDiffer(other, sourceId);
      IdParts(other, destId, data);
      IdParts(sourceId, destId, data);
      Detection.BurstShows(ONES, [], Bytes32(other), Bytes32(sourceId), Bytes32(destId) + data);
    }
    if other != destId {
      IdsDiffer(other, destId);
      Detection.BurstShows(ONES, Bytes32(sourceId), Bytes32(other), Bytes32(destId), data);
    }
  }

  // ------------------------------------------------------- the filter

  ghost predicate Holds(bucket: set<nat>, queue: seq<nat>, hash: nat) {
    forall c: nat :: c in bucket <==> c in queue && c % BUCKETS == hash
  }

  class DuplicateDetection {
    const crc32: Crc32
    const seen: array<set<nat>>
    var queue: seq<nat>

    ghost predicate Valid()
      reads this, crc32, crc32.table, seen
    {
      && crc32.Valid() && seen.Length == BUCKETS
      && (forall h :: 0 <= h < BUCKETS ==> Holds(seen[h], queue, h))
      && Distinct(queue) && |queue| <= EXPIRY_QUEUE_LENGTH
    }

    constructor ()
      ensures Valid() && queue == [] && fresh(seen) && fresh(crc32) && fresh(crc32.table)
    {
      crc32 := new Crc32();
      seen := new set<nat>[BUCKETS](_ => {});
      queue := [];
    }

    /** Enters a fingerprint into its bucket, and tells whether it was there. */
    method Insert(crc: nat) returns (found: bool)
      requires seen.Length == BUCKETS
      modifies seen
      ensures found <==> crc in old(seen[crc % BUCKETS])
      ensures seen[crc % BUCKETS] == old(seen[crc % BUCKETS]) + {crc}
      ensures forall h :: 0 <= h < BUCKETS && h != crc % BUCKETS ==> seen[h] == old(seen[h])
    {
      var hash := crc % BUCKETS;
      found := crc in seen[hash];
      if !found {
        seen[hash] := seen[hash] + {crc};
      }
    }

    method Erase(crc: nat)
      requires seen.Length == BUCKETS
      modifies seen
      ensures seen[crc % BUCKETS] == old(seen[crc % BUCKETS]) - {crc}
      ensures forall h :: 0 <= h < BUCKETS && h != crc % BUCKETS ==> seen[h] == old(seen[h])
    {
      var hash := crc % BUCKETS;
      seen[hash] := seen[hash] - {crc};
    }

    /** Forgets the oldest fingerprints while there are too many. */
    method Expire()
      requires seen.Length == BUCKETS && Distinct(queue) && forall h :: 0 <= h < BUCKETS ==> Holds(seen[h], queue, h)
      modifies this, seen
      ensures seen.Length == BUCKETS && Distinct(queue) && forall h :: 0 <= h < BUCKETS ==> Holds(seen[h], queue, h)
      ensures queue == Last(old(queue), EXPIRY_QUEUE_LENGTH)
    {
      while |queue| > EXPIRY_QUEUE_LENGTH
        invariant Distinct(queue) && forall h :: 0 <= h < BUCKETS ==> Holds(seen[h], queue, h)
        invariant Last(queue, EXPIRY_QUEUE_LENGTH) == Last(old(queue), EXPIRY_QUEUE_LENGTH)
        decreases |queue|
      {
        Erase(queue[0]);
        FrontGone(queue);
        queue := queue[1..];
      }
    }

    method TakeFingerprint(sourceId: nat, destId: nat, data: bytes) returns (crc: nat)
      requires crc32.Valid()
      ensures crc == Fingerprint(sourceId, destId, data)
    {
      crc := crc32.PartialCRC(0xffffffff, Bytes32(sourceId));
      crc := crc32.PartialCRC(crc, Bytes32(destId));
      crc := crc32.PartialCRC(crc, data);
      DividedInParts(ONES, Bytes32(sourceId), Bytes32(destId));
      DividedInParts(ONES, Bytes32(sourceId) + Bytes32(destId), data);
    }

    /** Whether the packet's fingerprint is among the last 128 accepted ones; if not, it is one of them now. */
    method IsLikelyDuplicate(sourceId: nat, destId: nat, data: bytes) returns (duplicate: bool)
      requires Valid()
      modifies this, seen
      ensures Valid()
      ensures duplicate <==> Fingerprint(sourceId, destId, data) in old(queue)
      ensures queue == Slide(old(queue), Fingerprint(sourceId, destId, data))
    {
      var crc := TakeFingerprint(sourceId, destId, data);
      duplicate := Insert(crc);
      if !duplicate {
        queue := queue + [crc];
        Expire();
      }
    }
  }

  lemma FrontGone(queue: seq<nat>)
    requires Distinct(queue) && queue != []
    ensures Distinct(queue[1..]) && forall c :: c in queue[1..] <==> c in queue && c != queue[0]
  {
    assert queue == [queue[0]] + queue[1..];
  }
}
