/** Numeric keys in ascending order, as a sorted map is walked. */
module Keys {
  lemma {:induction false} LeastOf(keys: set<nat>) returns (m: nat)
    requires keys != {}
    ensures m in keys && forall j :: j in keys ==> m <= j
  {
    m :| m in keys;
    var rest := keys - {m};
    if rest != {} {
      var k := m;
      var n := LeastOf(rest);
      m := if n < k then n else k;
      assert forall j :: j in keys ==> j == k || j in rest;
    } else {
      assert forall j :: j in keys ==> j == m || j in rest;
    }
  }

  lemma HasLeast(keys: set<nat>)
    requires keys != {}
    ensures exists k :: k in keys && forall j :: j in keys ==> k <= j
  {
    var m := LeastOf(keys);
  }

  function Least(keys: set<nat>): (k: nat)
    requires keys != {}
    ensures k in keys && forall j :: j in keys ==> k <= j
  {
    HasLeast(keys);
    var k :| k in keys && forall j :: j in keys ==> k <= j;
    k
  }

  /** The keys in ascending order, as a sorted map is walked. */
  function Sorted(keys: set<nat>): (ids: seq<nat>)
    ensures forall id :: id in ids <==> id in keys
  {
    if keys == {} then [] else [Least(keys)] + Sorted(keys - {Least(keys)})
  }

  predicate Ascending(ids: seq<nat>) {
    forall i, j :: 0 <= i < j < |ids| ==> ids[i] < ids[j]
  }

  lemma {:induction false} SortedAscends(keys: set<nat>)
    ensures Ascending(Sorted(keys))
  {
    if keys != {} {
      var ids := Sorted(keys - {Least(keys)});
      SortedAscends(keys - {Least(keys)});
      assert forall i :: 0 <= i < |ids| ==> ids[i] in keys - {Least(keys)};
    }
  }

  lemma InTail(ids: seq<nat>, j: nat)
    requires Ascending(ids) && ids != []
    ensures j in ids[1..] <==> j in ids && ids[0] < j
  {
    if j in ids[1..] {
      var i :| 0 <= i < |ids[1..]| && ids[1..][i] == j;
      assert ids[i + 1] == j;
    }
    if j in ids && ids[0] < j {
      var i :| 0 <= i < |ids| && ids[i] == j;
      assert ids[1..][i - 1] == j;
    }
  }

  lemma {:induction false} HasBound(keys: set<nat>) returns (end: nat)
    ensures forall j :: j in keys ==> j < end
  {
    if keys == {} {
      end := 0;
    } else {
      var k :| k in keys;
      var e := HasBound(keys - {k});
      end := if e <= k then k + 1 else e;
      assert forall j :: j in keys ==> j == k || j in keys - {k};
    }
  }
}
