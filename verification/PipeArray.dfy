/** The array of pipes that the distributor, the fair queue and the load balancer partition by
    swapping. Every pipe stores its own position. */
module PipeArrays {
  type PipeId = nat

  predicate Distinct(s: seq<PipeId>) {
    forall i, j :: 0 <= i < j < |s| ==> s[i] != s[j]
  }

  /** The pipes in the first k places. */
  function Front(s: seq<PipeId>, k: nat): set<PipeId>
    requires k <= |s|
  {
    set p | p in s[..k]
  }

  function Swapped(s: seq<PipeId>, i: nat, j: nat): seq<PipeId>
    requires i < |s| && j < |s|
  {
    s[i := s[j]][j := s[i]]
  }

  function Erased(s: seq<PipeId>, i: nat): seq<PipeId>
    requires i < |s|
  {
    s[i := s[|s| - 1]][..|s| - 1]
  }

  class PipeArray {
    var items: seq<PipeId>
    var index: map<PipeId, nat>

    ghost predicate Valid()
      reads this
    {
      forall i :: 0 <= i < |items| ==> items[i] in index && index[items[i]] == i
    }

    constructor ()
      ensures Valid() && items == []
    {
      items, index := [], map[];
    }

    function Index(p: PipeId): (i: nat)
      requires Valid() && p in items
      reads this
      ensures i < |items| && items[i] == p && forall k :: 0 <= k < |items| && items[k] == p ==> k == i
    {
      index[p]
    }

    method PushBack(p: PipeId)
      requires Valid() && p !in items
      modifies this
      ensures Valid() && items == old(items) + [p]
    {
      index := index[p := |items|];
      items := items + [p];
    }

    method Erase(p: PipeId)
      requires Valid() && p in items
      modifies this
      ensures Valid() && items == Erased(old(items), old(Index(p)))
    {
      var i := Index(p);
      var last := items[|items| - 1];
      index := index[last := i];
      items := items[i := last][..|items| - 1];
    }

    method Swap(i: nat, j: nat)
      requires Valid() && i < |items| && j < |items|
      modifies this
      ensures Valid() && items == Swapped(old(items), i, j)
    {
      index := index[items[i] := j][items[j] := i];
      items := items[i := items[j]][j := items[i]];
    }
  }

  // ---- what the operations do to the front ----

  lemma PlacesAreDistinct(a: PipeArray)
    requires a.Valid()
    ensures Distinct(a.items)
  {
  }

  lemma FrontAt(s: seq<PipeId>, k: nat, i: nat)
    requires Distinct(s) && k <= |s| && i < |s|
    ensures s[i] in Front(s, k) <==> i < k
  {
    assert i < k ==> s[..k][i] == s[i];
    if s[i] in s[..k] {
      var j :| 0 <= j < k && s[j] == s[i];
    }
  }

  lemma FrontAll(s: seq<PipeId>, p: PipeId)
    ensures p in Front(s, |s|) <==> p in s
  {
    assert s[..|s|] == s;
  }

  /** One place more, or one place less. */
  lemma FrontStep(s: seq<PipeId>, k: nat)
    requires Distinct(s) && k < |s|
    ensures Front(s, k + 1) == Front(s, k) + {s[k]} && s[k] !in Front(s, k)
  {
    FrontAt(s, k, k);
    assert s[..k + 1] == s[..k] + [s[k]];
  }

  lemma FrontMember(s: seq<PipeId>, k: nat, p: PipeId) returns (i: nat)
    requires k <= |s| && p in Front(s, k)
    ensures i < k && s[i] == p
  {
    var w := s[..k];
    i :| i < |w| && w[i] == p;
  }

  lemma SwapDistinct(s: seq<PipeId>, i: nat, j: nat)
    requires Distinct(s) && i < |s| && j < |s|
    ensures Distinct(Swapped(s, i, j))
  {
  }

  /** A swap on one side of k leaves the front of k alone; a swap across k exchanges two pipes. */
  lemma SwapFront(s: seq<PipeId>, i: nat, j: nat, k: nat)
    requires Distinct(s) && i <= j < |s| && k <= |s|
    ensures j < k || k <= i ==> Front(Swapped(s, i, j), k) == Front(s, k)
    ensures i < k <= j ==> Front(Swapped(s, i, j), k) == Front(s, k) - {s[i]} + {s[j]}
  {
    var t := Swapped(s, i, j);
    SwapDistinct(s, i, j);
    forall p ensures p in Front(t, k) <==> if i < k <= j then p in Front(s, k) - {s[i]} + {s[j]} else p in Front(s, k) {
      if p in Front(t, k) {
        var a := FrontMember(t, k, p);
        var b := if a == i then j else if a == j then i else a;
        assert s[b] == p;
        FrontAt(s, k, b);
      }
      if p in Front(s, k) {
        var a := FrontMember(s, k, p);
        var b := if a == i then j else if a == j then i else a;
        assert t[b] == p;
        FrontAt(t, k, b);
      }
      FrontAt(t, k, i);
    }
  }

  lemma EraseFront(s: seq<PipeId>, i: nat, k: nat)
    requires Distinct(s) && i < |s| && k <= i
    ensures Distinct(Erased(s, i)) && Front(Erased(s, i), k) == Front(s, k)
    ensures forall p :: p in Erased(s, i) <==> p in s && p != s[i]
  {
    var t := Erased(s, i);
    assert t[..k] == s[..k];
    forall p ensures p in t <==> p in s && p != s[i] {
      if p in t {
        var a :| 0 <= a < |t| && t[a] == p;
        assert p == s[if a == i then |s| - 1 else a];
      }
      if p in s && p != s[i] {
        var a :| 0 <= a < |s| && s[a] == p;
        assert t[if a == |s| - 1 then i else a] == p;
      }
    }
  }

  lemma PushDistinct(s: seq<PipeId>, p: PipeId)
    requires Distinct(s) && p !in s
    ensures Distinct(s + [p])
  {
    assert forall i :: 0 <= i < |s| ==> s[i] in s;
  }

  lemma PushFront(s: seq<PipeId>, p: PipeId, k: nat)
    requires k <= |s|
    ensures Front(s + [p], k) == Front(s, k)
  {
    assert (s + [p])[..k] == s[..k];
  }

  lemma FrontCount(s: seq<PipeId>, k: nat)
    requires Distinct(s) && k <= |s|
    ensures |Front(s, k)| == k
  {
    if k == 0 {
      assert Front(s, 0) == {};
    } else {
      FrontCount(s, k - 1);
      FrontStep(s, k - 1);
    }
  }
}
