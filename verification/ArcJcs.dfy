/** The second Adaptive Replacement Cache: four linked lists, and a map from keys to descriptors that tell on
    which list the element is and hold the element itself (a null element on the lists of ghosts).
    Lists are written from their last, oldest element to their first. */
module ArcJcs {
  import opened YPipes
  import opened Arc

  type Value = nat

  /** `at` and `ce` are the list number and the element of the descriptors; no entry in `ce` is a null one. */
  datatype Lists = Lists(max: nat, t1: seq<Key>, t2: seq<Key>, b1: seq<Key>, b2: seq<Key>, target: nat,
    at: map<Key, Place>, ce: map<Key, Value>)

  function Initial(max: nat): Lists {
    Lists(max, [], [], [], [], max / 2, map[], map[])
  }

  function Total(s: Lists): nat {
    |s.t1| + |s.t2| + |s.b1| + |s.b2|
  }

  // ---- the operations ----

  /** Push the oldest of T1 or T2 to the ghosts, or decline to. */
  function Replace(s: Lists, orig: Option<Key>): Lists {
    if |s.t1| >= Max(1, s.target) then
      var k := s.t1[0];
      if orig == Some(k) then s else s.(t1 := s.t1[1..], b1 := s.b1 + [k], at := s.at[k := B1], ce := s.ce - {k})
    else if |s.t2| + |s.t1| > s.max && s.t2 != [] then
      var k := s.t2[0];
      if orig == Some(k) then s else s.(t2 := s.t2[1..], b2 := s.b2 + [k], at := s.at[k := B2], ce := s.ce - {k})
    else s
  }

  /** Take the oldest key off a list and forget it. */
  function DropT1(s: Lists): Lists
    requires s.t1 != []
  {
    s.(t1 := s.t1[1..], at := s.at - {s.t1[0]}, ce := s.ce - {s.t1[0]})
  }

  function DropB1(s: Lists): Lists
    requires s.b1 != []
  {
    s.(b1 := s.b1[1..], at := s.at - {s.b1[0]})
  }

  function DropB2(s: Lists): Lists
    requires s.b2 != []
  {
    s.(b2 := s.b2[1..], at := s.at - {s.b2[0]})
  }

  /** Size checks before a new key comes in. */
  function MakeRoom(s: Lists): Lists
    requires s.max >= 1
  {
    if |s.t1| + |s.b1| >= s.max then
      if |s.t1| < s.max then Replace(DropB1(s), Some(s.b1[0])) else Replace(DropT1(s), Some(s.t1[0]))
    else if Total(s) >= s.max then
      if Total(s) >= 2 * s.max && s.b2 != [] then Replace(DropB2(s), Some(s.b2[0])) else Replace(s, None)
    else s
  }

  function PutNew(s: Lists, k: Key, v: Value): Lists
    requires s.max >= 1
  {
    var s1 := MakeRoom(s);
    s1.(t1 := s1.t1 + [k], at := s1.at[k := T1], ce := s1.ce[k := v])
  }

  function FoundInT1(s: Lists, k: Key): Lists {
    s.(t1 := Without(s.t1, k), t2 := s.t2 + [k], at := s.at[k := T2])
  }

  function FoundInT2(s: Lists, k: Key): Lists {
    s.(t2 := Without(s.t2, k) + [k], at := s.at[k := T2])
  }

  function Recency(s: Lists): nat
    requires s.b1 != []
  {
    Min(s.target + Max(|s.b2| / |s.b1|, 1), s.max)
  }

  function Frequency(s: Lists): nat
    requires s.b2 != []
  {
    Max(s.target - Max(|s.b1| / |s.b2|, 1), 0)
  }

  /** The element on B1 comes back. Its descriptor is on no list while room is made. */
  function PutB1(s: Lists, k: Key, v: Value): Lists
    requires s.b1 != []
  {
    var s1 := Replace(s.(target := Recency(s), b1 := Without(s.b1, k)), Some(k));
    s1.(t2 := s1.t2 + [k], at := s1.at[k := T2], ce := s1.ce[k := v])
  }

  function PutB2(s: Lists, k: Key, v: Value): Lists
    requires s.b2 != []
  {
    var s1 := Replace(s.(target := Frequency(s), b2 := Without(s.b2, k)), Some(k));
    Replace(s1.(t2 := s1.t2 + [k], at := s1.at[k := T2], ce := s1.ce[k := v]), Some(k))
  }

  predicate Somewhere(s: Lists) {
    && (forall k :: k in s.at && s.at[k] == B1 ==> s.b1 != [])
    && (forall k :: k in s.at && s.at[k] == B2 ==> s.b2 != [])
  }

  function Put(s: Lists, k: Key, v: Value): Lists
    requires s.max >= 1 && Somewhere(s)
  {
    if k !in s.at then PutNew(s, k, v)
    else match s.at[k]
      case T1 => FoundInT1(s, k)
      case T2 => FoundInT2(s, k)
      case B1 => PutB1(s, k, v)
      case B2 => PutB2(s, k, v)
  }

  /** A hit on a ghost only trains the target. */
  function Get(s: Lists, k: Key): (Lists, Option<Value>)
    requires Somewhere(s)
  {
    if k !in s.at then (s, None)
    else match s.at[k]
      case T1 => (FoundInT1(s, k), if k in s.ce then Some(s.ce[k]) else None)
      case T2 => (FoundInT2(s, k), if k in s.ce then Some(s.ce[k]) else None)
      case B1 => (s.(target := Recency(s)), None)
      case B2 => (s.(target := Frequency(s)), None)
  }

  function Remove(s: Lists, k: Key): Lists {
    if k !in s.at then s
    else
      var s1 := s.(at := s.at - {k}, ce := s.ce - {k});
      match s.at[k]
      case T1 => s1.(t1 := Without(s.t1, k))
      case T2 => s1.(t2 := Without(s.t2, k))
      case B1 => s1.(b1 := Without(s.b1, k))
      case B2 => s1.(b2 := Without(s.b2, k))
  }

  // ---- the invariants ----

  predicate Bounds(s: Lists) {
    && s.max >= 1 && s.target <= s.max
    && |s.t1| + |s.b1| <= s.max && |s.t1| + |s.t2| <= s.max + 1 && Total(s) <= 2 * s.max + 1
  }

  /** The four lists hold exactly the keys of the map, each on the list its descriptor names. */
  ghost predicate Indexed(s: Lists) {
    Holds(s.t1, s.at, T1) && Holds(s.t2, s.at, T2) && Holds(s.b1, s.at, B1) && Holds(s.b2, s.at, B2)
  }

  /** Elements are null exactly on the lists of ghosts. */
  ghost predicate Elements(at: map<Key, Place>, ce: map<Key, Value>) {
    forall k: Key :: k in ce <==> k in at && (at[k] == T1 || at[k] == T2)
  }

  ghost predicate Valid(s: Lists) {
    Bounds(s) && Indexed(s) && Elements(s.at, s.ce)
  }

  lemma IsSomewhere(s: Lists)
    requires Indexed(s)
    ensures Somewhere(s)
  {
    forall k | k in s.at
      ensures (s.at[k] == B1 ==> s.b1 != []) && (s.at[k] == B2 ==> s.b2 != [])
    {
      Elsewhere(s.b1, s.at, B1, k);
      Elsewhere(s.b2, s.at, B2, k);
    }
  }

  // ---- the index ----

  /** A key moves from the old end of one list to the new end of another. */
  lemma ReplaceIndexed(s: Lists, orig: Option<Key>)
    requires Indexed(s) && Elements(s.at, s.ce)
    ensures var s' := Replace(s, orig);
      Indexed(s') && Elements(s'.at, s'.ce) && s'.at.Keys == s.at.Keys && s'.max == s.max && s'.target == s.target
  {
    var s' := Replace(s, orig);
    if s'.t1 != s.t1 {
      HeadIs(s.t1, s.at, T1);
      Demoted(s.t1, s.b1, s.t2, s.b2, s.at, T1, B1, T2, B2);
      ElementsMinus(s.at, s.ce, s.t1[0], B1);
    } else if s'.t2 != s.t2 {
      HeadIs(s.t2, s.at, T2);
      Demoted(s.t2, s.b2, s.t1, s.b1, s.at, T2, B2, T1, B1);
      ElementsMinus(s.at, s.ce, s.t2[0], B2);
    }
    hide Holds, Elements;
  }

  lemma ElementsMinus(at: map<Key, Place>, ce: map<Key, Value>, k: Key, to: Place)
    requires Elements(at, ce) && (to == B1 || to == B2)
    ensures Elements(at[k := to], ce - {k})
  {
  }

  lemma Demoted(t: seq<Key>, b: seq<Key>, o1: seq<Key>, o2: seq<Key>, at: map<Key, Place>, pt: Place, pb: Place, p1: Place, p2: Place)
    requires t != [] && pt != pb && p1 != pt && p1 != pb && p2 != pt && p2 != pb
    requires Holds(t, at, pt) && Holds(b, at, pb) && Holds(o1, at, p1) && Holds(o2, at, p2)
    ensures var at' := at[t[0] := pb];
      Holds(t[1..], at', pt) && Holds(b + [t[0]], at', pb) && Holds(o1, at', p1) && Holds(o2, at', p2)
  {
    var k := t[0];
    HeadIs(t, at, pt);
    hide Holds, Without;
    Elsewhere(b, at, pb, k);
    Elsewhere(o1, at, p1, k);
    Elsewhere(o2, at, p2, k);
    Leaves(t, t[1..], at, pt, k, pb);
    Enters(b, at, pb, k);
    Leaves(o1, o1, at, p1, k, pb);
    Leaves(o2, o2, at, p2, k, pb);
  }

  /** A list without a key, whether it had it or not. */
  function Minus(q: seq<Key>, k: Key): seq<Key> {
    if k in q then Without(q, k) else q
  }

  /** A key goes from anywhere, or nowhere, to the new end of one list. */
  lemma ComesTo(q: seq<Key>, at: map<Key, Place>, place: Place, k: Key, to: Place)
    requires Holds(q, at, place)
    ensures place == to ==> Holds(Minus(q, k) + [k], at[k := to], to)
    ensures place != to ==> Holds(Minus(q, k), at[k := to], place)
  {
    if place == to {
      if k in q {
        MovesTo(q, at, to, k);
      } else {
        Enters(q, at, to, k);
      }
    } else {
      Leaves(q, Minus(q, k), at, place, k, to);
    }
  }

  lemma RemoveIndexed(s: Lists, k: Key)
    requires Indexed(s) && Elements(s.at, s.ce)
    ensures var s' := Remove(s, k); Indexed(s') && Elements(s'.at, s'.ce)
  {
    hide Holds, Without;
    if k in s.at {
      var s' := Remove(s, k);
      Elsewhere(s.t1, s.at, T1, k);
      Elsewhere(s.t2, s.at, T2, k);
      Elsewhere(s.b1, s.at, B1, k);
      Elsewhere(s.b2, s.at, B2, k);
      Leaves(s.t1, s'.t1, s.at, T1, k, T2);
      Leaves(s.t2, s'.t2, s.at, T2, k, T1);
      Leaves(s.b1, s'.b1, s.at, B1, k, T1);
      Leaves(s.b2, s'.b2, s.at, B2, k, T1);
    }
  }

  lemma DropIsRemove(s: Lists)
    requires Indexed(s) && Elements(s.at, s.ce)
    ensures s.b1 != [] ==> DropB1(s) == Remove(s, s.b1[0])
    ensures s.b2 != [] ==> DropB2(s) == Remove(s, s.b2[0])
    ensures s.t1 != [] ==> DropT1(s) == Remove(s, s.t1[0])
  {
    if s.b1 != [] {
      HeadIs(s.b1, s.at, B1);
      assert s.ce - {s.b1[0]} == s.ce;
    }
    if s.b2 != [] {
      HeadIs(s.b2, s.at, B2);
      assert s.ce - {s.b2[0]} == s.ce;
    }
    if s.t1 != [] {
      HeadIs(s.t1, s.at, T1);
    }
    hide Holds, Without;
  }

  lemma MakeRoomIndexed(s: Lists)
    requires Indexed(s) && Elements(s.at, s.ce) && s.max >= 1
    ensures var s' := MakeRoom(s); Indexed(s') && Elements(s'.at, s'.ce) && s'.at.Keys <= s.at.Keys && s'.max == s.max
  {
    DropIsRemove(s);
    hide Indexed, Elements, Replace;
    if |s.t1| + |s.b1| >= s.max {
      var k := if |s.t1| < s.max then s.b1[0] else s.t1[0];
      RemoveIndexed(s, k);
      ReplaceIndexed(Remove(s, k), Some(k));
    } else if Total(s) >= s.max {
      ReplaceIndexed(s, None);
      if Total(s) >= 2 * s.max && s.b2 != [] {
        RemoveIndexed(s, s.b2[0]);
        ReplaceIndexed(DropB2(s), Some(s.b2[0]));
      }
    }
  }

  /** A key that is nowhere, or has left its list, comes to the new end of T1 or T2 with an element. */
  lemma Lands(s: Lists, s1: Lists, k: Key, v: Value, to: Place)
    requires Indexed(s) && Elements(s.at, s.ce) && (to == T1 || to == T2)
    requires to == T1 ==> s1.t1 == Minus(s.t1, k) + [k] && s1.t2 == Minus(s.t2, k)
    requires to == T2 ==> s1.t1 == Minus(s.t1, k) && s1.t2 == Minus(s.t2, k) + [k]
    requires s1.b1 == Minus(s.b1, k) && s1.b2 == Minus(s.b2, k)
    requires s1.at == s.at[k := to] && s1.ce == s.ce[k := v]
    ensures Indexed(s1) && Elements(s1.at, s1.ce)
  {
    ComesTo(s.t1, s.at, T1, k, to);
    ComesTo(s.t2, s.at, T2, k, to);
    ComesTo(s.b1, s.at, B1, k, to);
    ComesTo(s.b2, s.at, B2, k, to);
    hide Holds, Minus;
  }

  /** Putting back a ghost is forgetting it, making room, and adding it to T2. */
  function Readd(s: Lists, k: Key, v: Value): Lists {
    s.(t2 := s.t2 + [k], at := s.at[k := T2], ce := s.ce[k := v])
  }

  lemma PutB1Is(s: Lists, k: Key, v: Value)
    requires Indexed(s) && Elements(s.at, s.ce) && k in s.at && s.at[k] == B1 && s.b1 != []
    ensures var s0 := Remove(s, k).(target := Recency(s)); PutB1(s, k, v) == Readd(Replace(s0, Some(k)), k, v)
  {
    var s0, s1 := Remove(s, k).(target := Recency(s)), s.(target := Recency(s), b1 := Without(s.b1, k));
    assert s0.ce == s1.ce;
    hide Recency, Without, Indexed;
    assert Replace(s0, Some(k)).at[k := T2] == Replace(s1, Some(k)).at[k := T2];
  }

  lemma PutB2Is(s: Lists, k: Key, v: Value)
    requires Indexed(s) && Elements(s.at, s.ce) && k in s.at && s.at[k] == B2 && s.b2 != []
    ensures var s0 := Remove(s, k).(target := Frequency(s)); PutB2(s, k, v) == Replace(Readd(Replace(s0, Some(k)), k, v), Some(k))
  {
    var s0, s1 := Remove(s, k).(target := Frequency(s)), s.(target := Frequency(s), b2 := Without(s.b2, k));
    assert s0.ce == s1.ce;
    hide Frequency, Without, Indexed;
    assert Replace(s0, Some(k)).at[k := T2] == Replace(s1, Some(k)).at[k := T2];
  }

  lemma ReaddIndexed(s: Lists, k: Key, v: Value)
    requires Indexed(s) && Elements(s.at, s.ce) && k !in s.at
    ensures Indexed(Readd(s, k, v)) && Elements(Readd(s, k, v).at, Readd(s, k, v).ce)
  {
    Elsewhere(s.t1, s.at, T1, k);
    Elsewhere(s.t2, s.at, T2, k);
    Elsewhere(s.b1, s.at, B1, k);
    Elsewhere(s.b2, s.at, B2, k);
    hide Holds, Without;
    Lands(s, Readd(s, k, v), k, v, T2);
  }

  /** Forget a ghost, move the target, make room. */
  lemma ForgetIndexed(s: Lists, k: Key, target: nat)
    requires Indexed(s) && Elements(s.at, s.ce)
    ensures var s1 := Replace(Remove(s, k).(target := target), Some(k));
      Indexed(s1) && Elements(s1.at, s1.ce) && k !in s1.at && s1.max == s.max && s1.target == target
  {
    RemoveIndexed(s, k);
    var s0 := Remove(s, k).(target := target);
    assert Indexed(s0) && k !in s0.at && s0.max == s.max;
    hide Indexed, Remove;
    ReplaceIndexed(s0, Some(k));
  }

  lemma FoundIndexed(s: Lists, k: Key)
    requires Indexed(s) && Elements(s.at, s.ce) && k in s.at && (s.at[k] == T1 || s.at[k] == T2)
    ensures var s' := if s.at[k] == T1 then FoundInT1(s, k) else FoundInT2(s, k); Indexed(s') && Elements(s'.at, s'.ce)
  {
    Elsewhere(s.t1, s.at, T1, k);
    Elsewhere(s.t2, s.at, T2, k);
    Elsewhere(s.b1, s.at, B1, k);
    Elsewhere(s.b2, s.at, B2, k);
    hide Holds, Without;
    var s' := if s.at[k] == T1 then FoundInT1(s, k) else FoundInT2(s, k);
    assert s.ce[k := s.ce[k]] == s.ce;
    Lands(s, s', k, s.ce[k], T2);
  }

  lemma PutIndexed(s: Lists, k: Key, v: Value)
    requires Indexed(s) && Elements(s.at, s.ce) && s.max >= 1 && Somewhere(s)
    ensures var s' := Put(s, k, v); Indexed(s') && Elements(s'.at, s'.ce)
  {
    if k !in s.at {
      MakeRoomIndexed(s);
      var s1 := MakeRoom(s);
      Elsewhere(s1.t1, s1.at, T1, k);
      Elsewhere(s1.t2, s1.at, T2, k);
      Elsewhere(s1.b1, s1.at, B1, k);
      Elsewhere(s1.b2, s1.at, B2, k);
      hide Holds, MakeRoom;
      Lands(s1, PutNew(s, k, v), k, v, T1);
    } else if s.at[k] == B1 {
      PutB1Is(s, k, v);
      hide Indexed, Elements, PutB1, Recency, Replace, Readd;
      ForgetIndexed(s, k, Recency(s));
      ReaddIndexed(Replace(Remove(s, k).(target := Recency(s)), Some(k)), k, v);
    } else if s.at[k] == B2 {
      PutB2Is(s, k, v);
      hide Indexed, Elements, PutB2, Frequency, Replace, Readd;
      ForgetIndexed(s, k, Frequency(s));
      var s1 := Replace(Remove(s, k).(target := Frequency(s)), Some(k));
      ReaddIndexed(s1, k, v);
      ReplaceIndexed(Readd(s1, k, v), Some(k));
    } else {
      FoundIndexed(s, k);
    }
  }

  lemma GetIndexed(s: Lists, k: Key)
    requires Indexed(s) && Elements(s.at, s.ce) && Somewhere(s)
    ensures var s' := Get(s, k).0; Indexed(s') && Elements(s'.at, s'.ce)
  {
    if k in s.at && (s.at[k] == T1 || s.at[k] == T2) {
      FoundIndexed(s, k);
    }
  }

  // ---- the bounds ----

  /** The replacement is on behalf of a key that it would not move anyway. */
  predicate NotOldest(s: Lists, orig: Option<Key>) {
    (s.t1 != [] ==> orig != Some(s.t1[0])) && (s.t2 != [] ==> orig != Some(s.t2[0]))
  }

  /** How many a replacement moves. */
  lemma ReplaceSizes(s: Lists, orig: Option<Key>)
    ensures var s' := Replace(s, orig); var moved := |s.t1| + |s.t2| - |s'.t1| - |s'.t2|;
      && s'.max == s.max && s'.target == s.target && (moved == 0 || moved == 1)
      && |s'.t1| + |s'.b1| == |s.t1| + |s.b1| && |s'.t2| + |s'.b2| == |s.t2| + |s.b2|
      && (NotOldest(s, orig) ==> (moved == 0 <==> |s.t1| < Max(1, s.target) && (|s.t1| + |s.t2| <= s.max || s.t2 == [])))
  {
  }

  /** Putting k makes the residents outnumber the capacity. */
  predicate Overflows(s: Lists, k: Key)
    requires Somewhere(s)
  {
    && |s.t1| + |s.t2| == s.max
    && (k !in s.at || s.at[k] == B1)
    && |s.t1| < Max(1, if k in s.at then Recency(s) else s.target)
  }

  /** Putting k makes the directory outgrow twice the capacity. */
  predicate Outgrows(s: Lists, k: Key) {
    k !in s.at && Total(s) == 2 * s.max && s.b2 == [] && |s.t1| + |s.b1| < s.max
  }

  /** What the bounds are after an operation, compared with those before. */
  ghost predicate Grows(s: Lists, s': Lists, overflows: bool, outgrows: bool) {
    && Bounds(s') && s'.max == s.max
    && (|s.t1| + |s.t2| <= s.max ==> (|s'.t1| + |s'.t2| > s.max <==> overflows))
    && (Total(s) <= 2 * s.max ==> (Total(s') > 2 * s.max <==> outgrows))
  }

  lemma HeadsDiffer(s: Lists, k: Key)
    requires Indexed(s) && (k in s.at ==> s.at[k] == B1 || s.at[k] == B2)
    ensures NotOldest(s, Some(k))
  {
    if s.t1 != [] {
      HeadIs(s.t1, s.at, T1);
    }
    if s.t2 != [] {
      HeadIs(s.t2, s.at, T2);
    }
  }

  /** The key comes to T1 after a replacement. */
  lemma GrowsAfter(s: Lists, s0: Lists, orig: Option<Key>, k: Key, v: Value)
    requires Bounds(s) && Somewhere(s) && k !in s.at && Total(s) >= s.max && PutNew(s, k, v) == Into(Replace(s0, orig), k, v)
    requires s0.max == s.max && s0.target == s.target
    requires (s0 == s && |s.t1| + |s.b1| < s.max && (Total(s) < 2 * s.max || s.b2 == []) && orig == None)
      || (s.b1 != [] && s0 == DropB1(s) && |s.t1| + |s.b1| >= s.max > |s.t1| && NotOldest(s0, orig))
      || (s.t1 != [] && s0 == DropT1(s) && |s.t1| >= s.max)
      || (s.b2 != [] && s0 == DropB2(s) && |s.t1| + |s.b1| < s.max && NotOldest(s0, orig))
    ensures Grows(s, PutNew(s, k, v), Overflows(s, k), Outgrows(s, k))
  {
    ReplaceSizes(s0, orig);
    hide Replace, PutNew, Recency;
  }

  function Into(s: Lists, k: Key, v: Value): Lists {
    s.(t1 := s.t1 + [k], at := s.at[k := T1], ce := s.ce[k := v])
  }

  lemma PutNewGrows(s: Lists, k: Key, v: Value)
    requires Valid(s) && Somewhere(s) && k !in s.at
    ensures Grows(s, PutNew(s, k, v), Overflows(s, k), Outgrows(s, k))
  {
    if s.b1 != [] {
      HeadIs(s.b1, s.at, B1);
      HeadsDiffer(s, s.b1[0]);
    }
    if s.b2 != [] {
      HeadIs(s.b2, s.at, B2);
      HeadsDiffer(s, s.b2[0]);
    }
    hide Indexed, Elements, Recency, Replace, Grows;
    if |s.t1| + |s.b1| >= s.max && |s.t1| < s.max {
      GrowsAfter(s, DropB1(s), Some(s.b1[0]), k, v);
    } else if |s.t1| + |s.b1| >= s.max {
      GrowsAfter(s, DropT1(s), Some(s.t1[0]), k, v);
    } else if Total(s) >= 2 * s.max && s.b2 != [] {
      GrowsAfter(s, DropB2(s), Some(s.b2[0]), k, v);
    } else if Total(s) >= s.max {
      GrowsAfter(s, s, None, k, v);
    } else {
      RoomGrows(s, k, v);
    }
  }

  lemma RoomGrows(s: Lists, k: Key, v: Value)
    requires Bounds(s) && Somewhere(s) && k !in s.at && Total(s) < s.max
    ensures Grows(s, PutNew(s, k, v), Overflows(s, k), Outgrows(s, k))
  {
  }

  /** The sizes of the lists without one key. */
  lemma RemoveSizes(s: Lists, k: Key)
    requires Indexed(s) && k in s.at
    ensures var s' := Remove(s, k); var from := s.at[k];
      && s'.max == s.max && s'.target == s.target
      && |s'.t1| == |s.t1| - (if from == T1 then 1 else 0) && |s'.t2| == |s.t2| - (if from == T2 then 1 else 0)
      && |s'.b1| == |s.b1| - (if from == B1 then 1 else 0) && |s'.b2| == |s.b2| - (if from == B2 then 1 else 0)
  {
    Elsewhere(s.t1, s.at, T1, k);
    Elsewhere(s.t2, s.at, T2, k);
    Elsewhere(s.b1, s.at, B1, k);
    Elsewhere(s.b2, s.at, B2, k);
    WithoutIs(s.t1, k);
    WithoutIs(s.t2, k);
    WithoutIs(s.b1, k);
    WithoutIs(s.b2, k);
    hide Holds, Without, NoDup;
  }

  lemma TargetsFit(s: Lists)
    requires Bounds(s)
    ensures (s.b1 != [] ==> Recency(s) <= s.max) && (s.b2 != [] ==> Frequency(s) <= s.max)
  {
  }

  lemma PutB1Grows(s: Lists, k: Key, v: Value)
    requires Valid(s) && Somewhere(s) && k in s.at && s.at[k] == B1
    ensures Grows(s, PutB1(s, k, v), Overflows(s, k), Outgrows(s, k))
  {
    PutB1Is(s, k, v);
    TargetsFit(s);
    RemoveSizes(s, k);
    HeadsDiffer(s, k);
    var s0 := Remove(s, k).(target := Recency(s));
    assert NotOldest(s0, Some(k));
    ReplaceSizes(s0, Some(k));
    hide Replace, Indexed, Elements, Recency, PutB1, Remove;
  }

  /** The second replacement after a hit on B2 always finds something to move once there are too many. */
  lemma SecondReplace(s: Lists, k: Key, v: Value)
    requires Indexed(s) && k !in s.at && s.max >= 1 && s.target <= s.max && |s.t1| + |s.t2| <= s.max
    ensures var s' := Replace(Readd(s, k, v), Some(k));
      && s'.max == s.max && s'.target == s.target && |s'.t1| + |s'.t2| <= s.max
      && |s'.t1| + |s'.b1| == |s.t1| + |s.b1| && |s'.t2| + |s'.b2| == |s.t2| + |s.b2| + 1
  {
    HeadsDiffer(s, k);
  }

  lemma PutB2Grows(s: Lists, k: Key, v: Value)
    requires Valid(s) && Somewhere(s) && k in s.at && s.at[k] == B2
    ensures Grows(s, PutB2(s, k, v), Overflows(s, k), Outgrows(s, k))
  {
    PutB2Is(s, k, v);
    TargetsFit(s);
    RemoveSizes(s, k);
    HeadsDiffer(s, k);
    ForgetIndexed(s, k, Frequency(s));
    var s0 := Remove(s, k).(target := Frequency(s));
    assert NotOldest(s0, Some(k));
    hide Indexed, Elements, Frequency, PutB2, Remove;
    ReplaceSizes(s0, Some(k));
    var s1 := Replace(s0, Some(k));
    hide Replace;
    SecondReplace(s1, k, v);
  }

  lemma FoundGrows(s: Lists, k: Key)
    requires Valid(s) && k in s.at && (s.at[k] == T1 || s.at[k] == T2)
    ensures Grows(s, if s.at[k] == T1 then FoundInT1(s, k) else FoundInT2(s, k), false, false)
  {
    Elsewhere(s.t1, s.at, T1, k);
    Elsewhere(s.t2, s.at, T2, k);
    WithoutIs(s.t1, k);
    WithoutIs(s.t2, k);
    hide Holds, Without, NoDup, Elements;
  }

  /** A put keeps the bounds. It makes the residents outnumber the capacity, or the directory outgrow twice the
      capacity, exactly in the stated cases. */
  lemma PutKeeps(s: Lists, k: Key, v: Value)
    requires Valid(s)
    ensures Somewhere(s) && Valid(Put(s, k, v)) && Grows(s, Put(s, k, v), Overflows(s, k), Outgrows(s, k))
  {
    IsSomewhere(s);
    PutIndexed(s, k, v);
    if k !in s.at {
      PutNewGrows(s, k, v);
    } else if s.at[k] == B1 {
      PutB1Grows(s, k, v);
    } else if s.at[k] == B2 {
      PutB2Grows(s, k, v);
    } else {
      FoundGrows(s, k);
    }
    hide Indexed, Elements, PutNew, PutB1, PutB2, FoundInT1, FoundInT2, Recency;
  }

  lemma GetKeeps(s: Lists, k: Key)
    requires Valid(s)
    ensures Somewhere(s) && Valid(Get(s, k).0) && Grows(s, Get(s, k).0, false, false)
  {
    IsSomewhere(s);
    GetIndexed(s, k);
    TargetsFit(s);
    if k in s.at && (s.at[k] == T1 || s.at[k] == T2) {
      FoundGrows(s, k);
    }
    hide Indexed, Elements, FoundInT1, FoundInT2, Recency, Frequency;
  }

  lemma RemoveKeeps(s: Lists, k: Key)
    requires Valid(s)
    ensures Valid(Remove(s, k)) && Grows(s, Remove(s, k), false, false)
  {
    if k in s.at {
      RemoveIndexed(s, k);
      RemoveSizes(s, k);
      hide Indexed, Elements, Remove;
    }
  }
}
