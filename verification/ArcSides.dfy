/** Which queue of the Adaptive Replacement Cache gives way, and what exactly a visit and a removal do to the queues. */
module ArcSides {
  import opened YPipes
  import opened Arc

  /** The step by which a hit on a ghost moves the target: the ratio of the other ghost queue to the one that was hit, at
      least 1. */
  function Stride(hit: seq<Key>, other: seq<Key>): nat
    requires hit != []
  {
    if |other| >= |hit| then |other| / |hit| else 1
  }

  lemma SmallRatio(a: nat, b: nat)
    requires b > 0
    ensures a < b ==> a / b == 0
    ensures a >= b ==> a / b >= 1
  {
  }

  /** The target after a visit. */
  predicate Retargeted(s: Cache, s': Cache, x: Key) {
    if x in s.at && s.at[x] == B1 then
      s.b1 != [] && s'.target == if s.target + Stride(s.b1, s.b2) < s.c then s.target + Stride(s.b1, s.b2) else s.c
    else if x in s.at && s.at[x] == B2 then
      s.b2 != [] && s'.target == if s.target > Stride(s.b2, s.b1) then s.target - Stride(s.b2, s.b1) else 0
    else s'.target == s.target
  }

  lemma ToT2Target(s: Cache, x: Key, from: Place)
    ensures ToT2(s, x, from).target == s.target && ToT2(s, x, from).c == s.c
  {
  }

  lemma MakeRoomTarget(s: Cache)
    requires Sizes(s)
    ensures MakeRoom(s).0.target == s.target
  {
  }

  lemma AdaptedTarget(s: Cache, from: Place)
    requires Sizes(s) && ((from == B1 && s.b1 != []) || (from == B2 && s.b2 != []))
    ensures from == B1 ==> Adapted(s, from).target == if s.target + Stride(s.b1, s.b2) < s.c then s.target + Stride(s.b1, s.b2) else s.c
    ensures from == B2 ==> Adapted(s, from).target == if s.target > Stride(s.b2, s.b1) then s.target - Stride(s.b2, s.b1) else 0
  {
    if from == B1 {
      SmallRatio(|s.b2|, |s.b1|);
    } else {
      SmallRatio(|s.b1|, |s.b2|);
    }
  }

  /** A visit moves the target for ghosts only: up for b1, down for b2, by the stride or to the bound. */
  lemma VisitTarget(s: Cache, x: Key)
    requires Sizes(s) && Indexed(s)
    ensures Retargeted(s, Visit(s, x).0, x)
  {
    if x !in s.at {
      MakeRoomTarget(s);
      hide MakeRoom;
    } else {
      var from := s.at[x];
      NonEmpty(s, x);
      if from == B1 || from == B2 {
        AdaptedTarget(s, from);
        FreeRoomSizes(Adapted(s, from), Some(from));
        ToT2Target(FreeRoom(Adapted(s, from), Some(from)).0, x, from);
      } else {
        ToT2Target(s, x, from);
      }
      hide ToT2, Adapted, FreeRoom;
    }
  }

  // ---- the queue that gives way ----

  /** The target in force when room is made for x. */
  function Target(s: Cache, x: Key): nat
    requires (x in s.at && s.at[x] == B1 ==> s.b1 != []) && (x in s.at && s.at[x] == B2 ==> s.b2 != [])
  {
    if x in s.at then Adapted(s, s.at[x]).target else s.target
  }

  /** t1 gives way when it exceeds the target, or equals it on a hit on b2; otherwise t2 does. */
  predicate FromT1(s: Cache, x: Key)
    requires (x in s.at && s.at[x] == B1 ==> s.b1 != []) && (x in s.at && s.at[x] == B2 ==> s.b2 != [])
  {
    s.t1 != [] && (|s.t1| > Target(s, x) || (|s.t1| == Target(s, x) && x in s.at && s.at[x] == B2))
  }

  predicate Last(q: seq<Key>, e: Key) {
    q != [] && q[|q| - 1] == e
  }

  /** The queues of residents after e made room for x, which comes to t1 if it is new and to t2 if it was a ghost. */
  predicate GaveWay(s: Cache, s': Cache, x: Key, e: Key, fromT1: bool) {
    var to1, to2 := if x in s.at then [] else [x], if x in s.at then [x] else [];
    if fromT1 then s.t1 != [] && e == s.t1[0] && s'.t1 == s.t1[1..] + to1 && s'.t2 == s.t2 + to2 && Last(s'.b1, e)
    else s.t2 != [] && e == s.t2[0] && s'.t1 == s.t1 + to1 && s'.t2 == s.t2[1..] + to2 && Last(s'.b2, e)
  }

  /** What one replacement does to the queues. */
  predicate Freed(s: Cache, s1: Cache, e: Key, fromT1: bool) {
    if fromT1 then s.t1 != [] && e == s.t1[0] && s1.t1 == s.t1[1..] && s1.t2 == s.t2 && s1.b1 == s.b1 + [e] && s1.b2 == s.b2
    else s.t2 != [] && e == s.t2[0] && s1.t1 == s.t1 && s1.t2 == s.t2[1..] && s1.b1 == s.b1 && s1.b2 == s.b2 + [e]
  }

  lemma FreeRoomSide(s: Cache, hit: Option<Place>)
    requires FreeRoom(s, hit).1.Some?
    ensures var (s', evicted) := FreeRoom(s, hit);
      Freed(s, s', evicted.value, s.t1 != [] && (|s.t1| > s.target || (|s.t1| == s.target && hit == Some(B2))))
  {
  }

  lemma MissSide(s: Cache, x: Key)
    requires Sizes(s) && x !in s.at && |s.t1| < s.c && OnMiss(s, x).1.Some?
    ensures GaveWay(s, OnMiss(s, x).0, x, OnMiss(s, x).1.value, FromT1(s, x))
  {
    if |s.t1| + |s.b1| >= s.c {
      FreeRoomSide(DropB1(s), None);
    } else if |s.t1| + |s.b1| + |s.t2| + |s.b2| >= 2 * s.c {
      FreeRoomSide(DropB2(s), None);
    } else {
      FreeRoomSide(s, None);
    }
    hide FreeRoom;
  }

  lemma {:induction false} WithoutOther(q: seq<Key>, e: Key, x: Key)
    requires x != e
    ensures var w := Without(q + [e], x); w != [] && w[|w| - 1] == e
  {
    if q != [] {
      assert (q + [e])[1..] == q[1..] + [e];
      WithoutOther(q[1..], e, x);
    } else {
      assert q + [e] == [e];
    }
  }

  lemma ToT2Ghost(s: Cache, x: Key, from: Place)
    requires from == B1 || from == B2
    ensures var s' := ToT2(s, x, from);
      && s'.t1 == s.t1 && s'.t2 == s.t2 + [x]
      && s'.b1 == (if from == B1 then Without(s.b1, x) else s.b1) && s'.b2 == (if from == B2 then Without(s.b2, x) else s.b2)
  {
  }

  /** What is left of a ghost queue when x leaves it after e came in. */
  lemma NewestGhost(q: seq<Key>, e: Key, x: Key)
    requires x != e
    ensures Last(q + [e], e) && Last(Without(q + [e], x), e)
  {
    WithoutOther(q, e, x);
  }

  lemma GhostGives(s: Cache, s1: Cache, x: Key, from: Place, e: Key, fromT1: bool)
    requires Freed(s, s1, e, fromT1) && x in s.at && x != e && (from == B1 || from == B2)
    ensures GaveWay(s, ToT2(s1, x, from), x, e, fromT1)
  {
    ToT2Ghost(s1, x, from);
    NewestGhost(s.b1, e, x);
    NewestGhost(s.b2, e, x);
    hide ToT2, Without, Last;
  }

  lemma GhostFrees(s: Cache, x: Key)
    requires Sizes(s) && Indexed(s) && x in s.at && !Resident(s, x) && Visit(s, x).1.Some?
    requires (s.at[x] == B1 ==> s.b1 != []) && (s.at[x] == B2 ==> s.b2 != [])
    ensures var s1 := FreeRoom(Adapted(s, s.at[x]), Some(s.at[x])).0; var e := Visit(s, x).1.value;
      Visit(s, x).0 == ToT2(s1, x, s.at[x]) && Freed(s, s1, e, FromT1(s, x))
  {
    var from := s.at[x];
    AdaptedIs(s, from);
    FreeRoomSide(Adapted(s, from), Some(from));
    hide Adapted, Without, Indexed, Sizes, FreeRoom, ToT2;
  }

  lemma GhostSide(s: Cache, x: Key)
    requires Sizes(s) && Indexed(s) && x in s.at && !Resident(s, x) && Visit(s, x).1.Some?
    requires (s.at[x] == B1 ==> s.b1 != []) && (s.at[x] == B2 ==> s.b2 != [])
    ensures GaveWay(s, Visit(s, x).0, x, Visit(s, x).1.value, FromT1(s, x))
  {
    GhostResidents(s, x);
    GhostFrees(s, x);
    var s1 := FreeRoom(Adapted(s, s.at[x]), Some(s.at[x])).0;
    var e := Visit(s, x).1.value;
    hide Visit, FreeRoom, Adapted, ToT2, Indexed, Sizes, Freed, FromT1, GaveWay;
    assert e != x;
    GhostGives(s, s1, x, s.at[x], e, FromT1(s, x));
  }

  /** Who is evicted when t1 does not fill the cache, or a ghost is hit: the oldest of t1 if t1 exceeds the target in force
      (or equals it, on a hit on b2), else the oldest of t2; it becomes the newest ghost of its side, and the other queue
      of residents only gains the visited key. */
  lemma VisitSide(s: Cache, x: Key)
    requires Sizes(s) && Indexed(s) && Visit(s, x).1.Some? && (x in s.at || |s.t1| < s.c)
    ensures (x in s.at && s.at[x] == B1 ==> s.b1 != []) && (x in s.at && s.at[x] == B2 ==> s.b2 != [])
    ensures var e := Visit(s, x).1.value;
      && GaveWay(s, Visit(s, x).0, x, e, FromT1(s, x)) && e in s.at && (s.at[e] == T1 <==> FromT1(s, x))
  {
    if x !in s.at {
      MissSide(s, x);
    } else {
      NonEmpty(s, x);
      GhostSide(s, x);
    }
    if s.t1 != [] {
      HeadIs(s.t1, s.at, T1);
    }
    if s.t2 != [] {
      HeadIs(s.t2, s.at, T2);
    }
    hide Indexed, Visit, FromT1;
  }

  /** A miss in a cache that t1 fills: its oldest key is forgotten. */
  lemma FullLeft(s: Cache, x: Key)
    requires Sizes(s) && Indexed(s) && x !in s.at && |s.t1| == s.c
    ensures var (s', evicted) := Visit(s, x);
      && evicted == Some(s.t1[0]) && s'.t1 == s.t1[1..] + [x] && s'.t2 == s.t2 && s'.b1 == s.b1 && s'.b2 == s.b2
      && s.t1[0] !in s'.at
  {
    HeadIs(s.t1, s.at, T1);
    hide Indexed;
  }

  /** A hit on a resident makes it the newest of t2, and changes nothing else. */
  lemma ResidentHit(s: Cache, x: Key)
    requires Sizes(s) && Indexed(s) && Resident(s, x)
    ensures var (s', evicted) := Visit(s, x);
      && evicted == None && s'.b1 == s.b1 && s'.b2 == s.b2
      && (s.at[x] == T1 ==> s'.t1 == Without(s.t1, x) && s'.t2 == s.t2 + [x])
      && (s.at[x] == T2 ==> s'.t1 == s.t1 && s'.t2 == Without(s.t2, x) + [x])
  {
  }

  /** Removal forgets the key and nothing else. */
  lemma RemoveForgets(s: Cache, x: Key)
    requires Indexed(s)
    ensures var s' := Remove(s, x);
      && x !in s'.t1 + s'.t2 + s'.b1 + s'.b2 && s'.target == s.target && s'.c == s.c
      && (forall y: Key :: y != x ==> (y in s'.at <==> y in s.at) && (y in s.at ==> s'.at[y] == s.at[y]))
  {
    RemoveIndexed(s, x);
    var s' := Remove(s, x);
    assert x !in s'.at;
    Elsewhere(s'.t1, s'.at, T1, x);
    Elsewhere(s'.t2, s'.at, T2, x);
    Elsewhere(s'.b1, s'.at, B1, x);
    Elsewhere(s'.b2, s'.at, B2, x);
    hide Indexed, Without;
  }
}
