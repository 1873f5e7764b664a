/** The Adaptive Replacement Cache after Megiddo and Modha: residents seen once (t1) or more often (t2),
    ghosts of evicted ones (b1, b2), and a target size for t1 that adapts to hits on ghosts.
    Queues go from oldest to newest. */
module Arc {
  import opened YPipes

  type Key = nat

  datatype Place = T1 | T2 | B1 | B2

  /** `at` tells in which queue a key is. */
  datatype Cache = Cache(c: nat, t1: seq<Key>, t2: seq<Key>, b1: seq<Key>, b2: seq<Key>, target: nat, at: map<Key, Place>)

  function Empty(c: nat): Cache {
    Cache(c, [], [], [], [], 0, map[])
  }

  /** A queue without one of its keys. */
  function Without(q: seq<Key>, x: Key): seq<Key> {
    if q == [] then [] else if q[0] == x then q[1..] else [q[0]] + Without(q[1..], x)
  }

  function Min(a: int, b: int): int {
    if a < b then a else b
  }

  function Max(a: int, b: int): int {
    if a > b then a else b
  }

  // ---- the invariants ----

  predicate Sizes(s: Cache) {
    && s.c >= 1 && s.target <= s.c
    && |s.t1| + |s.b1| <= s.c && |s.t1| + |s.t2| <= s.c
    && |s.t1| + |s.b1| + |s.t2| + |s.b2| <= 2 * s.c
  }

  /** Ghosts only once the cache is full. */
  predicate FullFirst(s: Cache) {
    s.b1 + s.b2 != [] ==> |s.t1| + |s.t2| == s.c
  }

  predicate NoDup(q: seq<Key>) {
    forall i, j :: 0 <= i < j < |q| ==> q[i] != q[j]
  }

  /** Every key is in the one queue that `at` tells. */
  ghost predicate Indexed(s: Cache) {
    Holds(s.t1, s.at, T1) && Holds(s.t2, s.at, T2) && Holds(s.b1, s.at, B1) && Holds(s.b2, s.at, B2)
  }

  /** The queue holds the keys that are at this place. */
  ghost predicate Holds(q: seq<Key>, at: map<Key, Place>, place: Place) {
    NoDup(q) && forall x :: x in q <==> x in at && at[x] == place
  }

  // ---- the operations ----

  /** Evict the oldest key of t1 or of t2; it becomes a ghost. */
  function FreeRoom(s: Cache, hit: Option<Place>): (Cache, Option<Key>) {
    if s.t1 != [] && (|s.t1| > s.target || (|s.t1| == s.target && hit == Some(B2))) then
      (s.(t1 := s.t1[1..], b1 := s.b1 + [s.t1[0]], at := s.at[s.t1[0] := B1]), Some(s.t1[0]))
    else if s.t2 == [] then (s, None)
    else
      (s.(t2 := s.t2[1..], b2 := s.b2 + [s.t2[0]], at := s.at[s.t2[0] := B2]), Some(s.t2[0]))
  }

  function DropB1(s: Cache): Cache
    requires s.b1 != []
  {
    s.(b1 := s.b1[1..], at := s.at - {s.b1[0]})
  }

  function DropB2(s: Cache): Cache
    requires s.b2 != []
  {
    s.(b2 := s.b2[1..], at := s.at - {s.b2[0]})
  }

  /** Room for a new key in t1. */
  function MakeRoom(s: Cache): (Cache, Option<Key>)
    requires Sizes(s)
  {
    var directory := |s.t1| + |s.b1| + |s.t2| + |s.b2|;
    if |s.t1| + |s.b1| >= s.c then
      if |s.t1| < s.c then FreeRoom(DropB1(s), None)
      else (s.(t1 := s.t1[1..], at := s.at - {s.t1[0]}), Some(s.t1[0]))
    else if directory >= s.c then FreeRoom(if directory >= 2 * s.c then DropB2(s) else s, None)
    else (s, None)
  }

  function OnMiss(s: Cache, x: Key): (Cache, Option<Key>)
    requires Sizes(s)
  {
    var (s1, evicted) := MakeRoom(s);
    (s1.(t1 := s1.t1 + [x], at := s1.at[x := T1]), evicted)
  }

  function ToT2(s: Cache, x: Key, from: Place): Cache {
    var s1 := match from
      case T1 => s.(t1 := Without(s.t1, x))
      case T2 => s.(t2 := Without(s.t2, x))
      case B1 => s.(b1 := Without(s.b1, x))
      case B2 => s.(b2 := Without(s.b2, x));
    s1.(t2 := s1.t2 + [x], at := s1.at[x := T2])
  }

  /** Hits on ghosts move the target. */
  function Adapted(s: Cache, from: Place): Cache
    requires (from == B1 ==> s.b1 != []) && (from == B2 ==> s.b2 != [])
  {
    if from == B1 then s.(target := Min(s.target + Max(|s.b2| / |s.b1|, 1), s.c))
    else if from == B2 then s.(target := Max(s.target - Max(|s.b1| / |s.b2|, 1), 0))
    else s
  }

  function OnHit(s: Cache, x: Key, from: Place): (Cache, Option<Key>)
    requires (from == B1 ==> s.b1 != []) && (from == B2 ==> s.b2 != [])
  {
    if from == T1 || from == T2 then (ToT2(s, x, from), None)
    else
      var (s1, evicted) := FreeRoom(Adapted(s, from), Some(from));
      (ToT2(s1, x, from), evicted)
  }

  function Visit(s: Cache, x: Key): (Cache, Option<Key>)
    requires Sizes(s) && Indexed(s)
  {
    if x in s.at then OnHit(s, x, s.at[x]) else OnMiss(s, x)
  }

  function Remove(s: Cache, x: Key): Cache {
    if x !in s.at then s
    else
      var s1 := s.(at := s.at - {x});
      match s.at[x]
      case T1 => s1.(t1 := Without(s.t1, x))
      case T2 => s1.(t2 := Without(s.t2, x))
      case B1 => s1.(b1 := Without(s.b1, x))
      case B2 => s1.(b2 := Without(s.b2, x))
  }

  // ---- queues ----

  lemma {:induction false} WithoutIs(q: seq<Key>, x: Key)
    requires NoDup(q)
    ensures NoDup(Without(q, x)) && |Without(q, x)| == |q| - (if x in q then 1 else 0)
    ensures forall y :: y in Without(q, x) <==> y in q && y != x
  {
    if q != [] {
      assert forall y :: y in q <==> y == q[0] || y in q[1..];
      if q[0] == x {
        assert forall i :: 1 <= i < |q| ==> q[i] != q[0];
      } else {
        WithoutIs(q[1..], x);
        var w := Without(q[1..], x);
        assert q[0] !in w by {
          assert forall i :: 1 <= i < |q| ==> q[i] != q[0];
        }
        assert forall i :: 0 <= i < |w| ==> w[i] in w;
      }
    }
  }

  lemma Appended(q: seq<Key>, x: Key)
    requires NoDup(q) && x !in q
    ensures NoDup(q + [x]) && forall y :: y in q + [x] <==> y in q || y == x
  {
    assert forall i :: 0 <= i < |q| ==> q[i] in q;
  }

  // ---- the index is kept ----

  /** A key goes from a queue (that may not have had it) to another place. */
  lemma Leaves(q: seq<Key>, q': seq<Key>, at: map<Key, Place>, place: Place, x: Key, other: Place)
    requires Holds(q, at, place) && other != place
    requires q' == (if x in q then Without(q, x) else q)
    ensures Holds(q', at[x := other], place) && Holds(q', at - {x}, place)
  {
    WithoutIs(q, x);
  }

  lemma Enters(q: seq<Key>, at: map<Key, Place>, place: Place, x: Key)
    requires Holds(q, at, place) && x !in q
    ensures Holds(q + [x], at[x := place], place)
  {
    Appended(q, x);
  }

  lemma HeadIs(q: seq<Key>, at: map<Key, Place>, place: Place)
    requires Holds(q, at, place) && q != []
    ensures q[0] in q && q[0] in at && at[q[0]] == place && q[1..] == Without(q, q[0])
  {
  }

  lemma Elsewhere(q: seq<Key>, at: map<Key, Place>, place: Place, x: Key)
    requires Holds(q, at, place)
    ensures x in q <==> x in at && at[x] == place
  {
  }

  /** A key moves to the end of a queue. */
  lemma MovesTo(q: seq<Key>, at: map<Key, Place>, place: Place, x: Key)
    requires Holds(q, at, place)
    ensures Holds(Without(q, x) + [x], at[x := place], place)
  {
    WithoutIs(q, x);
    Appended(Without(q, x), x);
  }

  lemma FreeRoomIndexed(s: Cache, hit: Option<Place>)
    requires Indexed(s)
    ensures Indexed(FreeRoom(s, hit).0)
  {
    hide Holds, Without;
    var (s', evicted) := FreeRoom(s, hit);
    if evicted.Some? {
      var x := evicted.value;
      var from, to := if |s'.t1| < |s.t1| then T1 else T2, if |s'.t1| < |s.t1| then B1 else B2;
      if from == T1 {
        HeadIs(s.t1, s.at, T1);
      } else {
        HeadIs(s.t2, s.at, T2);
      }
      Elsewhere(s.t1, s.at, T1, x);
      Elsewhere(s.t2, s.at, T2, x);
      Elsewhere(s.b1, s.at, B1, x);
      Elsewhere(s.b2, s.at, B2, x);
      Leaves(s.t1, s'.t1, s.at, T1, x, to);
      Leaves(s.t2, s'.t2, s.at, T2, x, to);
      if to == B1 {
        Enters(s.b1, s.at, B1, x);
        Leaves(s.b2, s.b2, s.at, B2, x, B1);
      } else {
        Enters(s.b2, s.at, B2, x);
        Leaves(s.b1, s.b1, s.at, B1, x, B2);
      }
    }
  }

  /** A key is forgotten. */
  lemma RemoveIndexed(s: Cache, x: Key)
    requires Indexed(s)
    ensures Indexed(Remove(s, x))
  {
    hide Holds, Without;
    if x in s.at {
      var s' := Remove(s, x);
      Elsewhere(s.t1, s.at, T1, x);
      Elsewhere(s.t2, s.at, T2, x);
      Elsewhere(s.b1, s.at, B1, x);
      Elsewhere(s.b2, s.at, B2, x);
      Leaves(s.t1, s'.t1, s.at, T1, x, T2);
      Leaves(s.t2, s'.t2, s.at, T2, x, T1);
      Leaves(s.b1, s'.b1, s.at, B1, x, T1);
      Leaves(s.b2, s'.b2, s.at, B2, x, T1);
    }
  }

  /** Dropping the oldest key of a queue is forgetting it. */
  lemma DropIsRemove(s: Cache)
    requires Indexed(s)
    ensures s.b1 != [] ==> DropB1(s) == Remove(s, s.b1[0])
    ensures s.b2 != [] ==> DropB2(s) == Remove(s, s.b2[0])
    ensures s.t1 != [] ==> s.(t1 := s.t1[1..], at := s.at - {s.t1[0]}) == Remove(s, s.t1[0])
  {
    if s.b1 != [] {
      HeadIs(s.b1, s.at, B1);
    }
    if s.b2 != [] {
      HeadIs(s.b2, s.at, B2);
    }
    if s.t1 != [] {
      HeadIs(s.t1, s.at, T1);
    }
    hide Holds, Without;
  }

  lemma MakeRoomIndexed(s: Cache)
    requires Sizes(s) && Indexed(s)
    ensures Indexed(MakeRoom(s).0)
  {
    DropIsRemove(s);
    hide Indexed;
    if |s.t1| + |s.b1| >= s.c && |s.t1| < s.c {
      RemoveIndexed(s, s.b1[0]);
      FreeRoomIndexed(DropB1(s), None);
    } else if |s.t1| + |s.b1| >= s.c {
      RemoveIndexed(s, s.t1[0]);
    } else {
      FreeRoomIndexed(s, None);
      if |s.t1| + |s.b1| + |s.t2| + |s.b2| >= 2 * s.c {
        RemoveIndexed(s, s.b2[0]);
        FreeRoomIndexed(DropB2(s), None);
      }
    }
  }

  lemma ToT2Indexed(s: Cache, x: Key, from: Place)
    requires Indexed(s) && x in s.at && s.at[x] == from
    ensures Indexed(ToT2(s, x, from))
  {
    hide Holds, Without;
    var s' := ToT2(s, x, from);
    Elsewhere(s.t1, s.at, T1, x);
    Elsewhere(s.t2, s.at, T2, x);
    Elsewhere(s.b1, s.at, B1, x);
    Elsewhere(s.b2, s.at, B2, x);
    Leaves(s.t1, s'.t1, s.at, T1, x, T2);
    Leaves(s.b1, s'.b1, s.at, B1, x, T2);
    Leaves(s.b2, s'.b2, s.at, B2, x, T2);
    if from == T2 {
      MovesTo(s.t2, s.at, T2, x);
    } else {
      Enters(s.t2, s.at, T2, x);
    }
  }

  // ---- what a visit does to the residents ----

  predicate Resident(s: Cache, x: Key) {
    x in s.at && (s.at[x] == T1 || s.at[x] == T2)
  }

  /** The residents afterwards are those before, but for the evicted one. */
  ghost predicate Evicts(s: Cache, s': Cache, evicted: Option<Key>) {
    && s'.c == s.c && (evicted.Some? ==> Resident(s, evicted.value))
    && (forall y: Key :: Resident(s', y) <==> Resident(s, y) && Some(y) != evicted)
  }

  lemma FreeRoomEvicts(s: Cache, hit: Option<Place>)
    requires Indexed(s)
    ensures var (s', evicted) := FreeRoom(s, hit);
      && Evicts(s, s', evicted) && s'.at.Keys == s.at.Keys
      && (forall y: Key :: y in s.at && Some(y) != evicted ==> s'.at[y] == s.at[y])
  {
    if s.t1 != [] {
      HeadIs(s.t1, s.at, T1);
    }
    if s.t2 != [] {
      HeadIs(s.t2, s.at, T2);
    }
    hide Indexed;
  }

  lemma RemoveGhost(s: Cache, x: Key, s': Cache, evicted: Option<Key>)
    requires x in s.at && (s.at[x] == B1 || s.at[x] == B2) && Evicts(Remove(s, x), s', evicted)
    ensures Evicts(s, s', evicted) && Remove(s, x).at.Keys <= s.at.Keys
  {
    var s1 := Remove(s, x);
    forall y: Key ensures Resident(s1, y) <==> Resident(s, y) {
    }
  }

  lemma MakeRoomEvicts(s: Cache)
    requires Sizes(s) && Indexed(s)
    ensures Evicts(s, MakeRoom(s).0, MakeRoom(s).1) && MakeRoom(s).0.at.Keys <= s.at.Keys
  {
    DropIsRemove(s);
    if |s.t1| + |s.b1| >= s.c && |s.t1| < s.c {
      var x := s.b1[0];
      HeadIs(s.b1, s.at, B1);
      RemoveIndexed(s, x);
      FreeRoomEvicts(DropB1(s), None);
      hide FreeRoom, Remove, Indexed;
      RemoveGhost(s, x, MakeRoom(s).0, MakeRoom(s).1);
    } else if |s.t1| + |s.b1| >= s.c {
      HeadIs(s.t1, s.at, T1);
      hide FreeRoom, Remove, Indexed;
    } else {
      FreeRoomEvicts(s, None);
      if |s.t1| + |s.b1| + |s.t2| + |s.b2| >= 2 * s.c {
        var x := s.b2[0];
        HeadIs(s.b2, s.at, B2);
        RemoveIndexed(s, x);
        FreeRoomEvicts(DropB2(s), None);
        hide FreeRoom, Remove, Indexed;
        RemoveGhost(s, x, MakeRoom(s).0, MakeRoom(s).1);
      }
    }
  }

  lemma NonEmpty(s: Cache, x: Key)
    requires Indexed(s) && x in s.at
    ensures (s.at[x] == B1 ==> s.b1 != []) && (s.at[x] == B2 ==> s.b2 != [])
  {
    Elsewhere(s.b1, s.at, B1, x);
    Elsewhere(s.b2, s.at, B2, x);
  }

  /** x is resident afterwards, and so are all that were, except for the evicted one. */
  ghost predicate Admits(s: Cache, s': Cache, x: Key, evicted: Option<Key>) {
    && s'.c == s.c && (evicted.Some? ==> Resident(s, evicted.value) && evicted.value != x)
    && (forall y: Key :: Resident(s', y) <==> y == x || (Resident(s, y) && Some(y) != evicted))
  }

  lemma ComesIn(s: Cache, s1: Cache, s': Cache, x: Key, evicted: Option<Key>, place: Place)
    requires Evicts(s, s1, evicted) && s'.c == s1.c && evicted != Some(x)
    requires (place == T1 || place == T2) && s'.at == s1.at[x := place]
    ensures Admits(s, s', x, evicted)
  {
  }

  lemma MissResidents(s: Cache, x: Key)
    requires Sizes(s) && Indexed(s) && x !in s.at
    ensures Indexed(OnMiss(s, x).0) && Admits(s, OnMiss(s, x).0, x, OnMiss(s, x).1)
  {
    MakeRoomIndexed(s);
    MakeRoomEvicts(s);
    hide Indexed, MakeRoom, Admits;
    var (s1, evicted) := MakeRoom(s);
    MissIndexed(s1, x);
    ComesIn(s, s1, OnMiss(s, x).0, x, evicted, T1);
  }

  lemma GhostResidents(s: Cache, x: Key)
    requires Sizes(s) && Indexed(s) && x in s.at && !Resident(s, x)
    ensures Indexed(Visit(s, x).0) && Admits(s, Visit(s, x).0, x, Visit(s, x).1)
  {
    var from := s.at[x];
    NonEmpty(s, x);
    AdaptedIs(s, from);
    var s0 := Adapted(s, from);
    assert Indexed(s0);
    hide Indexed, Adapted, Without, Admits;
    FreeRoomIndexed(s0, Some(from));
    FreeRoomEvicts(s0, Some(from));
    hide FreeRoom;
    var (s1, evicted) := FreeRoom(s0, Some(from));
    ToT2Indexed(s1, x, from);
    assert Evicts(s, s1, evicted);
    hide Evicts;
    ComesIn(s, s1, ToT2(s1, x, from), x, evicted, T2);
  }

  /** After a visit the index is right, x is resident, and so are all that were, except for the evicted one. */
  lemma VisitResidents(s: Cache, x: Key)
    requires Sizes(s) && Indexed(s)
    ensures Indexed(Visit(s, x).0) && Admits(s, Visit(s, x).0, x, Visit(s, x).1)
  {
    if x !in s.at {
      MissResidents(s, x);
    } else if Resident(s, x) {
      ToT2Indexed(s, x, s.at[x]);
      hide Indexed, Without;
      ComesIn(s, s, ToT2(s, x, s.at[x]), x, None, T2);
    } else {
      GhostResidents(s, x);
    }
  }

  lemma MissIndexed(s: Cache, x: Key)
    requires Indexed(s) && x !in s.at
    ensures Indexed(s.(t1 := s.t1 + [x], at := s.at[x := T1]))
  {
    hide Holds, Without;
    Elsewhere(s.t1, s.at, T1, x);
    Elsewhere(s.t2, s.at, T2, x);
    Elsewhere(s.b1, s.at, B1, x);
    Elsewhere(s.b2, s.at, B2, x);
    Enters(s.t1, s.at, T1, x);
    Leaves(s.t2, s.t2, s.at, T2, x, T1);
    Leaves(s.b1, s.b1, s.at, B1, x, T1);
    Leaves(s.b2, s.b2, s.at, B2, x, T1);
  }

  // ---- sizes ----

  lemma ToT2Sizes(s: Cache, x: Key, from: Place)
    requires Indexed(s) && x in s.at && s.at[x] == from
    ensures var s' := ToT2(s, x, from);
      && s'.c == s.c && s'.target == s.target
      && |s'.t1| == |s.t1| - (if from == T1 then 1 else 0) && |s'.t2| == |s.t2| + (if from == T2 then 0 else 1)
      && |s'.b1| == |s.b1| - (if from == B1 then 1 else 0) && |s'.b2| == |s.b2| - (if from == B2 then 1 else 0)
  {
    Elsewhere(s.t1, s.at, T1, x);
    Elsewhere(s.t2, s.at, T2, x);
    Elsewhere(s.b1, s.at, B1, x);
    Elsewhere(s.b2, s.at, B2, x);
    WithoutIs(s.t1, x);
    WithoutIs(s.t2, x);
    WithoutIs(s.b1, x);
    WithoutIs(s.b2, x);
    hide Without, Holds, NoDup;
  }

  lemma AdaptedIs(s: Cache, from: Place)
    requires Sizes(s) && ((from == B1 && s.b1 != []) || (from == B2 && s.b2 != []))
    ensures var s0 := Adapted(s, from);
      s0 == s.(target := s0.target) && s0.target <= s.c && (from == B2 ==> s0.target < s.c)
  {
  }

  lemma FreeRoomSizes(s: Cache, hit: Option<Place>)
    ensures var (s', evicted) := FreeRoom(s, hit);
      && s'.c == s.c && s'.target == s.target
      && |s'.t1| + |s'.b1| == |s.t1| + |s.b1| && |s'.t2| + |s'.b2| == |s.t2| + |s.b2|
      && |s'.t1| + |s'.t2| == |s.t1| + |s.t2| - (if evicted.Some? then 1 else 0)
      && (evicted.None? ==> s.t2 == [] && (s.t1 == [] || |s.t1| < s.target || (|s.t1| == s.target && hit != Some(B2))))
  {
  }

  /** A hit on a ghost. */
  lemma GhostSizes(s: Cache, x: Key)
    requires Sizes(s) && Indexed(s) && x in s.at && !Resident(s, x)
    ensures var (s', evicted) := Visit(s, x);
      && Sizes(s') && (FullFirst(s) ==> FullFirst(s') && evicted.Some?)
  {
    NonEmpty(s, x);
    var from := s.at[x];
    AdaptedIs(s, from);
    var s0 := Adapted(s, from);
    assert Indexed(s0);
    hide Indexed, ToT2, Adapted;
    FreeRoomIndexed(s0, Some(from));
    FreeRoomEvicts(s0, Some(from));
    FreeRoomSizes(s0, Some(from));
    ToT2Sizes(FreeRoom(s0, Some(from)).0, x, from);
    hide FreeRoom;
  }

  lemma MissSizes(s: Cache, x: Key)
    requires Sizes(s)
    ensures var (s', evicted) := OnMiss(s, x);
      && Sizes(s') && (FullFirst(s) ==> FullFirst(s') && (evicted.Some? <==> |s.t1| + |s.t2| == s.c))
  {
    if |s.t1| + |s.b1| >= s.c && |s.t1| < s.c {
      FreeRoomSizes(DropB1(s), None);
      hide FreeRoom;
    } else if |s.t1| + |s.b1| >= s.c {
      assert |s.t1| == s.c && s.b1 == [];
    } else {
      FreeRoomSizes(s, None);
      if |s.t1| + |s.b1| + |s.t2| + |s.b2| >= 2 * s.c {
        FreeRoomSizes(DropB2(s), None);
      }
      hide FreeRoom;
    }
  }

  /** The bounds are kept, also after keys were removed explicitly. */
  lemma VisitSizes(s: Cache, x: Key)
    requires Sizes(s) && Indexed(s)
    ensures Sizes(Visit(s, x).0)
  {
    if x !in s.at {
      MissSizes(s, x);
    } else if Resident(s, x) {
      ToT2Sizes(s, x, s.at[x]);
    } else {
      GhostSizes(s, x);
    }
  }

  /** Without removal, ghosts mean a full cache, and a visit evicts exactly when the cache is full and the key
      is not resident: the case in which t2 has nothing to evict never arises. */
  lemma VisitEvicts(s: Cache, x: Key)
    requires Sizes(s) && Indexed(s) && FullFirst(s)
    ensures FullFirst(Visit(s, x).0)
    ensures Visit(s, x).1.Some? <==> !Resident(s, x) && |s.t1| + |s.t2| == s.c
  {
    if x !in s.at {
      MissSizes(s, x);
    } else if Resident(s, x) {
      ToT2Sizes(s, x, s.at[x]);
    } else {
      GhostSizes(s, x);
      Elsewhere(s.b1, s.at, B1, x);
      Elsewhere(s.b2, s.at, B2, x);
    }
  }

  /** The visit of x has nothing to evict; a caller can tell beforehand. */
  predicate NothingEvicted(s: Cache, x: Key)
    requires Sizes(s) && (x in s.at && s.at[x] == B1 ==> s.b1 != []) && (x in s.at && s.at[x] == B2 ==> s.b2 != [])
  {
    if x !in s.at then
      |s.t1| + |s.b1| + |s.t2| + |s.b2| < s.c || (s.t2 == [] && |s.t1| < s.c && |s.t1| <= s.target)
    else if s.at[x] == B1 then s.t2 == [] && |s.t1| <= Adapted(s, B1).target
    else if s.at[x] == B2 then s.t2 == [] && (s.t1 == [] || |s.t1| < Adapted(s, B2).target)
    else true
  }

  /** When exactly a visit evicts nothing, removals included. */
  lemma VisitEvictsNothing(s: Cache, x: Key)
    requires Sizes(s) && Indexed(s)
    ensures (x in s.at && s.at[x] == B1 ==> s.b1 != []) && (x in s.at && s.at[x] == B2 ==> s.b2 != [])
    ensures Visit(s, x).1.None? <==> NothingEvicted(s, x)
  {
    if x in s.at {
      NonEmpty(s, x);
      if !Resident(s, x) {
        AdaptedIs(s, s.at[x]);
        hide Adapted, ToT2;
      }
    }
    hide Indexed;
  }

  // ---- adaptation ----

  /** A hit on b1 raises the target unless it is at the capacity, a hit on b2 lowers it unless it is 0, by the more
      the smaller the queue that was hit. */
  lemma AdaptsTowards(s: Cache, from: Place)
    requires Sizes(s) && ((from == B1 && s.b1 != []) || (from == B2 && s.b2 != []))
    ensures from == B1 ==> Adapted(s, from).target > s.target || Adapted(s, from).target == s.target == s.c
    ensures from == B2 ==> Adapted(s, from).target < s.target || Adapted(s, from).target == s.target == 0
    ensures from == B1 && |s.b2| >= |s.b1| ==> Adapted(s, from).target == s.c || Adapted(s, from).target - s.target == |s.b2| / |s.b1|
    ensures from == B2 && |s.b1| >= |s.b2| ==> Adapted(s, from).target == 0 || s.target - Adapted(s, from).target == |s.b1| / |s.b2|
  {
    if from == B1 && |s.b2| >= |s.b1| {
      AtLeastOne(|s.b2|, |s.b1|);
    }
    if from == B2 && |s.b1| >= |s.b2| {
      AtLeastOne(|s.b1|, |s.b2|);
    }
  }

  lemma AtLeastOne(a: nat, b: nat)
    requires a >= b > 0
    ensures a / b >= 1
  {
  }

  /** What that does to the eviction: a hit on b1 evicts from t1 only when t1 is larger than even the raised target, a
      hit on b2 evicts from t2 only when t1 is smaller than even the lowered one. */
  lemma GhostHitFavours(s: Cache, x: Key)
    requires Sizes(s) && Indexed(s) && x in s.at && !Resident(s, x) && Visit(s, x).1.Some?
    ensures var evicted := Visit(s, x).1.value;
      && evicted in s.at
      && (s.at[x] == B1 && s.at[evicted] == T1 ==> |s.t1| > s.target + 1)
      && (s.at[x] == B2 && s.at[evicted] == T2 && s.t1 != [] ==> |s.t1| + 1 < s.target)
  {
    NonEmpty(s, x);
    AdaptedIs(s, s.at[x]);
    AdaptsTowards(s, s.at[x]);
    if s.t1 != [] {
      HeadIs(s.t1, s.at, T1);
    }
    if s.t2 != [] {
      HeadIs(s.t2, s.at, T2);
    }
    hide Adapted, ToT2, Indexed;
  }
}
