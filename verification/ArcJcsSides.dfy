/** What the operations of the second Adaptive Replacement Cache do to the target, to the two sides, to the number of
    residents of either side, and to the elements. */
module ArcJcsSides {
  import opened YPipes
  import opened Arc
  import opened ArcJcs
  import A = ArcSides
  import R = ArcRuns

  // ---- the target ----

  /** The target is moved by an access to a ghost, whether a put or a get: up for B1, down for B2, by the ratio of the other
      list of ghosts to this one, at least 1, or to the bound. */
  predicate Retargeted(s: Lists, s': Lists, k: Key) {
    if k in s.at && s.at[k] == B1 then
      s.b1 != [] && var up := s.target + A.Stride(s.b1, s.b2); s'.target == if up < s.max then up else s.max
    else if k in s.at && s.at[k] == B2 then
      s.b2 != [] && var step := A.Stride(s.b2, s.b1); s'.target == if s.target > step then s.target - step else 0
    else s'.target == s.target
  }

  lemma NewTarget(s: Lists)
    ensures s.b1 != [] ==> var up := s.target + A.Stride(s.b1, s.b2); Recency(s) == if up < s.max then up else s.max
    ensures s.b2 != [] ==> var step := A.Stride(s.b2, s.b1); Frequency(s) == if s.target > step then s.target - step else 0
  {
    if s.b1 != [] {
      A.SmallRatio(|s.b2|, |s.b1|);
    }
    if s.b2 != [] {
      A.SmallRatio(|s.b1|, |s.b2|);
    }
  }

  lemma ReplaceTarget(s: Lists, orig: Option<Key>)
    ensures Replace(s, orig).target == s.target && Replace(s, orig).max == s.max
  {
  }

  lemma MakeRoomTarget(s: Lists)
    requires s.max >= 1
    ensures ArcJcs.MakeRoom(s).target == s.target
  {
    hide Replace;
    if |s.t1| + |s.b1| >= s.max {
      if |s.t1| < s.max {
        ReplaceTarget(ArcJcs.DropB1(s), Some(s.b1[0]));
      } else {
        ReplaceTarget(DropT1(s), Some(s.t1[0]));
      }
    } else {
      ReplaceTarget(s, None);
      if s.b2 != [] {
        ReplaceTarget(ArcJcs.DropB2(s), Some(s.b2[0]));
      }
    }
  }

  lemma PutGhostTarget(s: Lists, k: Key, v: Value)
    requires ArcJcs.Indexed(s) && Elements(s.at, s.ce) && k in s.at
    ensures s.at[k] == B1 && s.b1 != [] ==> PutB1(s, k, v).target == Recency(s)
    ensures s.at[k] == B2 && s.b2 != [] ==> PutB2(s, k, v).target == Frequency(s)
  {
    if s.at[k] == B1 && s.b1 != [] {
      PutB1Is(s, k, v);
      ReplaceTarget(ArcJcs.Remove(s, k).(target := Recency(s)), Some(k));
    }
    if s.at[k] == B2 && s.b2 != [] {
      PutB2Is(s, k, v);
      var s1 := Replace(ArcJcs.Remove(s, k).(target := Frequency(s)), Some(k));
      ReplaceTarget(ArcJcs.Remove(s, k).(target := Frequency(s)), Some(k));
      ReplaceTarget(Readd(s1, k, v), Some(k));
    }
    hide Replace, PutB1, PutB2, Recency, Frequency, ArcJcs.Remove;
  }

  lemma TargetMoves(s: Lists, k: Key, v: Value)
    requires ArcJcs.Valid(s)
    ensures Somewhere(s) && Retargeted(s, Put(s, k, v), k) && Retargeted(s, Get(s, k).0, k)
    ensures ArcJcs.Remove(s, k).target == s.target
  {
    IsSomewhere(s);
    NewTarget(s);
    if k in s.at {
      PutGhostTarget(s, k, v);
    } else {
      MakeRoomTarget(s);
    }
    hide Recency, Frequency, A.Stride, PutB1, PutB2, ArcJcs.MakeRoom, ArcJcs.Valid;
  }

  // ---- the sides ----

  /** The two sides, ghosts before residents. */
  function Left(s: Lists): seq<Key> {
    s.b1 + s.t1
  }

  function Right(s: Lists): seq<Key> {
    s.b2 + s.t2
  }

  /** What becomes of the sides when a resident is accessed or a key put: it goes to the new end of the right side, or of the
      left one if it was nowhere; then the oldest key of the left side is forgotten if that side has as many keys as the
      cache has room for, or else the oldest ghost of the right side if the directory is full. */
  ghost predicate Shifts(s: Lists, s': Lists, k: Key) {
    if k in Left(s) then k !in Right(s) && Left(s') == Without(Left(s), k) && Right(s') == Right(s) + [k]
    else if k in Right(s) then Left(s') == Left(s) && Right(s') == Without(Right(s), k) + [k]
    else Forgets(s, s', [k])
  }

  ghost predicate Forgets(s: Lists, s': Lists, added: seq<Key>) {
    if |Left(s)| >= s.max then Left(s) != [] && Left(s') == Left(s)[1..] + added && Right(s') == Right(s)
    else if |Left(s)| + |Right(s)| >= 2 * s.max && s.b2 != [] then Left(s') == Left(s) + added && Right(s') == Right(s)[1..]
    else Left(s') == Left(s) + added && Right(s') == Right(s)
  }

  lemma ReplaceSides(s: Lists, orig: Option<Key>)
    ensures Left(Replace(s, orig)) == Left(s) && Right(Replace(s, orig)) == Right(s)
  {
    if |s.t1| >= Max(1, s.target) {
      assert s.t1 == [s.t1[0]] + s.t1[1..];
    } else if s.t2 != [] {
      assert s.t2 == [s.t2[0]] + s.t2[1..];
    }
  }

  lemma DropSides(s: Lists)
    ensures s.b1 != [] ==> Left(ArcJcs.DropB1(s)) == Left(s)[1..] && Right(ArcJcs.DropB1(s)) == Right(s)
    ensures s.b2 != [] ==> Right(ArcJcs.DropB2(s)) == Right(s)[1..] && Left(ArcJcs.DropB2(s)) == Left(s)
    ensures s.t1 != [] && s.b1 == [] ==> Left(DropT1(s)) == Left(s)[1..] && Right(DropT1(s)) == Right(s)
  {
  }

  lemma MakeRoomSides(s: Lists)
    requires Bounds(s)
    ensures Forgets(s, ArcJcs.MakeRoom(s), [])
  {
    assert |Left(s)| == |s.t1| + |s.b1| && |Right(s)| == |s.t2| + |s.b2|;
    assert Left(s) != [] ==> Left(s)[1..] + [] == Left(s)[1..];
    assert Left(s) + [] == Left(s);
    hide Replace, Left, Right;
    DropSides(s);
    if |s.t1| + |s.b1| >= s.max && |s.t1| < s.max {
      ReplaceSides(ArcJcs.DropB1(s), Some(s.b1[0]));
    } else if |s.t1| + |s.b1| >= s.max {
      ReplaceSides(DropT1(s), Some(s.t1[0]));
    } else {
      ReplaceSides(s, None);
      if s.b2 != [] {
        ReplaceSides(ArcJcs.DropB2(s), Some(s.b2[0]));
      }
    }
  }

  lemma SidesAre(s: Lists, k: Key)
    requires ArcJcs.Indexed(s)
    ensures k in Left(s) <==> k in s.at && (s.at[k] == T1 || s.at[k] == B1)
    ensures k in Right(s) <==> k in s.at && (s.at[k] == T2 || s.at[k] == B2)
  {
    Elsewhere(s.t1, s.at, T1, k);
    Elsewhere(s.t2, s.at, T2, k);
    Elsewhere(s.b1, s.at, B1, k);
    Elsewhere(s.b2, s.at, B2, k);
    hide Holds;
  }

  lemma RemoveSides(s: Lists, k: Key)
    requires ArcJcs.Indexed(s)
    ensures var s' := ArcJcs.Remove(s, k);
      && Left(s') == (if k in Left(s) then Without(Left(s), k) else Left(s))
      && Right(s') == (if k in Right(s) then Without(Right(s), k) else Right(s))
  {
    Elsewhere(s.t1, s.at, T1, k);
    Elsewhere(s.t2, s.at, T2, k);
    Elsewhere(s.b1, s.at, B1, k);
    Elsewhere(s.b2, s.at, B2, k);
    R.SideWithout(s.b1, s.t1, k);
    R.SideWithout(s.b2, s.t2, k);
    hide Holds, Without;
  }

  lemma ReaddSides(s: Lists, k: Key, v: Value)
    ensures Left(Readd(s, k, v)) == Left(s) && Right(Readd(s, k, v)) == Right(s) + [k]
  {
    R.Appends(s.b2, s.t2, k);
  }

  lemma PutGhostSides(s: Lists, k: Key, v: Value)
    requires ArcJcs.Indexed(s) && Elements(s.at, s.ce) && Somewhere(s) && s.max >= 1 && k in s.at && (s.at[k] == B1 || s.at[k] == B2)
    ensures Shifts(s, Put(s, k, v), k)
  {
    SidesAre(s, k);
    RemoveSides(s, k);
    hide ArcJcs.Indexed, Elements, Without, ArcJcs.Remove;
    var target := if s.at[k] == B1 then Recency(s) else Frequency(s);
    var s0 := ArcJcs.Remove(s, k).(target := target);
    assert Left(s0) == Left(ArcJcs.Remove(s, k)) && Right(s0) == Right(ArcJcs.Remove(s, k));
    hide Left, Right;
    var s1 := Replace(s0, Some(k));
    ReplaceSides(s0, Some(k));
    ReaddSides(s1, k, v);
    if s.at[k] == B1 {
      PutB1Is(s, k, v);
    } else {
      PutB2Is(s, k, v);
      ReplaceSides(Readd(s1, k, v), Some(k));
    }
    hide Replace, Readd, PutB1, PutB2, Recency, Frequency;
  }

  lemma FoundSides(s: Lists, k: Key)
    requires ArcJcs.Indexed(s) && k in s.at && (s.at[k] == T1 || s.at[k] == T2)
    ensures Shifts(s, if s.at[k] == T1 then FoundInT1(s, k) else FoundInT2(s, k), k)
  {
    Elsewhere(s.t1, s.at, T1, k);
    Elsewhere(s.t2, s.at, T2, k);
    Elsewhere(s.b1, s.at, B1, k);
    Elsewhere(s.b2, s.at, B2, k);
    hide Without, ArcJcs.Indexed;
    R.SideWithout(s.b1, s.t1, k);
    R.SideWithout(s.b2, s.t2, k);
    R.Appends(s.b2, s.t2, k);
    R.Appends(s.b2, Without(s.t2, k), k);
  }

  lemma PutShifts(s: Lists, k: Key, v: Value)
    requires ArcJcs.Valid(s)
    ensures Somewhere(s) && Shifts(s, Put(s, k, v), k)
  {
    IsSomewhere(s);
    if k !in s.at {
      SidesAre(s, k);
      MakeRoomSides(s);
      var s1 := ArcJcs.MakeRoom(s);
      R.Appends(s1.b1, s1.t1, k);
      assert Left(s) + [] == Left(s);
      hide ArcJcs.MakeRoom;
    } else if s.at[k] == B1 || s.at[k] == B2 {
      PutGhostSides(s, k, v);
    } else {
      FoundSides(s, k);
    }
    hide ArcJcs.Indexed, Elements, Shifts, PutB1, PutB2, FoundInT1, FoundInT2;
  }

  // ---- who gives way ----

  /** How many keys T1 and T2 have after a put. With the sides this says which keys have become ghosts: the oldest residents
      of the side that gave way. The target is the one after the put. A hit on B2 makes room twice. */
  predicate Gives(s: Lists, s': Lists, k: Key) {
    var goal, n1, n2 := Max(1, s'.target), |s.t1|, |s.t2|;
    if k !in s.at then
      var left := if n1 == s.max then n1 - 1 else n1;
      && |s'.t1| == left + 1 - (if Total(s) >= s.max && left >= goal then 1 else 0)
      && |s'.t2| == n2 - (if left < goal && left + n2 > s.max then 1 else 0)
    else match s.at[k]
      case T1 => |s'.t1| == n1 - 1 && |s'.t2| == n2 + 1
      case T2 => |s'.t1| == n1 && |s'.t2| == n2
      case B1 =>
        && |s'.t1| == n1 - (if n1 >= goal then 1 else 0)
        && |s'.t2| == n2 + 1 - (if n1 < goal && n1 + n2 > s.max then 1 else 0)
      case B2 =>
        && |s'.t1| == n1 - (if n1 > goal then 2 else if n1 == goal then 1 else 0)
        && |s'.t2| == n2 + 1 - (if n1 > goal || n1 + n2 < s.max then 0
            else if n1 < goal && n1 + n2 > s.max then 2
            else if n1 == goal && n1 + n2 == s.max then 0
            else 1)
  }

  /** One replacement for a key that is not the oldest of T1 or T2. */
  lemma ReplaceTakes(s: Lists, orig: Option<Key>)
    requires NotOldest(s, orig)
    ensures var s' := Replace(s, orig);
      && s'.target == s.target && s'.max == s.max
      && |s'.t1| == |s.t1| - (if |s.t1| >= Max(1, s.target) then 1 else 0)
      && |s'.t2| == |s.t2| - (if |s.t1| < Max(1, s.target) && |s.t1| + |s.t2| > s.max && s.t2 != [] then 1 else 0)
  {
  }

  /** Before the replacement the oldest key of a list may be dropped. */
  lemma AfterDropGives(s: Lists, s0: Lists, orig: Option<Key>, k: Key, v: Value)
    requires Bounds(s) && k !in s.at && Total(s) >= s.max && ArcJcs.MakeRoom(s) == Replace(s0, orig) && NotOldest(s0, orig)
    requires s0.max == s.max && s0.target == s.target && s0.t2 == s.t2 && |s0.t1| == if |s.t1| == s.max then |s.t1| - 1 else |s.t1|
    ensures Gives(s, PutNew(s, k, v), k)
  {
    ReplaceTakes(s0, orig);
    hide Replace, NotOldest, ArcJcs.MakeRoom;
  }

  lemma PutNewGives(s: Lists, k: Key, v: Value)
    requires ArcJcs.Valid(s) && k !in s.at
    ensures Gives(s, PutNew(s, k, v), k)
  {
    if s.b1 != [] {
      HeadIs(s.b1, s.at, B1);
      HeadsDiffer(s, s.b1[0]);
    }
    if s.b2 != [] {
      HeadIs(s.b2, s.at, B2);
      HeadsDiffer(s, s.b2[0]);
    }
    hide Replace, ArcJcs.Indexed, Elements;
    if |s.t1| == s.max {
      DropT1Apart(s);
      hide NotOldest;
      AfterDropGives(s, DropT1(s), Some(s.t1[0]), k, v);
    } else if |s.t1| + |s.b1| >= s.max {
      AfterDropGives(s, ArcJcs.DropB1(s), Some(s.b1[0]), k, v);
    } else if Total(s) >= 2 * s.max && s.b2 != [] {
      AfterDropGives(s, ArcJcs.DropB2(s), Some(s.b2[0]), k, v);
    } else if Total(s) >= s.max {
      AfterDropGives(s, s, None, k, v);
    }
  }

  lemma DropT1Apart(s: Lists)
    requires ArcJcs.Indexed(s) && s.t1 != []
    ensures NotOldest(DropT1(s), Some(s.t1[0]))
  {
    HeadIs(s.t1, s.at, T1);
    Elsewhere(s.t2, s.at, T2, s.t1[0]);
    assert |s.t1| > 1 ==> s.t1[1] != s.t1[0];
  }

  lemma PutB1Gives(s: Lists, k: Key, v: Value)
    requires ArcJcs.Valid(s) && s.b1 != [] && k in s.at && s.at[k] == B1
    ensures Gives(s, PutB1(s, k, v), k)
  {
    PutB1Is(s, k, v);
    ArcJcs.RemoveSizes(s, k);
    HeadsDiffer(s, k);
    var s0 := ArcJcs.Remove(s, k).(target := Recency(s));
    assert NotOldest(s0, Some(k));
    TargetsFit(s);
    ReplaceTakes(s0, Some(k));
    hide Replace, ArcJcs.Indexed, Elements, Recency, PutB1, ArcJcs.Remove;
  }

  /** The key itself is not taken when room is made a second time. */
  lemma ReaddTakes(s: Lists, k: Key, v: Value)
    requires ArcJcs.Indexed(s) && k !in s.at && s.max >= 1 && s.target <= s.max
    ensures var s' := Replace(Readd(s, k, v), Some(k));
      && s'.target == s.target
      && |s'.t1| == |s.t1| - (if |s.t1| >= Max(1, s.target) then 1 else 0)
      && |s'.t2| == |s.t2| + 1 - (if |s.t1| < Max(1, s.target) && |s.t1| + |s.t2| + 1 > s.max then 1 else 0)
  {
    HeadsDiffer(s, k);
  }

  lemma PutB2Gives(s: Lists, k: Key, v: Value)
    requires ArcJcs.Valid(s) && s.b2 != [] && k in s.at && s.at[k] == B2
    ensures Gives(s, PutB2(s, k, v), k)
  {
    PutB2Is(s, k, v);
    ArcJcs.RemoveSizes(s, k);
    HeadsDiffer(s, k);
    TargetsFit(s);
    ForgetIndexed(s, k, Frequency(s));
    var s0 := ArcJcs.Remove(s, k).(target := Frequency(s));
    assert NotOldest(s0, Some(k));
    hide ArcJcs.Indexed, Elements, Frequency, PutB2, ArcJcs.Remove;
    ReplaceTakes(s0, Some(k));
    var s1 := Replace(s0, Some(k));
    hide Replace;
    ReaddTakes(s1, k, v);
  }

  lemma FoundGives(s: Lists, k: Key)
    requires ArcJcs.Valid(s) && k in s.at && (s.at[k] == T1 || s.at[k] == T2)
    ensures Gives(s, if s.at[k] == T1 then FoundInT1(s, k) else FoundInT2(s, k), k)
  {
    Elsewhere(s.t1, s.at, T1, k);
    Elsewhere(s.t2, s.at, T2, k);
    WithoutIs(s.t1, k);
    WithoutIs(s.t2, k);
    hide Holds, Without, NoDup, Elements;
  }

  lemma PutGives(s: Lists, k: Key, v: Value)
    requires ArcJcs.Valid(s)
    ensures Somewhere(s) && Gives(s, Put(s, k, v), k)
  {
    IsSomewhere(s);
    if k !in s.at {
      PutNewGives(s, k, v);
    } else if s.at[k] == B1 {
      PutB1Gives(s, k, v);
    } else if s.at[k] == B2 {
      PutB2Gives(s, k, v);
    } else {
      FoundGives(s, k);
    }
    hide Gives, PutNew, PutB1, PutB2, FoundInT1, FoundInT2;
  }

  /** A get moves a resident as a put does; otherwise it leaves the lists alone. */
  lemma GetShifts(s: Lists, k: Key)
    requires ArcJcs.Valid(s)
    ensures Somewhere(s)
    ensures var s' := Get(s, k).0;
      if k in s.at && (s.at[k] == T1 || s.at[k] == T2) then Shifts(s, s', k) && Gives(s, s', k)
      else s' == s.(target := s'.target)
  {
    IsSomewhere(s);
    if k in s.at && (s.at[k] == T1 || s.at[k] == T2) {
      FoundSides(s, k);
      FoundGives(s, k);
    }
    hide ArcJcs.Valid, Shifts, Gives, FoundInT1, FoundInT2;
  }

  // ---- the elements ----

  /** No element of another key is new, or changed. */
  predicate Others(m: map<Key, Value>, m': map<Key, Value>, k: Key) {
    forall y :: y in m' && y != k ==> y in m && m'[y] == m[y]
  }

  lemma ReplaceOthers(s: Lists, orig: Option<Key>, m: map<Key, Value>, k: Key)
    requires Others(m, s.ce, k)
    ensures Others(m, Replace(s, orig).ce, k)
  {
  }

  lemma MakeRoomOthers(s: Lists, k: Key)
    requires s.max >= 1
    ensures Others(s.ce, ArcJcs.MakeRoom(s).ce, k)
  {
    hide Replace;
    if |s.t1| + |s.b1| >= s.max {
      if |s.t1| < s.max {
        ReplaceOthers(ArcJcs.DropB1(s), Some(s.b1[0]), s.ce, k);
      } else {
        ReplaceOthers(DropT1(s), Some(s.t1[0]), s.ce, k);
      }
    } else {
      ReplaceOthers(s, None, s.ce, k);
      if s.b2 != [] {
        ReplaceOthers(ArcJcs.DropB2(s), Some(s.b2[0]), s.ce, k);
      }
    }
  }

  lemma PutB1Others(s: Lists, k: Key, v: Value)
    requires s.b1 != []
    ensures Others(s.ce, PutB1(s, k, v).ce, k)
  {
    ReplaceOthers(s.(target := Recency(s), b1 := Without(s.b1, k)), Some(k), s.ce, k);
    hide Replace, Recency, Without;
  }

  lemma PutB2Others(s: Lists, k: Key, v: Value)
    requires s.b2 != []
    ensures Others(s.ce, PutB2(s, k, v).ce, k)
  {
    var s0 := s.(target := Frequency(s), b2 := Without(s.b2, k));
    var s1 := Replace(s0, Some(k));
    hide Replace, Frequency, Without;
    ReplaceOthers(s0, Some(k), s.ce, k);
    ReplaceOthers(s1.(t2 := s1.t2 + [k], at := s1.at[k := T2], ce := s1.ce[k := v]), Some(k), s.ce, k);
  }

  lemma PutOthers(s: Lists, k: Key, v: Value)
    requires ArcJcs.Valid(s)
    ensures Somewhere(s) && Others(s.ce, Put(s, k, v).ce, k)
  {
    IsSomewhere(s);
    if k !in s.at {
      MakeRoomOthers(s, k);
    } else if s.at[k] == B1 {
      PutB1Others(s, k, v);
    } else if s.at[k] == B2 {
      PutB2Others(s, k, v);
    }
    hide ArcJcs.MakeRoom, PutB1, PutB2, ArcJcs.Valid;
  }
}
