/** Whole runs of the Adaptive Replacement Cache: recency order, how often keys were seen, and the bounds. */
module ArcRuns {
  import opened YPipes
  import opened Arc

  /** When each key was last visited, and how often since it came in from nowhere. */
  datatype History = History(stamp: map<Key, nat>, visits: map<Key, nat>, now: nat)

  function Visited(h: History, s: Cache, x: Key): History {
    History(h.stamp[x := h.now], h.visits[x := if x in s.at && x in h.visits then h.visits[x] + 1 else 1], h.now + 1)
  }

  /** Strictly increasing in the time of the last visit. */
  predicate Aging(q: seq<Key>, h: History) {
    && (forall i :: 0 <= i < |q| ==> q[i] in h.stamp && h.stamp[q[i]] < h.now)
    && (forall i, j :: 0 <= i < j < |q| ==> q[i] in h.stamp && q[j] in h.stamp && h.stamp[q[i]] < h.stamp[q[j]])
  }

  /** The two sides, ghosts before residents. */
  function Left(s: Cache): seq<Key> {
    s.b1 + s.t1
  }

  function Right(s: Cache): seq<Key> {
    s.b2 + s.t2
  }

  predicate Recency(s: Cache, h: History) {
    Aging(Left(s), h) && Aging(Right(s), h)
  }

  /** Keys on the left were visited once, keys on the right at least twice. */
  predicate Frequency(s: Cache, h: History) {
    Seen(Left(s), h.visits, true) && Seen(Right(s), h.visits, false)
  }

  /** All keys were visited once, or all at least twice. */
  predicate Seen(q: seq<Key>, visits: map<Key, nat>, once: bool) {
    forall x :: x in q ==> x in visits && if once then visits[x] == 1 else visits[x] >= 2
  }

  // ---- the sides under the operations ----

  lemma FreeRoomSides(s: Cache, hit: Option<Place>)
    ensures Left(FreeRoom(s, hit).0) == Left(s) && Right(FreeRoom(s, hit).0) == Right(s)
  {
    var s' := FreeRoom(s, hit).0;
    if |s'.t1| < |s.t1| {
      assert s.t1 == [s.t1[0]] + s.t1[1..];
    } else if |s'.t2| < |s.t2| {
      assert s.t2 == [s.t2[0]] + s.t2[1..];
    }
  }

  ghost predicate Forgets(s: Cache, s': Cache, added: seq<Key>) {
    if |Left(s)| == s.c then Left(s) != [] && Left(s') == Left(s)[1..] + added && Right(s') == Right(s)
    else if |Left(s)| + |Right(s)| == 2 * s.c then Left(s') == Left(s) + added && Right(s) != [] && Right(s') == Right(s)[1..]
    else Left(s') == Left(s) + added && Right(s') == Right(s)
  }

  /** Making room forgets the oldest key of a left side that has reached the capacity, or else the oldest key of the right
      side if the directory has reached twice the capacity, and no other key. */
  lemma MakeRoomSides(s: Cache)
    requires Sizes(s)
    ensures Forgets(s, MakeRoom(s).0, [])
  {
    var s' := MakeRoom(s).0;
    assert |Left(s)| == |s.t1| + |s.b1| && |Right(s)| == |s.t2| + |s.b2|;
    assert Left(s) != [] ==> Left(s)[1..] + [] == Left(s)[1..];
    assert Left(s) + [] == Left(s);
    hide FreeRoom, Left, Right;
    if |s.t1| + |s.b1| >= s.c && |s.t1| < s.c {
      DropSides(s);
      FreeRoomSides(DropB1(s), None);
    } else if |s.t1| + |s.b1| >= s.c {
      DropT1Sides(s);
    } else if |s.t1| + |s.b1| + |s.t2| + |s.b2| >= 2 * s.c {
      DropSides(s);
      FreeRoomSides(DropB2(s), None);
    } else {
      FreeRoomSides(s, None);
    }
  }

  lemma DropSides(s: Cache)
    ensures s.b1 != [] ==> Left(s) != [] && Left(DropB1(s)) == Left(s)[1..] && Right(DropB1(s)) == Right(s)
    ensures s.b2 != [] ==> Right(s) != [] && Right(DropB2(s)) == Right(s)[1..] && Left(DropB2(s)) == Left(s)
  {
  }

  lemma DropT1Sides(s: Cache)
    requires s.b1 == [] && s.t1 != []
    ensures var s' := s.(t1 := s.t1[1..], at := s.at - {s.t1[0]}); Left(s) != [] && Left(s') == Left(s)[1..] && Right(s') == Right(s)
  {
  }

  lemma {:induction false} WithoutJoin(a: seq<Key>, b: seq<Key>, x: Key)
    ensures x in a ==> Without(a + b, x) == Without(a, x) + b
    ensures x !in a ==> Without(a + b, x) == a + Without(b, x)
  {
    if a == [] {
      assert a + b == b;
    } else {
      var tail := a[1..];
      assert (a + b)[1..] == tail + b && (a + b)[0] == a[0] && a == [a[0]] + tail;
      if a[0] != x {
        WithoutJoin(tail, b, x);
        assert x in a ==> [a[0]] + (Without(tail, x) + b) == ([a[0]] + Without(tail, x)) + b;
        assert x !in a ==> [a[0]] + (tail + Without(b, x)) == a + Without(b, x);
      }
    }
  }

  lemma ToT2Sides(s: Cache, x: Key, from: Place)
    requires Indexed(s) && x in s.at && s.at[x] == from
    ensures var s' := ToT2(s, x, from);
      && (from == T1 || from == B1 ==> x in Left(s) && x !in Right(s) && Left(s') == Without(Left(s), x) && Right(s') == Right(s) + [x])
      && (from == T2 || from == B2 ==> x in Right(s) && x !in Left(s) && Left(s') == Left(s) && Right(s') == Without(Right(s), x) + [x])
  {
    Elsewhere(s.t1, s.at, T1, x);
    Elsewhere(s.t2, s.at, T2, x);
    Elsewhere(s.b1, s.at, B1, x);
    Elsewhere(s.b2, s.at, B2, x);
    hide Without, Indexed;
    SideWithout(s.b1, s.t1, x);
    SideWithout(s.b2, s.t2, x);
    Appends(s.b2, s.t2, x);
    Appends(Without(s.b2, x), s.t2, x);
    Appends(s.b2, Without(s.t2, x), x);
  }

  lemma SideWithout(b: seq<Key>, t: seq<Key>, x: Key)
    ensures x in b + t <==> x in b || x in t
    ensures x in b ==> Without(b + t, x) == Without(b, x) + t
    ensures x !in b ==> Without(b + t, x) == b + Without(t, x)
  {
    WithoutJoin(b, t, x);
  }

  lemma Appends(b: seq<Key>, t: seq<Key>, x: Key)
    ensures b + (t + [x]) == (b + t) + [x]
  {
  }

  // ---- order and counts ----

  lemma AgingTail(q: seq<Key>, h: History)
    requires Aging(q, h) && q != []
    ensures Aging(q[1..], h)
  {
  }

  lemma AgingHead(q: seq<Key>, h: History)
    requires Aging(q, h) && q != []
    ensures q[0] in h.stamp && h.stamp[q[0]] < h.now
    ensures forall y :: y in q[1..] ==> y in h.stamp && h.stamp[q[0]] < h.stamp[y]
  {
    forall y | y in q[1..] ensures y in h.stamp && h.stamp[q[0]] < h.stamp[y] {
      var j :| 0 <= j < |q[1..]| && q[1..][j] == y;
      assert q[j + 1] == y;
    }
  }

  lemma AgingPrepend(x: Key, w: seq<Key>, h: History)
    requires Aging(w, h) && x in h.stamp && h.stamp[x] < h.now
    requires forall y :: y in w ==> y in h.stamp && h.stamp[x] < h.stamp[y]
    ensures Aging([x] + w, h)
  {
    assert forall i :: 0 <= i < |w| ==> w[i] in w;
  }

  lemma {:induction false} AgingWithout(q: seq<Key>, x: Key, h: History)
    requires Aging(q, h)
    ensures Aging(Without(q, x), h) && x !in Without(q, x)
    ensures forall y :: y in Without(q, x) ==> y in q
  {
    if q != [] {
      AgingTail(q, h);
      AgingHead(q, h);
      assert forall y :: y in q[1..] ==> y in q;
      hide Aging;
      if q[0] != x {
        AgingWithout(q[1..], x, h);
        AgingPrepend(q[0], Without(q[1..], x), h);
      }
    }
  }

  /** The visited key is not in q: q keeps its order, and so does q with the key at the end. */
  lemma AgingVisited(q: seq<Key>, x: Key, h: History, s: Cache)
    requires Aging(q, h) && x !in q
    ensures Aging(q, Visited(h, s, x)) && Aging(q + [x], Visited(h, s, x))
  {
    assert forall i :: 0 <= i < |q| ==> q[i] in q;
  }

  lemma SidesAreApart(s: Cache, x: Key)
    requires Indexed(s)
    ensures x in Left(s) || x in Right(s) ==> x in s.at
    ensures !(x in Left(s) && x in Right(s))
  {
    Elsewhere(s.t1, s.at, T1, x);
    Elsewhere(s.t2, s.at, T2, x);
    Elsewhere(s.b1, s.at, B1, x);
    Elsewhere(s.b2, s.at, B2, x);
    hide Indexed;
  }

  /** What a visit does to the sides. */
  ghost predicate Shift(s: Cache, s': Cache, x: Key) {
    if x in Left(s) then x !in Right(s) && Left(s') == Without(Left(s), x) && Right(s') == Right(s) + [x]
    else if x in Right(s) then Left(s') == Left(s) && Right(s') == Without(Right(s), x) + [x]
    else Forgets(s, s', [x])
  }

  lemma VisitShifts(s: Cache, x: Key)
    requires Sizes(s) && Indexed(s)
    ensures Shift(s, Visit(s, x).0, x) && (x in s.at <==> x in Left(s) || x in Right(s))
  {
    SidesAreApart(s, x);
    if x !in s.at {
      MakeRoomSides(s);
      hide MakeRoom, Indexed;
      var s1 := MakeRoom(s).0;
      assert (s1.b1 + s1.t1) + [x] == s1.b1 + (s1.t1 + [x]);
    } else if Resident(s, x) {
      ToT2Sides(s, x, s.at[x]);
    } else {
      GhostShifts(s, x);
    }
  }

  lemma GhostShifts(s: Cache, x: Key)
    requires Sizes(s) && Indexed(s) && x in s.at && !Resident(s, x)
    ensures Shift(s, Visit(s, x).0, x) && (x in Left(s) || x in Right(s))
  {
    var from := s.at[x];
    NonEmpty(s, x);
    AdaptedIs(s, from);
    var s0 := Adapted(s, from);
    assert Indexed(s0) && Left(s0) == Left(s) && Right(s0) == Right(s);
    hide Indexed, Adapted, Without, Left, Right;
    FreeRoomIndexed(s0, Some(from));
    FreeRoomEvicts(s0, Some(from));
    FreeRoomSides(s0, Some(from));
    hide FreeRoom, ToT2;
    ToT2Sides(FreeRoom(s0, Some(from)).0, x, from);
  }

  lemma ForgetsRecency(s: Cache, s': Cache, x: Key, h: History)
    requires Forgets(s, s', [x]) && x !in Left(s) && x !in Right(s) && Recency(s, h)
    ensures Recency(s', Visited(h, s, x))
  {
    var l := if |Left(s)| == s.c then Left(s)[1..] else Left(s);
    var r := if Right(s') == Right(s) then Right(s) else Right(s)[1..];
    if l != Left(s) {
      AgingTail(Left(s), h);
    }
    if r != Right(s) {
      AgingTail(Right(s), h);
    }
    hide Aging, Left, Right;
    AgingVisited(l, x, h, s);
    AgingVisited(r, x, h, s);
  }

  /** Recency order is kept: on each side, ghosts and residents together are ordered by their last visit. */
  lemma ShiftRecency(s: Cache, s': Cache, x: Key, h: History)
    requires Shift(s, s', x) && Recency(s, h)
    ensures Recency(s', Visited(h, s, x))
  {
    AgingWithout(Left(s), x, h);
    AgingWithout(Right(s), x, h);
    hide Aging, Left, Right, Without, Forgets;
    if x in Left(s) {
      AgingVisited(Without(Left(s), x), x, h, s);
      AgingVisited(Right(s), x, h, s);
    } else if x in Right(s) {
      AgingVisited(Left(s), x, h, s);
      AgingVisited(Without(Right(s), x), x, h, s);
    } else {
      ForgetsRecency(s, s', x, h);
    }
  }

  lemma SeenLess(q: seq<Key>, q': seq<Key>, visits: map<Key, nat>, once: bool, x: Key, n: nat)
    requires Seen(q, visits, once) && x !in q' && forall y :: y in q' ==> y in q
    ensures Seen(q', visits[x := n], once)
    ensures (if once then n == 1 else n >= 2) ==> Seen(q' + [x], visits[x := n], once)
  {
  }

  lemma ShiftFrequency(s: Cache, s': Cache, x: Key, h: History)
    requires Shift(s, s', x) && Recency(s, h) && Frequency(s, h) && (x in s.at <==> x in Left(s) || x in Right(s))
    ensures Frequency(s', Visited(h, s, x))
  {
    AgingWithout(Left(s), x, h);
    AgingWithout(Right(s), x, h);
    var n := if x in s.at && x in h.visits then h.visits[x] + 1 else 1;
    assert x in Left(s) || x in Right(s) ==> n >= 2;
    hide Aging, Left, Right, Without, Seen;
    if x in Left(s) {
      SeenLess(Left(s), Without(Left(s), x), h.visits, true, x, n);
      SeenLess(Right(s), Right(s), h.visits, false, x, n);
    } else if x in Right(s) {
      SeenLess(Left(s), Left(s), h.visits, true, x, n);
      SeenLess(Right(s), Without(Right(s), x), h.visits, false, x, n);
    } else {
      SeenLess(Left(s), if Left(s') == Left(s) + [x] then Left(s) else Left(s)[1..], h.visits, true, x, n);
      SeenLess(Right(s), if Right(s') == Right(s) then Right(s) else Right(s)[1..], h.visits, false, x, n);
    }
  }

  // ---- removal ----

  lemma RemoveSides(s: Cache, x: Key)
    requires Indexed(s)
    ensures var s' := Remove(s, x);
      && (Left(s') == Left(s) || Left(s') == Without(Left(s), x))
      && (Right(s') == Right(s) || Right(s') == Without(Right(s), x))
  {
    Elsewhere(s.b1, s.at, B1, x);
    Elsewhere(s.b2, s.at, B2, x);
    WithoutJoin(s.b1, s.t1, x);
    WithoutJoin(s.b2, s.t2, x);
    hide Without, Indexed;
  }

  lemma RemoveSizes(s: Cache, x: Key)
    requires Indexed(s) && Sizes(s)
    ensures Sizes(Remove(s, x))
  {
    WithoutIs(s.t1, x);
    WithoutIs(s.t2, x);
    WithoutIs(s.b1, x);
    WithoutIs(s.b2, x);
    hide Without, Indexed;
  }

  lemma RemoveSeen(s: Cache, x: Key, h: History)
    requires Indexed(s) && Recency(s, h) && Frequency(s, h)
    ensures Frequency(Remove(s, x), h)
  {
    RemoveSides(s, x);
    SeenWithout(Left(s), x, h, true);
    SeenWithout(Right(s), x, h, false);
    hide Indexed, Left, Right, Aging, Remove, Without, Seen;
  }

  lemma SeenWithout(q: seq<Key>, x: Key, h: History, once: bool)
    requires Aging(q, h) && Seen(q, h.visits, once)
    ensures Seen(Without(q, x), h.visits, once)
  {
    AgingWithout(q, x, h);
  }

  // ---- runs ----

  datatype Op = DoVisit(x: Key) | DoRemove(x: Key)

  ghost predicate Good(s: Cache, h: History) {
    Sizes(s) && Indexed(s) && Recency(s, h) && Frequency(s, h)
  }

  function Step(s: Cache, op: Op): Cache
    requires Sizes(s) && Indexed(s)
  {
    match op
    case DoVisit(x) => Visit(s, x).0
    case DoRemove(x) => Remove(s, x)
  }

  function Next(s: Cache, h: History, op: Op): History {
    if op.DoVisit? then Visited(h, s, op.x) else h
  }

  lemma StepKeeps(s: Cache, h: History, op: Op)
    requires Good(s, h)
    ensures Good(Step(s, op), Next(s, h, op))
  {
    var x := op.x;
    match op
    case DoVisit(_) =>
      VisitSizes(s, x);
      VisitResidents(s, x);
      VisitShifts(s, x);
      hide Sizes, Indexed, Recency, Frequency, Visit;
      ShiftRecency(s, Visit(s, x).0, x, h);
      ShiftFrequency(s, Visit(s, x).0, x, h);
    case DoRemove(_) =>
      RemoveSizes(s, x);
      RemoveIndexed(s, x);
      RemoveSides(s, x);
      AgingWithout(Left(s), x, h);
      AgingWithout(Right(s), x, h);
      RemoveSeen(s, x, h);
      hide Sizes, Indexed, Left, Right, Aging, Seen, Remove, Without;
  }

  /** The states and histories of a run on a new cache of capacity c. */
  ghost predicate Run(c: nat, ops: seq<Op>, ss: seq<Cache>, hs: seq<History>) {
    && |ss| == |hs| == |ops| + 1 && ss[0] == Empty(c) && hs[0] == History(map[], map[], 0)
    && forall k :: 0 <= k < |ops| ==> StepOf(ss[k], hs[k], ops[k], ss[k + 1], hs[k + 1])
  }

  ghost predicate StepOf(s: Cache, h: History, op: Op, s': Cache, h': History) {
    Sizes(s) && Indexed(s) ==> s' == Step(s, op) && h' == Next(s, h, op)
  }

  /** In every run, with removals or without: the bounds hold, every key is in the one queue its index
      tells, each side is ordered by last visit with all ghosts older than all residents, keys on the left
      were visited once and keys on the right more often. */
  lemma {:induction false} RunKeeps(c: nat, ops: seq<Op>, ss: seq<Cache>, hs: seq<History>, k: nat)
    requires c >= 1 && Run(c, ops, ss, hs) && k <= |ops|
    ensures Good(ss[k], hs[k])
  {
    if k > 0 {
      RunKeeps(c, ops, ss, hs, k - 1);
      assert StepOf(ss[k - 1], hs[k - 1], ops[k - 1], ss[k], hs[k]);
      StepKeeps(ss[k - 1], hs[k - 1], ops[k - 1]);
    }
  }

  /** Without removals ghosts exist only while the cache is full, and evictions happen exactly when a key
      that is not resident is visited in a full cache. */
  lemma {:induction false} RunEvicts(c: nat, ops: seq<Op>, ss: seq<Cache>, hs: seq<History>, k: nat)
    requires c >= 1 && Run(c, ops, ss, hs) && k <= |ops| && forall j :: 0 <= j < |ops| ==> ops[j].DoVisit?
    ensures Good(ss[k], hs[k]) && FullFirst(ss[k])
    ensures k < |ops| ==> (Visit(ss[k], ops[k].x).1.Some? <==> !Resident(ss[k], ops[k].x) && |ss[k].t1| + |ss[k].t2| == ss[k].c)
  {
    RunKeeps(c, ops, ss, hs, k);
    if k > 0 {
      RunEvicts(c, ops, ss, hs, k - 1);
      assert StepOf(ss[k - 1], hs[k - 1], ops[k - 1], ss[k], hs[k]);
      VisitEvicts(ss[k - 1], ops[k - 1].x);
    }
    if k < |ops| {
      VisitEvicts(ss[k], ops[k].x);
    }
  }

  /** Every resident is more recent than every ghost of its side. */
  lemma GhostsAreOlder(s: Cache, h: History, ghostKey: Key, resident: Key)
    requires Good(s, h)
    requires (ghostKey in s.b1 && resident in s.t1) || (ghostKey in s.b2 && resident in s.t2)
    ensures ghostKey in h.stamp && resident in h.stamp && h.stamp[ghostKey] < h.stamp[resident]
  {
    if ghostKey in s.b1 && resident in s.t1 {
      OlderFirst(s.b1, s.t1, h, ghostKey, resident);
    } else {
      OlderFirst(s.b2, s.t2, h, ghostKey, resident);
    }
  }

  lemma OlderFirst(a: seq<Key>, b: seq<Key>, h: History, x: Key, y: Key)
    requires Aging(a + b, h) && x in a && y in b
    ensures x in h.stamp && y in h.stamp && h.stamp[x] < h.stamp[y]
  {
    var i :| 0 <= i < |a| && a[i] == x;
    var j :| 0 <= j < |b| && b[j] == y;
    assert (a + b)[i] == x && (a + b)[|a| + j] == y;
  }

  // ---- nothing to evict ----

  /** A cache for one key after: visit 1, visit 1, visit 2, remove 2, visit 4. */
  function Witness(i: nat): Cache {
    if i == 0 then Empty(1)
    else if i == 1 then Cache(1, [1], [], [], [], 0, map[1 := T1])
    else if i == 2 then Cache(1, [], [1], [], [], 0, map[1 := T2])
    else if i == 3 then Cache(1, [2], [], [], [1], 0, map[1 := B2, 2 := T1])
    else if i == 4 then Cache(1, [], [], [], [1], 0, map[1 := B2])
    else Cache(1, [4], [], [], [1], 0, map[1 := B2, 4 := T1])
  }

  const OPS: seq<Op> := [DoVisit(1), DoVisit(1), DoVisit(2), DoRemove(2), DoVisit(4)]

  lemma WitnessVisits()
    ensures Sizes(Witness(0)) && Indexed(Witness(0)) ==> Step(Witness(0), DoVisit(1)) == Witness(1)
    ensures Sizes(Witness(1)) && Indexed(Witness(1)) ==> Step(Witness(1), DoVisit(1)) == Witness(2)
    ensures Sizes(Witness(2)) && Indexed(Witness(2)) ==> Step(Witness(2), DoVisit(2)) == Witness(3)
  {
    assert Without([1], 1) == [];
    hide Indexed;
  }

  lemma WitnessRemoves()
    ensures Sizes(Witness(3)) && Indexed(Witness(3)) ==> Step(Witness(3), DoRemove(2)) == Witness(4)
    ensures Sizes(Witness(4)) && Indexed(Witness(4)) ==> Step(Witness(4), DoVisit(4)) == Witness(5)
  {
    assert Without([2], 2) == [];
    assert Witness(3).at - {2} == Witness(4).at;
    hide Indexed;
  }

  function WitnessHistory(i: nat): History
    requires i <= |OPS|
  {
    if i == 0 then History(map[], map[], 0) else Next(Witness(i - 1), WitnessHistory(i - 1), OPS[i - 1])
  }

  lemma WitnessStep(k: nat)
    requires k < |OPS|
    ensures StepOf(Witness(k), WitnessHistory(k), OPS[k], Witness(k + 1), WitnessHistory(k + 1))
  {
    WitnessVisits();
    WitnessRemoves();
    assert k == 0 || k == 1 || k == 2 || k == 3 || k == 4;
    hide Witness, Step, Sizes, Indexed, Next;
  }

  /** With explicit removal the case of an empty t2 does arise: in this run from an empty cache the last visit looks for
      a key to evict, t1 and t2 being empty and a ghost being left, and finds none. */
  lemma NothingToEvict() returns (ss: seq<Cache>, hs: seq<History>)
    ensures Run(1, OPS, ss, hs) && Sizes(ss[4]) && ss[4].t2 == [] && ss[4].b2 == [1]
    ensures OPS[4] == DoVisit(4) && MakeRoom(ss[4]) == FreeRoom(ss[4], None) == (ss[4], None)
  {
    ss := seq(6, i requires 0 <= i < 6 => Witness(i));
    hs := seq(6, i requires 0 <= i < 6 => WitnessHistory(i));
    forall k | 0 <= k < |OPS| ensures StepOf(ss[k], hs[k], OPS[k], ss[k + 1], hs[k + 1]) {
      WitnessStep(k);
    }
    assert ss[0] == Empty(1) && hs[0] == History(map[], map[], 0);
    assert ss[4] == Cache(1, [], [], [], [1], 0, map[1 := B2]);
    hide StepOf, Witness, WitnessHistory;
  }
}
