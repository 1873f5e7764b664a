/** The second Adaptive Replacement Cache over whole runs: the order of the lists, and what a get returns. */
module ArcJcsOrder {
  import opened YPipes
  import opened Arc
  import opened ArcJcs
  import opened ArcJcsRuns
  import opened ArcJcsSides
  import R = ArcRuns

  /** When each key was last put, or got while it was resident; and the element that was put when the key was last put while
      it was not resident. */
  datatype Past = Past(h: R.History, put: map<Key, Value>)

  function Touched(h: R.History, k: Key): R.History {
    h.(stamp := h.stamp[k := h.now], now := h.now + 1)
  }

  function NextPast(s: Lists, p: Past, op: ArcJcsRuns.Op): Past {
    match op
    case DoPut(k, v) => Past(Touched(p.h, k), if OnTop(s, k) then p.put else p.put[k := v])
    case DoGet(k) => if OnTop(s, k) then p.(h := Touched(p.h, k)) else p
    case DoRemove(k) => p
  }

  /** Either side, ghosts before residents, is strictly increasing in the time of the last access. */
  predicate Ordered(s: Lists, h: R.History) {
    R.Aging(Left(s), h) && R.Aging(Right(s), h)
  }

  predicate Stored(ce: map<Key, Value>, put: map<Key, Value>) {
    forall k :: k in ce ==> k in put && ce[k] == put[k]
  }

  // ---- the order ----

  lemma AgingTouched(q: seq<Key>, k: Key, h: R.History)
    requires R.Aging(q, h) && k !in q
    ensures R.Aging(q, Touched(h, k)) && R.Aging(q + [k], Touched(h, k))
  {
    assert forall i :: 0 <= i < |q| ==> q[i] in q;
  }

  lemma ForgetsOrdered(s: Lists, s': Lists, k: Key, h: R.History)
    requires Forgets(s, s', [k]) && k !in Left(s) && k !in Right(s) && Ordered(s, h)
    ensures Ordered(s', Touched(h, k))
  {
    var l := if |Left(s)| >= s.max then Left(s)[1..] else Left(s);
    var r := if Right(s') == Right(s) then Right(s) else Right(s)[1..];
    if l != Left(s) {
      R.AgingTail(Left(s), h);
    }
    if r != Right(s) {
      R.AgingTail(Right(s), h);
    }
    hide R.Aging, Left, Right;
    AgingTouched(l, k, h);
    AgingTouched(r, k, h);
  }

  lemma ShiftsOrdered(s: Lists, s': Lists, k: Key, h: R.History)
    requires Shifts(s, s', k) && Ordered(s, h)
    ensures Ordered(s', Touched(h, k))
  {
    R.AgingWithout(Left(s), k, h);
    R.AgingWithout(Right(s), k, h);
    hide R.Aging, Left, Right, Without, Forgets;
    if k in Left(s) {
      AgingTouched(Without(Left(s), k), k, h);
      AgingTouched(Right(s), k, h);
    } else if k in Right(s) {
      AgingTouched(Left(s), k, h);
      AgingTouched(Without(Right(s), k), k, h);
    } else {
      ForgetsOrdered(s, s', k, h);
    }
  }

  lemma RemoveOrdered(s: Lists, k: Key, h: R.History)
    requires ArcJcs.Indexed(s) && Ordered(s, h)
    ensures Ordered(ArcJcs.Remove(s, k), h)
  {
    ArcJcsSides.RemoveSides(s, k);
    R.AgingWithout(Left(s), k, h);
    R.AgingWithout(Right(s), k, h);
    hide ArcJcs.Indexed, R.Aging, Left, Right, Without, ArcJcs.Remove;
  }

  lemma StepOrdered(s: Lists, p: Past, op: ArcJcsRuns.Op)
    requires ArcJcs.Valid(s) && Somewhere(s) && Ordered(s, p.h)
    ensures Ordered(ArcJcsRuns.Step(s, op), NextPast(s, p, op).h)
  {
    match op
    case DoPut(k, v) =>
      PutShifts(s, k, v);
      hide ArcJcs.Valid, Shifts, Ordered, Touched, Put;
      ShiftsOrdered(s, Put(s, k, v), k, p.h);
    case DoGet(k) =>
      GetShifts(s, k);
      hide ArcJcs.Valid, Shifts, Touched, Get, R.Aging;
      if OnTop(s, k) {
        ShiftsOrdered(s, Get(s, k).0, k, p.h);
      }
    case DoRemove(k) =>
      RemoveOrdered(s, k, p.h);
  }

  // ---- the elements ----

  lemma PutStored(s: Lists, k: Key, v: Value, put: map<Key, Value>)
    requires ArcJcs.Valid(s) && Somewhere(s) && Stored(s.ce, put)
    ensures Stored(Put(s, k, v).ce, if OnTop(s, k) then put else put[k := v])
  {
    if !OnTop(s, k) {
      PutOthers(s, k, v);
      PutStores(s, k, v);
      hide ArcJcs.Valid, Put;
    }
  }

  lemma StepStored(s: Lists, p: Past, op: ArcJcsRuns.Op)
    requires ArcJcs.Valid(s) && Somewhere(s) && Stored(s.ce, p.put)
    ensures Stored(ArcJcsRuns.Step(s, op).ce, NextPast(s, p, op).put)
  {
    match op
    case DoPut(k, v) =>
      PutStored(s, k, v, p.put);
      hide ArcJcs.Valid, Put, Stored;
    case DoGet(k) =>
      hide ArcJcs.Valid, Recency, Frequency, Without;
    case DoRemove(k) =>
      hide ArcJcs.Valid, Without;
  }

  // ---- runs ----

  ghost predicate PastOf(ops: seq<ArcJcsRuns.Op>, ss: seq<Lists>, ps: seq<Past>) {
    && |ss| == |ps| == |ops| + 1 && ps[0] == Past(R.History(map[], map[], 0), map[])
    && forall i :: 0 <= i < |ops| ==> ps[i + 1] == NextPast(ss[i], ps[i], ops[i])
  }

  /** In every run either side is in the order of the last accesses, all its ghosts being older than all its residents;
      an access to a ghost by a get is none. And every element is the one put when its key was last put while it was not
      resident. */
  lemma {:induction false} RunOrdered(max: nat, ops: seq<ArcJcsRuns.Op>, ss: seq<Lists>, ps: seq<Past>, i: nat)
    requires max >= 1 && ArcJcsRuns.Run(max, ops, ss) && PastOf(ops, ss, ps) && i <= |ops|
    ensures ArcJcs.Valid(ss[i]) && Ordered(ss[i], ps[i].h) && Stored(ss[i].ce, ps[i].put)
  {
    ArcJcsRuns.RunKeeps(max, ops, ss, i);
    if i > 0 {
      RunOrdered(max, ops, ss, ps, i - 1);
      IsSomewhere(ss[i - 1]);
      assert ArcJcsRuns.StepOf(ss[i - 1], ops[i - 1], ss[i]);
      StepOrdered(ss[i - 1], ps[i - 1], ops[i - 1]);
      StepStored(ss[i - 1], ps[i - 1], ops[i - 1]);
    }
  }

  /** In every run a get returns what was put when the key was last put while it was not resident, if it is resident, and
      nothing otherwise. */
  lemma GetReturns(max: nat, ops: seq<ArcJcsRuns.Op>, ss: seq<Lists>, ps: seq<Past>, i: nat, k: Key)
    requires max >= 1 && ArcJcsRuns.Run(max, ops, ss) && PastOf(ops, ss, ps) && i <= |ops|
    ensures Somewhere(ss[i]) && (OnTop(ss[i], k) ==> k in ps[i].put)
    ensures Get(ss[i], k).1 == if OnTop(ss[i], k) then Some(ps[i].put[k]) else None
  {
    RunOrdered(max, ops, ss, ps, i);
    IsSomewhere(ss[i]);
  }

  /** Ghosts are older than the residents of their side, and so what a replacement takes is always the oldest resident of
      its side. */
  lemma GhostsAreOlder(s: Lists, h: R.History, ghostKey: Key, resident: Key)
    requires Ordered(s, h)
    requires (ghostKey in s.b1 && resident in s.t1) || (ghostKey in s.b2 && resident in s.t2)
    ensures ghostKey in h.stamp && resident in h.stamp && h.stamp[ghostKey] < h.stamp[resident]
  {
    if ghostKey in s.b1 && resident in s.t1 {
      R.OlderFirst(s.b1, s.t1, h, ghostKey, resident);
    } else {
      R.OlderFirst(s.b2, s.t2, h, ghostKey, resident);
    }
  }
}
