/** The rotation shared by the fair queue and the load balancer: active pipes come first in the array,
    `current` is the place of the next one to serve, and a pipe that cannot be served is swapped behind
    the active ones. */
module RoundRobin {
  import opened YPipes
  import opened PipeArrays

  datatype Ring = Ring(pipes: seq<PipeId>, active: nat, current: nat, more: bool)

  const EMPTY := Ring([], 0, 0, false)

  predicate InRange(r: Ring) {
    r.active <= |r.pipes| && if r.active == 0 then r.current == 0 else r.current < r.active
  }

  ghost predicate Valid(r: Ring) {
    Distinct(r.pipes) && InRange(r)
  }

  /** Push the pipe at the end and make it active. */
  function Attach(r: Ring, p: PipeId): Ring
    requires InRange(r)
  {
    r.(pipes := Swapped(r.pipes + [p], r.active, |r.pipes|), active := r.active + 1)
  }

  /** The passive pipe in place i can be served again. */
  function Activated(r: Ring, i: nat): Ring
    requires InRange(r) && r.active <= i < |r.pipes|
  {
    r.(pipes := Swapped(r.pipes, i, r.active), active := r.active + 1)
  }

  /** The active pipe in place i becomes passive. */
  function Retired(r: Ring, i: nat): Ring
    requires InRange(r) && i < r.active
  {
    r.(pipes := Swapped(r.pipes, i, r.active - 1), active := r.active - 1,
      current := if r.current == r.active - 1 then 0 else r.current)
  }

  /** The pipe in place i goes. */
  function Terminated(r: Ring, i: nat): Ring
    requires InRange(r) && i < |r.pipes|
  {
    if i < r.active then
      var r1 := Retired(r, i);
      r1.(pipes := Erased(r1.pipes, r.active - 1))
    else r.(pipes := Erased(r.pipes, i))
  }

  /** Retire pipes until the current one is ready. */
  function Skip(r: Ring, ready: set<PipeId>): (r': Ring)
    requires InRange(r)
    ensures InRange(r') && r'.active <= r.active && r'.more == r.more && |r'.pipes| == |r.pipes|
    ensures r'.active > 0 ==> r'.pipes[r'.current] in ready
    decreases r.active
  {
    if r.active == 0 || r.pipes[r.current] in ready then r else Skip(Retired(r, r.current), ready)
  }

  /** The place after c among the first a. */
  function Following(c: nat, a: nat): (r: nat)
    requires c < a
    ensures r == if c + 1 == a then 0 else c + 1
  {
    (c + 1) % a
  }

  /** After a part of a message of the current pipe; the last part moves on. */
  function Advance(r: Ring, more: bool): Ring
    requires InRange(r) && r.active > 0
  {
    r.(more := more, current := if more then r.current else Following(r.current, r.active))
  }

  datatype Outcome = Served(p: PipeId) | Again | Broken

  /** Serve the next part: fetch it from a pipe, or write it to one. The program's assertion is broken if
      the rest of a message is not there to be fetched, or cannot be written. */
  function Serve(r: Ring, ready: set<PipeId>, more: bool): (Ring, Outcome)
    requires InRange(r)
  {
    if r.more && r.active > 0 && r.pipes[r.current] !in ready then (r, Broken)
    else
      var r1 := Skip(r, ready);
      if r1.active == 0 then (r1, Again) else (Advance(r1, more), Served(r1.pipes[r1.current]))
  }

  /** The test whether anything can be served. */
  function Probe(r: Ring, ready: set<PipeId>): (Ring, bool)
    requires InRange(r)
  {
    if r.more then (r, true) else (Skip(r, ready), Skip(r, ready).active > 0)
  }

  // ---- the array ----

  /** Two arrays hold the same pipes. */
  ghost predicate SamePipes(s: seq<PipeId>, t: seq<PipeId>) {
    |s| == |t| && forall p :: p in s <==> p in t
  }

  lemma SwapSame(s: seq<PipeId>, i: nat, j: nat)
    requires Distinct(s) && i < |s| && j < |s|
    ensures Distinct(Swapped(s, i, j)) && SamePipes(s, Swapped(s, i, j))
  {
    var t := Swapped(s, i, j);
    SwapDistinct(s, i, j);
    forall p ensures p in s <==> p in t {
      if p in s {
        var a :| 0 <= a < |s| && s[a] == p;
        assert t[if a == i then j else if a == j then i else a] == p;
      }
      if p in t {
        var a :| 0 <= a < |t| && t[a] == p;
        assert s[if a == i then j else if a == j then i else a] == p;
      }
    }
  }

  // ---- answers ----

  /** An active pipe is ready. */
  ghost predicate SomeReady(r: Ring, ready: set<PipeId>) {
    exists i :: 0 <= i < r.active <= |r.pipes| && r.pipes[i] in ready
  }

  /** Retiring a pipe that is not ready does not change whether one is. */
  lemma RetireUnready(r: Ring, ready: set<PipeId>)
    requires Valid(r) && r.active > 0 && r.pipes[r.current] !in ready
    ensures SomeReady(r, ready) <==> SomeReady(Retired(r, r.current), ready)
  {
    var r' := Retired(r, r.current);
    if i :| 0 <= i < r.active && r.pipes[i] in ready {
      assert r'.pipes[if i == r.active - 1 then r.current else i] == r.pipes[i];
    }
    if i :| 0 <= i < r'.active && r'.pipes[i] in ready {
      assert r.pipes[if i == r.current then r.active - 1 else i] == r'.pipes[i];
    }
  }

  /** Skipping stops at a ready pipe if an active one is ready, and retires all otherwise. */
  lemma {:induction false} SkipFinds(r: Ring, ready: set<PipeId>)
    requires Valid(r)
    ensures Skip(r, ready).active > 0 <==> SomeReady(r, ready)
    decreases r.active
  {
    if r.active > 0 && r.pipes[r.current] in ready {
      assert SomeReady(r, ready);
    } else if r.active > 0 {
      RetireUnready(r, ready);
      SwapSame(r.pipes, r.current, r.active - 1);
      SkipFinds(Retired(r, r.current), ready);
    }
  }

  /** The answer of a probe: in the middle of a message, or an active pipe is ready. It is true exactly when something can
      be served next. */
  lemma ProbeAnswer(r: Ring, ready: set<PipeId>, more: bool)
    requires Valid(r)
    ensures Probe(r, ready).1 <==> r.more || SomeReady(r, ready)
    ensures !r.more ==> (Probe(r, ready).1 <==> Serve(Probe(r, ready).0, ready, more).1.Served?)
    ensures !r.more ==> (Probe(r, ready).1 <==> Serve(r, ready, more).1.Served?)
  {
    SkipFinds(r, ready);
  }

  /** What serving answers: the pipe of an unfinished message, or else some ready active pipe if there is one; the
      assertion is broken if the pipe of an unfinished message is not ready. */
  lemma ServeAnswer(r: Ring, ready: set<PipeId>, more: bool)
    requires Valid(r)
    ensures var o := Serve(r, ready, more).1;
      && (o.Broken? <==> r.more && r.active > 0 && r.pipes[r.current] !in ready)
      && (o.Again? <==> !SomeReady(r, ready) && !o.Broken?)
      && (o.Served? ==> o.p in ready && o.p in r.pipes[..r.active])
      && (r.active > 0 && r.pipes[r.current] in ready ==> o == Served(r.pipes[r.current]))
  {
    SkipFinds(r, ready);
    SkipPicks(r, ready);
    if r.more && r.active > 0 && r.pipes[r.current] in ready {
      assert SomeReady(r, ready);
    }
  }

  /** The pipe that skipping stops at was active before. */
  lemma {:induction false} SkipPicks(r: Ring, ready: set<PipeId>)
    requires Valid(r)
    ensures var r' := Skip(r, ready); r'.active > 0 ==> r'.pipes[r'.current] in r.pipes[..r.active]
    decreases r.active
  {
    if r.active > 0 && r.pipes[r.current] !in ready {
      var r1 := Retired(r, r.current);
      SwapSame(r.pipes, r.current, r.active - 1);
      SkipPicks(r1, ready);
      assert forall i :: 0 <= i < r1.active ==> r1.pipes[i] == r.pipes[if i == r.current then r.active - 1 else i];
    }
  }

  // ---- bounded waiting ----

  /** x is active, in place i. */
  predicate Active(r: Ring, x: PipeId, i: nat) {
    i < r.active <= |r.pipes| && r.pipes[i] == x
  }

  /** How far place i is ahead of the current place, counting all attached pipes. */
  function Distance(r: Ring, i: nat): int {
    if i >= r.current then i - r.current else |r.pipes| - r.current + i
  }

  lemma RetireOther(r: Ring, x: PipeId, i: nat) returns (i': nat)
    requires Valid(r) && Active(r, x, i) && r.pipes[r.current] != x
    ensures var r' := Retired(r, r.current);
      Valid(r') && SamePipes(r.pipes, r'.pipes) && Active(r', x, i') && Distance(r', i') <= Distance(r, i)
  {
    SwapSame(r.pipes, r.current, r.active - 1);
    i' := if i == r.active - 1 then r.current else i;
  }

  lemma {:induction false} SkipOthers(r: Ring, ready: set<PipeId>, x: PipeId, i: nat) returns (i': nat)
    requires Valid(r) && Active(r, x, i) && x in ready
    ensures var r' := Skip(r, ready);
      Valid(r') && SamePipes(r.pipes, r'.pipes) && Active(r', x, i') && Distance(r', i') <= Distance(r, i)
    decreases r.active
  {
    if r.pipes[r.current] in ready {
      i' := i;
    } else {
      i' := RetireOther(r, x, i);
      i' := SkipOthers(Retired(r, r.current), ready, x, i');
    }
  }

  lemma AdvanceNearer(r: Ring, x: PipeId, i: nat, more: bool)
    requires Valid(r) && Active(r, x, i) && r.pipes[r.current] != x
    ensures var r' := Advance(r, more);
      Valid(r') && Active(r', x, i) && Distance(r', i) <= Distance(r, i) - (if more then 0 else 1)
  {
    hide Following;
  }

  /** A pipe that is activated is active, behind the other active pipes, and none of them has to wait longer. */
  lemma ActivatedKeeps(r: Ring, j: nat)
    requires Valid(r) && r.active <= j < |r.pipes|
    ensures var r' := Activated(r, j);
      && Valid(r') && SamePipes(r.pipes, r'.pipes) && Active(r', r.pipes[j], r.active)
      && Distance(r', r.active) == r.active - r.current
      && (forall i :: 0 <= i < r.active ==> Active(r', r.pipes[i], i) && Distance(r', i) == Distance(r, i))
  {
    SwapSame(r.pipes, j, r.active);
  }

  /** A pipe that is attached is active, behind the other active pipes; those before the current place have to let it
      pass once. */
  lemma AttachKeeps(r: Ring, p: PipeId)
    requires Valid(r) && p !in r.pipes
    ensures var r' := Attach(r, p);
      && Valid(r') && |r'.pipes| == |r.pipes| + 1 && (forall q :: q in r'.pipes <==> q in r.pipes || q == p)
      && Active(r', p, r.active) && Distance(r', r.active) == r.active - r.current
      && (forall i :: 0 <= i < r.active ==>
        Active(r', r.pipes[i], i) && Distance(r', i) == Distance(r, i) + if i < r.current then 1 else 0)
  {
    PushDistinct(r.pipes, p);
    SwapSame(r.pipes + [p], r.active, |r.pipes|);
    assert forall q :: q in r.pipes + [p] <==> q in r.pipes || q == p;
  }

  /** What happens to a ring whose pipes stay attached. */
  datatype Event = DoServe(ready: set<PipeId>, more: bool) | DoProbe(ready: set<PipeId>) | DoActivate(i: nat)

  predicate Enabled(r: Ring, e: Event) {
    InRange(r) && (e.DoActivate? ==> r.active <= e.i < |r.pipes|)
  }

  function Step(r: Ring, e: Event): (Ring, Outcome)
    requires Enabled(r, e)
  {
    match e
    case DoServe(ready, more) => Serve(r, ready, more)
    case DoProbe(ready) => (Probe(r, ready).0, Again)
    case DoActivate(i) => (Activated(r, i), Again)
  }

  /** Every event can happen, and x can be served throughout. */
  predicate Waiting(r: Ring, es: seq<Event>, x: PipeId)
    decreases |es|
  {
    es == [] || (
      && Enabled(r, es[0]) && (!es[0].DoActivate? ==> x in es[0].ready)
      && Waiting(Step(r, es[0]).0, es[1..], x))
  }

  /** The complete messages of others that are served before x is. */
  function OthersFirst(r: Ring, es: seq<Event>, x: PipeId): nat
    requires Waiting(r, es, x)
    decreases |es|
  {
    if es == [] || Step(r, es[0]).1 == Served(x) then 0
    else (if Step(r, es[0]).1.Served? && !es[0].more then 1 else 0) + OthersFirst(Step(r, es[0]).0, es[1..], x)
  }

  lemma StepNearer(r: Ring, e: Event, x: PipeId, i: nat) returns (i': nat)
    requires Valid(r) && Active(r, x, i) && Enabled(r, e) && (!e.DoActivate? ==> x in e.ready)
    requires Step(r, e).1 != Served(x)
    ensures var (r', o) := Step(r, e);
      && Valid(r') && SamePipes(r.pipes, r'.pipes) && Active(r', x, i')
      && Distance(r', i') <= Distance(r, i) - (if o.Served? && !e.more then 1 else 0)
  {
    i' := i;
    match e
    case DoActivate(j) => ActivatedKeeps(r, j);
    case DoProbe(ready) =>
      if !r.more {
        i' := SkipOthers(r, ready, x, i);
      }
    case DoServe(ready, more) =>
      if !(r.more && r.pipes[r.current] !in ready) {
        i' := SkipOthers(r, ready, x, i);
        AdvanceNearer(Skip(r, ready), x, i', more);
      }
  }

  /** Bounded waiting: an active pipe that can be served is served after at most n - 1 complete messages of
      the other n - 1 pipes, whatever is deactivated and activated meanwhile. */
  lemma {:induction false} BoundedWaiting(r: Ring, es: seq<Event>, x: PipeId, i: nat)
    requires Valid(r) && Active(r, x, i) && Waiting(r, es, x)
    ensures OthersFirst(r, es, x) <= Distance(r, i) <= |r.pipes| - 1
    decreases |es|
  {
    if es != [] && Step(r, es[0]).1 != Served(x) {
      var i' := StepNearer(r, es[0], x, i);
      BoundedWaiting(Step(r, es[0]).0, es[1..], x, i');
    }
  }

  /** An activated pipe that can be served from then on is served after at most the messages of the pipes that were
      active from the current place on. */
  lemma ActivatedIsServed(r: Ring, j: nat, es: seq<Event>)
    requires Valid(r) && r.active <= j < |r.pipes| && Waiting(Activated(r, j), es, r.pipes[j])
    ensures OthersFirst(Activated(r, j), es, r.pipes[j]) <= r.active - r.current <= |r.pipes| - 1
  {
    ActivatedKeeps(r, j);
    BoundedWaiting(Activated(r, j), es, r.pipes[j], r.active);
  }

  /** The same for a pipe that was attached. */
  lemma AttachedIsServed(r: Ring, p: PipeId, es: seq<Event>)
    requires Valid(r) && p !in r.pipes && Waiting(Attach(r, p), es, p)
    ensures OthersFirst(Attach(r, p), es, p) <= r.active - r.current <= |r.pipes|
  {
    AttachKeeps(r, p);
    BoundedWaiting(Attach(r, p), es, p, r.active);
  }

  /** As long as x can be served, something is served: x itself when it is at distance 0. */
  lemma SomethingServed(r: Ring, ready: set<PipeId>, more: bool, x: PipeId, i: nat)
    requires Valid(r) && Active(r, x, i) && x in ready
    ensures Serve(r, ready, more).1.Again? == false
    ensures Serve(r, ready, more).1.Broken? <==> r.more && r.pipes[r.current] !in ready
    ensures Distance(r, i) == 0 ==> Serve(r, ready, more).1 == Served(x)
  {
    var i' := SkipOthers(r, ready, x, i);
  }

  /** k complete messages are asked for while everything can be served. */
  function Rounds(all: set<PipeId>, k: nat): seq<Event> {
    if k == 0 then [] else [DoServe(all, false)] + Rounds(all, k - 1)
  }

  /** The bound is exact: when all pipes are active and can be served all the time, a pipe waits for as many messages
      as its distance, so the pipe just behind the current one waits for everybody else. */
  lemma {:induction false} WaitIsExact(r: Ring, all: set<PipeId>, x: PipeId, i: nat, k: nat)
    requires Valid(r) && !r.more && r.active == |r.pipes| && Active(r, x, i) && k > Distance(r, i)
    requires forall p :: p in r.pipes ==> p in all
    ensures Waiting(r, Rounds(all, k), x) && OthersFirst(r, Rounds(all, k), x) == Distance(r, i)
    decreases k
  {
    var e, es := DoServe(all, false), Rounds(all, k);
    assert r.pipes[r.current] in r.pipes && x in r.pipes;
    assert es[0] == e && es[1..] == Rounds(all, k - 1);
    var r' := Step(r, e).0;
    assert r' == Advance(r, false) && Step(r, e).1 == Served(r.pipes[r.current]);
    if r.current == i {
      AllWaiting(r', all, x, k - 1);
    } else {
      WaitIsExact(r', all, x, i, k - 1);
    }
  }

  lemma {:induction false} AllWaiting(r: Ring, all: set<PipeId>, x: PipeId, k: nat)
    requires Valid(r) && !r.more && r.active == |r.pipes| > 0 && x in all
    requires forall p :: p in r.pipes ==> p in all
    ensures Waiting(r, Rounds(all, k), x)
    decreases k
  {
    if k > 0 {
      assert Rounds(all, k)[1..] == Rounds(all, k - 1);
      assert r.pipes[r.current] in r.pipes;
      AllWaiting(Step(r, DoServe(all, false)).0, all, x, k - 1);
    }
  }

  // ---- messages stay together ----

  predicate AllEnabled(r: Ring, es: seq<Event>)
    decreases |es|
  {
    es == [] || (Enabled(r, es[0]) && AllEnabled(Step(r, es[0]).0, es[1..]))
  }

  /** The first pipe served in a run. */
  function FirstServed(r: Ring, es: seq<Event>): Option<PipeId>
    requires AllEnabled(r, es)
    decreases |es|
  {
    if es == [] then None
    else if Step(r, es[0]).1.Served? then Some(Step(r, es[0]).1.p)
    else FirstServed(Step(r, es[0]).0, es[1..])
  }

  lemma {:induction false} NextIsCurrent(r: Ring, es: seq<Event>)
    requires Valid(r) && r.more && r.active > 0 && AllEnabled(r, es)
    ensures FirstServed(r, es) == None || FirstServed(r, es) == Some(r.pipes[r.current])
    decreases |es|
  {
    if es != [] && !Step(r, es[0]).1.Served? {
      if es[0].DoActivate? {
        SwapSame(r.pipes, es[0].i, r.active);
      }
      NextIsCurrent(Step(r, es[0]).0, es[1..]);
    }
  }

  lemma UnfinishedStaysCurrent(r: Ring, ready: set<PipeId>)
    requires Valid(r) && Serve(r, ready, true).1.Served?
    ensures var (r', o) := Serve(r, ready, true); Valid(r') && r'.more && r'.active > 0 && r'.pipes[r'.current] == o.p
  {
    SkipSame(r, ready);
  }

  /** Messages stay together: after a part that is not the last one, whatever happens short of removing a pipe, the
      next part served comes from (goes to) the same pipe. */
  lemma PartsTogether(r: Ring, ready: set<PipeId>, es: seq<Event>)
    requires Valid(r) && Serve(r, ready, true).1.Served? && AllEnabled(Serve(r, ready, true).0, es)
    ensures var (r', o) := Serve(r, ready, true); FirstServed(r', es) == None || FirstServed(r', es) == Some(o.p)
  {
    UnfinishedStaysCurrent(r, ready);
    NextIsCurrent(Serve(r, ready, true).0, es);
  }

  // ---- removal ----

  /** Removing another pipe keeps the current one current unless the current one is the last active pipe and
      the removed one, being active, is not the first. */
  lemma RemovalKeepsCurrent(r: Ring, i: nat)
    requires Valid(r) && r.active > 0 && i < |r.pipes| && i != r.current
    ensures var r' := Terminated(r, i);
      && InRange(r') && r'.active > 0
      && (r'.pipes[r'.current] == r.pipes[r.current] <==> !(0 < i < r.active && r.current == r.active - 1))
  {
    var r' := Terminated(r, i);
    if i < r.active {
      if r.current == r.active - 1 {
        assert Swapped(r.pipes, i, r.active - 1)[0] == if i == 0 then r.pipes[r.current] else r.pipes[0];
      }
    }
  }

  /** Three pipes, two messages served, the third pipe in mid-message, and the second is removed: the next part is one of
      the first pipe. */
  lemma RemovalMixesMessages(a: PipeId, b: PipeId, c: PipeId)
    requires a != b && a != c && b != c
    ensures var all := {a, b, c};
      var r0 := Attach(Attach(Attach(EMPTY, a), b), c);
      var r2 := Serve(Serve(r0, all, false).0, all, false).0;
      var (r3, o) := Serve(r2, all, true);
      o == Served(c) && r3.more && r3.pipes[1] == b && Serve(Terminated(r3, 1), all, false).1 == Served(a)
  {
    var all := {a, b, c};
    assert Attach(EMPTY, a) == Ring([a], 1, 0, false);
    assert Attach(Ring([a], 1, 0, false), b) == Ring([a, b], 2, 0, false);
    assert Attach(Ring([a, b], 2, 0, false), c) == Ring([a, b, c], 3, 0, false);
    assert Serve(Ring([a, b, c], 3, 0, false), all, false).0 == Ring([a, b, c], 3, 1, false);
    assert Serve(Ring([a, b, c], 3, 1, false), all, false).0 == Ring([a, b, c], 3, 2, false);
    var r3 := Ring([a, b, c], 3, 2, true);
    assert Serve(Ring([a, b, c], 3, 2, false), all, true) == (r3, Served(c));
    assert Retired(r3, 1).pipes == [a, c, b];
    assert Terminated(r3, 1) == Ring([a, c], 2, 0, true);
  }

  lemma RemovalKeeps(r: Ring, i: nat)
    requires Valid(r) && i < |r.pipes|
    ensures var r' := Terminated(r, i); Valid(r') && forall p :: p in r'.pipes <==> p in r.pipes && p != r.pipes[i]
  {
    if i < r.active {
      SwapSame(r.pipes, i, r.active - 1);
      EraseFront(Swapped(r.pipes, i, r.active - 1), r.active - 1, 0);
    } else {
      EraseFront(r.pipes, i, 0);
    }
  }

  /** The other pipes stay active, or passive. */
  lemma RemovalKeepsActive(r: Ring, i: nat, x: PipeId)
    requires Valid(r) && i < |r.pipes| && x in r.pipes && x != r.pipes[i]
    ensures var r' := Terminated(r, i);
      && r'.more == r.more && r'.active == (if i < r.active then r.active - 1 else r.active) <= |r'.pipes|
      && (x in r'.pipes[..r'.active] <==> x in r.pipes[..r.active])
  {
    if i < r.active {
      RemovalOfActive(r.pipes, r.active, i, x);
    } else {
      EraseFront(r.pipes, i, r.active);
      assert Front(Erased(r.pipes, i), r.active) == Front(r.pipes, r.active);
    }
  }

  lemma RemovalOfActive(s: seq<PipeId>, a: nat, i: nat, x: PipeId)
    requires Distinct(s) && i < a <= |s| && x != s[i]
    ensures var t := Erased(Swapped(s, i, a - 1), a - 1);
      a - 1 <= |t| && (x in t[..a - 1] <==> x in s[..a])
  {
    var u := Swapped(s, i, a - 1);
    SwapDistinct(s, i, a - 1);
    SwapFront(s, i, a - 1, a);
    EraseFront(u, a - 1, a - 1);
    FrontStep(u, a - 1);
    assert u[a - 1] == s[i];
    assert x in Front(Erased(u, a - 1), a - 1) <==> x in Front(u, a - 1);
    assert x in Front(u, a) <==> x in Front(u, a - 1);
    hide Swapped, Erased;
  }

  /** When nothing can be served the rotation starts over at the first place. */
  lemma {:induction false} NothingStartsOver(r: Ring, ready: set<PipeId>)
    requires Valid(r) && forall p :: p in ready ==> p !in r.pipes
    ensures Skip(r, ready).active == 0 && Skip(r, ready).current == 0
    decreases r.active
  {
    if r.active > 0 {
      SwapSame(r.pipes, r.current, r.active - 1);
      NothingStartsOver(Retired(r, r.current), ready);
    }
  }

  lemma {:induction false} SkipSame(r: Ring, ready: set<PipeId>)
    requires Valid(r)
    ensures Valid(Skip(r, ready)) && SamePipes(r.pipes, Skip(r, ready).pipes)
    decreases r.active
  {
    if r.active > 0 && r.pipes[r.current] !in ready {
      SwapSame(r.pipes, r.current, r.active - 1);
      SkipSame(Retired(r, r.current), ready);
    }
  }
}
