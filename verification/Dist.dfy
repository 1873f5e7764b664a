/** The distributor: it sends each part of a message to the matching pipes, and keeps the pipes
    partitioned in one array: matching, active, eligible and passive pipes, in this order. */
module Distribution {
  import opened PipeArrays

  // ---- what pipes get ----

  /** Part number `no` of message number `msg`. */
  datatype Part = Part(msg: nat, no: nat, more: bool)

  predicate Follows(a: Part, b: Part) {
    if b.no == 0 then a.msg < b.msg else a.msg == b.msg && a.no + 1 == b.no && a.more
  }

  /** No part without the parts before it, and nothing twice. */
  predicate Ordered(l: seq<Part>) {
    && (l != [] ==> l[0].no == 0)
    && forall i :: 0 < i < |l| ==> Follows(l[i - 1], l[i])
  }

  /** The next part is part `no` of message `msg`. */
  predicate Past(l: seq<Part>, msg: nat, no: nat) {
    l != [] ==> var z := l[|l| - 1]; z.msg < msg || (z.msg == msg && z.no < no)
  }

  /** The part of message `msg` before part `no` is the last one in the log. */
  predicate UpToDate(l: seq<Part>, msg: nat, no: nat) {
    l != [] && var z := l[|l| - 1]; z.msg == msg && z.no + 1 == no && z.more
  }

  lemma NextPart(l: seq<Part>, part: Part)
    requires Ordered(l) && Past(l, part.msg, part.no)
    requires part.no > 0 ==> UpToDate(l, part.msg, part.no)
    ensures Ordered(l + [part])
    ensures part.more ==> UpToDate(l + [part], part.msg, part.no + 1) && Past(l + [part], part.msg, part.no + 1)
    ensures !part.more ==> Past(l + [part], part.msg + 1, 0)
  {
    var l' := l + [part];
    forall i | 0 < i < |l'| ensures Follows(l'[i - 1], l'[i]) {
      if i < |l| {
        assert l'[i] == l[i] && l'[i - 1] == l[i - 1];
      }
    }
  }

  // ---- leaving a front ----

  /** Exchange place i and the last place of the front of k: a front that then gives up its last place
      has lost the pipe that was in place i, and no front around or before the two has changed. */
  lemma Retire(s: seq<PipeId>, i: nat, k: nat)
    requires Distinct(s) && i < k <= |s|
    ensures var t := Swapped(s, i, k - 1);
      && |t| == |s| && Distinct(t) && t[k - 1] == s[i]
      && Front(t, k - 1) == Front(s, k) - {s[i]}
      && (forall j :: k <= j <= |s| ==> Front(t, j) == Front(s, j))
      && (forall j :: 0 <= j <= i ==> Front(t, j) == Front(s, j))
  {
    var t := Swapped(s, i, k - 1);
    SwapDistinct(s, i, k - 1);
    SwapFront(s, i, k - 1, k);
    FrontStep(t, k - 1);
    forall j | k <= j <= |s| || 0 <= j <= i ensures Front(t, j) == Front(s, j) {
      SwapFront(s, i, k - 1, j);
    }
  }

  /** After a failed write the pipe in place i has gone from the matching pipes behind the eligible
      ones. */
  function Demoted(s: seq<PipeId>, i: nat, m: nat, a: nat, e: nat): (t: seq<PipeId>)
    requires i < m <= a <= e <= |s|
    ensures |t| == |s|
  {
    Swapped(Swapped(Swapped(s, i, m - 1), m - 1, a - 1), a - 1, e - 1)
  }

  lemma DemotedFronts(s: seq<PipeId>, i: nat, m: nat, a: nat, e: nat)
    requires Distinct(s) && i < m <= a <= e <= |s|
    ensures var t := Demoted(s, i, m, a, e);
      && Distinct(t)
      && Front(t, m - 1) == Front(s, m) - {s[i]}
      && Front(t, a - 1) == Front(s, a) - {s[i]}
      && Front(t, e - 1) == Front(s, e) - {s[i]}
      && Front(t, |s|) == Front(s, |s|) && Front(t, i) == Front(s, i)
  {
    hide Front, Distinct;
    Retire(s, i, m);
    var s1 := Swapped(s, i, m - 1);
    Retire(s1, m - 1, a);
    var s2 := Swapped(s1, m - 1, a - 1);
    Retire(s2, a - 1, e);
    hide Swapped;
  }

  /** Exchange place i and place k: a front that then takes place k has gained the pipe that was in
      place i. */
  lemma Promote(s: seq<PipeId>, i: nat, k: nat)
    requires Distinct(s) && k <= i < |s|
    ensures var t := Swapped(s, i, k);
      && |t| == |s| && Distinct(t) && t[k] == s[i]
      && Front(t, k + 1) == Front(s, k) + {s[i]}
      && (forall j :: i < j <= |s| ==> Front(t, j) == Front(s, j))
      && (forall j :: 0 <= j <= k ==> Front(t, j) == Front(s, j))
  {
    var t := Swapped(s, i, k);
    assert t == Swapped(s, k, i);
    SwapDistinct(s, k, i);
    FrontStep(t, k);
    forall j | i < j <= |s| || 0 <= j <= k ensures Front(t, j) == Front(s, j) {
      SwapFront(s, k, i, j);
    }
  }

  /** A new pipe at the end is exchanged with place k. */
  lemma Arrive(s: seq<PipeId>, p: PipeId, k: nat, j1: nat, j2: nat)
    requires Distinct(s + [p]) && j1 <= k <= |s| && j2 <= k
    ensures var t := Swapped(s + [p], k, |s|);
      && |t| == |s| + 1 && Distinct(t)
      && Front(t, k + 1) == Front(s, k) + {p} && Front(t, |t|) == Front(s, |s|) + {p}
      && Front(t, j1) == Front(s, j1) && Front(t, j2) == Front(s, j2)
  {
    var s1 := s + [p];
    var t := Swapped(s1, k, |s|);
    assert t == Swapped(s1, |s|, k);
    Promote(s1, |s|, k);
    PushFront(s, p, j1);
    PushFront(s, p, j2);
    PushFront(s, p, k);
    PushFront(s, p, |s|);
    FrontStep(s1, |s|);
  }

  lemma EraseFronts(s: seq<PipeId>, i: nat, m: nat, a: nat, e: nat)
    requires Distinct(s) && m <= a <= e <= i < |s|
    ensures var t := Erased(s, i);
      && Distinct(t) && e <= |t| && Front(t, m) == Front(s, m) && Front(t, a) == Front(s, a) && Front(t, e) == Front(s, e)
      && Front(t, |t|) == Front(s, |s|) - {s[i]}
  {
    var t := Erased(s, i);
    EraseFront(s, i, m);
    EraseFront(s, i, a);
    EraseFront(s, i, e);
    forall p ensures p in Front(t, |t|) <==> p in Front(s, |s|) - {s[i]} {
      FrontAll(t, p);
      FrontAll(s, p);
    }
  }

  // ---- logs ----

  /** What was written to each pipe, before and after `part` went to the pipes in `to`. */
  ghost predicate Logged(log: map<PipeId, seq<Part>>, log': map<PipeId, seq<Part>>, to: set<PipeId>, part: Part) {
    && log'.Keys == log.Keys
    && forall p :: p in log ==> log'[p] == if p in to then log[p] + [part] else log[p]
  }

  /** How much of each log was flushed, before and after: a last part is flushed at once. */
  ghost predicate Flushed(flushed: map<PipeId, nat>, flushed': map<PipeId, nat>, log': map<PipeId, seq<Part>>, to: set<PipeId>, part: Part) {
    && flushed'.Keys == flushed.Keys == log'.Keys
    && forall p :: p in flushed ==> flushed'[p] == if p in to && !part.more then |log'[p]| else flushed[p]
  }

  /** Each of the pipes was tried once. */
  ghost predicate Once(tried: seq<PipeId>, all: set<PipeId>) {
    Distinct(tried) && forall p :: p in tried <==> p in all
  }

  /** What the next part is numbered once this one is sent. */
  function NextMsg(part: Part): nat {
    if part.more then part.msg else part.msg + 1
  }

  function NextNo(part: Part): nat {
    if part.more then part.no + 1 else 0
  }

  ghost predicate GoodLogs(log: map<PipeId, seq<Part>>, msg: nat, no: nat) {
    forall p :: p in log ==> Ordered(log[p]) && Past(log[p], msg, no)
  }

  ghost predicate AllUpToDate(log: map<PipeId, seq<Part>>, to: set<PipeId>, msg: nat, no: nat) {
    forall p :: p in to && p in log ==> UpToDate(log[p], msg, no)
  }

  lemma NewLog(log: map<PipeId, seq<Part>>, p: PipeId, to: set<PipeId>, msg: nat, no: nat)
    requires GoodLogs(log, msg, no) && p !in to
    ensures GoodLogs(log[p := []], msg, no)
    ensures AllUpToDate(log, to, msg, no) ==> AllUpToDate(log[p := []], to, msg, no)
  {
  }

  lemma StillUpToDate(log: map<PipeId, seq<Part>>, to: set<PipeId>, fewer: set<PipeId>, msg: nat, no: nat)
    requires AllUpToDate(log, to, msg, no) && fewer <= to
    ensures AllUpToDate(log, fewer, msg, no)
  {
  }

  lemma LogsGrow(log: map<PipeId, seq<Part>>, log': map<PipeId, seq<Part>>, to: set<PipeId>, part: Part)
    requires GoodLogs(log, part.msg, part.no) && Logged(log, log', to, part)
    requires part.no > 0 ==> AllUpToDate(log, to, part.msg, part.no)
    ensures GoodLogs(log', NextMsg(part), NextNo(part))
    ensures part.more ==> AllUpToDate(log', to, NextMsg(part), NextNo(part))
  {
    forall p | p in log'
      ensures Ordered(log'[p]) && Past(log'[p], NextMsg(part), NextNo(part))
      ensures part.more && p in to ==> UpToDate(log'[p], NextMsg(part), NextNo(part))
    {
      if p in to {
        NextPart(log[p], part);
      }
    }
  }

  // ---- the distributor ----

  /** `log` is what was written to each pipe, `flushed` how much of it the pipe's reader may see. */
  datatype Dist = Dist(items: seq<PipeId>, matching: nat, active: nat, eligible: nat, more: bool,
    log: map<PipeId, seq<Part>>, flushed: map<PipeId, nat>)

  const EMPTY := Dist([], 0, 0, 0, false, map[], map[])

  /** The partition is in order, and every pipe has a log. */
  ghost predicate Parted(d: Dist) {
    && Distinct(d.items) && d.matching <= d.active <= d.eligible <= |d.items|
    && d.flushed.Keys == d.log.Keys && Front(d.items, |d.items|) <= d.log.Keys
  }

  ghost function Matching(d: Dist): set<PipeId>
    requires Parted(d)
  {
    Front(d.items, d.matching)
  }

  ghost function Active(d: Dist): set<PipeId>
    requires Parted(d)
  {
    Front(d.items, d.active)
  }

  ghost function Eligible(d: Dist): set<PipeId>
    requires Parted(d)
  {
    Front(d.items, d.eligible)
  }

  ghost function All(d: Dist): set<PipeId>
    requires Parted(d)
  {
    Front(d.items, |d.items|)
  }

  /** The next part is part `no` of message `msg`, which goes to all pipes if `viaAll` and to the
      matching pipes otherwise. */
  datatype Clock = Clock(msg: nat, no: nat, viaAll: bool)

  /** Between messages every eligible pipe is active. Within a message, the pipes that the next part
      can go to have got the part before it. No pipe has got a part without the parts before it. */
  ghost predicate Valid(d: Dist, c: Clock) {
    && Parted(d) && (!d.more ==> d.active == d.eligible) && (d.more <==> c.no > 0)
    && GoodLogs(d.log, c.msg, c.no)
    && (d.more ==> AllUpToDate(d.log, if c.viaAll then Active(d) else Matching(d), c.msg, c.no))
  }

  // ---- pipes come and go ----

  function Attach(d: Dist, p: PipeId): Dist
    requires d.active <= |d.items| && d.eligible <= |d.items|
  {
    var d1 := d.(items := d.items + [p], log := d.log[p := []], flushed := d.flushed[p := 0]);
    if d.more then d1.(items := Swapped(d1.items, d.eligible, |d.items|), eligible := d.eligible + 1)
    else d1.(items := Swapped(d1.items, d.active, |d.items|), active := d.active + 1, eligible := d.eligible + 1)
  }

  /** Mark the pipe in place i. */
  function Match(d: Dist, i: nat): Dist
    requires i < |d.items| && d.matching <= d.eligible <= |d.items|
  {
    if i < d.matching || i >= d.eligible then d
    else d.(items := Swapped(d.items, i, d.matching), matching := d.matching + 1)
  }

  function Unmatch(d: Dist): Dist {
    d.(matching := 0)
  }

  /** The passive pipe in place i can take messages again. */
  function Activated(d: Dist, i: nat): Dist
    requires d.active <= d.eligible <= i < |d.items|
  {
    var d1 := d.(items := Swapped(d.items, i, d.eligible), eligible := d.eligible + 1);
    if d.more then d1 else d1.(items := Swapped(d1.items, d.eligible, d.active), active := d.active + 1)
  }

  function LeaveMatching(d: Dist, i: nat): Dist
    requires i < |d.items| && d.matching <= |d.items|
  {
    if i < d.matching then d.(items := Swapped(d.items, i, d.matching - 1), matching := d.matching - 1) else d
  }

  function LeaveActive(d: Dist, i: nat): Dist
    requires i < |d.items| && d.active <= |d.items|
  {
    if i < d.active then d.(items := Swapped(d.items, i, d.active - 1), active := d.active - 1) else d
  }

  function LeaveEligible(d: Dist, i: nat): Dist
    requires i < |d.items| && d.eligible <= |d.items|
  {
    if i < d.eligible then d.(items := Swapped(d.items, i, d.eligible - 1), eligible := d.eligible - 1) else d
  }

  /** The place of a pipe that was in place i, after it left a front of k. */
  function Left(i: nat, k: nat): nat {
    if i < k then k - 1 else i
  }

  /** The pipe in place i terminated. */
  function Terminated(d: Dist, i: nat): Dist
    requires i < |d.items| && d.matching <= d.active <= d.eligible <= |d.items|
  {
    var d1 := LeaveMatching(d, i);
    var i1 := Left(i, d.matching);
    var d2 := LeaveActive(d1, i1);
    var i2 := Left(i1, d.active);
    var d3 := LeaveEligible(d2, i2);
    d3.(items := Erased(d3.items, Left(i2, d.eligible)))
  }

  lemma AttachFronts(d: Dist, p: PipeId)
    requires Parted(d) && p !in All(d) && (!d.more ==> d.active == d.eligible)
    ensures var d' := Attach(d, p);
      && Parted(d') && All(d') == All(d) + {p} && Eligible(d') == Eligible(d) + {p} && Matching(d') == Matching(d)
      && Active(d') == (if d.more then Active(d) else Active(d) + {p})
      && (!d.more ==> d'.active == d'.eligible)
  {
    FrontAll(d.items, p);
    PushDistinct(d.items, p);
    hide Front, Distinct, Swapped;
    if d.more {
      Arrive(d.items, p, d.eligible, d.matching, d.active);
    } else {
      Arrive(d.items, p, d.active, d.matching, d.matching);
    }
  }

  lemma AttachKeeps(d: Dist, c: Clock, p: PipeId)
    requires Valid(d, c) && p !in All(d)
    ensures var d' := Attach(d, p);
      && Valid(d', c) && All(d') == All(d) + {p} && Eligible(d') == Eligible(d) + {p} && Matching(d') == Matching(d)
      && Active(d') == (if d.more then Active(d) else Active(d) + {p})
      && d'.more == d.more && d'.log == d.log[p := []]
  {
    var d', to := Attach(d, p), if c.viaAll then Active(d) else Matching(d);
    AttachFronts(d, p);
    assert d'.more == d.more && d'.log == d.log[p := []];
    assert p !in to;
    NewLog(d.log, p, to, c.msg, c.no);
    hide Attach, GoodLogs, AllUpToDate, Front, Parted;
  }

  /** Marking happens before the first part of a message. */
  lemma MatchKeeps(d: Dist, c: Clock, i: nat)
    requires Valid(d, c) && i < |d.items| && !d.more
    ensures var d' := Match(d, i);
      && Valid(d', c) && Active(d') == Active(d) && Eligible(d') == Eligible(d) && All(d') == All(d)
      && Matching(d') == (if d.items[i] in Active(d) then Matching(d) + {d.items[i]} else Matching(d))
      && d'.more == d.more && d'.log == d.log
  {
    FrontAt(d.items, d.matching, i);
    FrontAt(d.items, d.active, i);
    if d.matching <= i < d.eligible {
      Promote(d.items, i, d.matching);
    }
    hide Front, Distinct, Swapped, GoodLogs, AllUpToDate;
  }

  lemma UnmatchKeeps(d: Dist, c: Clock)
    requires Valid(d, c)
    ensures var d' := Unmatch(d);
      && Valid(d', c) && Matching(d') == {} && Active(d') == Active(d) && Eligible(d') == Eligible(d) && All(d') == All(d)
      && d'.more == d.more && d'.log == d.log
  {
    assert Front(d.items, 0) == {};
  }

  lemma ActivatedKeeps(d: Dist, c: Clock, i: nat)
    requires Valid(d, c) && d.eligible <= i < |d.items|
    ensures var d' := Activated(d, i);
      && Valid(d', c) && Matching(d') == Matching(d) && All(d') == All(d) && Eligible(d') == Eligible(d) + {d.items[i]}
      && Active(d') == (if d.more then Active(d) else Active(d) + {d.items[i]})
      && d'.more == d.more && d'.log == d.log
  {
    Promote(d.items, i, d.eligible);
    var s := Swapped(d.items, i, d.eligible);
    Promote(s, d.eligible, d.active);
    hide Front, Distinct, Swapped, GoodLogs, AllUpToDate;
  }

  lemma LeaveMatchingFronts(d: Dist, i: nat)
    requires Parted(d) && i < |d.items|
    ensures var d' := LeaveMatching(d, i); var i' := Left(i, d.matching);
      && Parted(d') && |d'.items| == |d.items| && d'.matching <= i' < |d.items| && d'.items[i'] == d.items[i]
      && d'.active == d.active && d'.eligible == d.eligible
      && Matching(d') == Matching(d) - {d.items[i]} && Active(d') == Active(d) && Eligible(d') == Eligible(d) && All(d') == All(d)
  {
    FrontAt(d.items, d.matching, i);
    if i < d.matching {
      Retire(d.items, i, d.matching);
    }
    hide Front, Distinct, Swapped;
  }

  lemma LeaveActiveFronts(d: Dist, i: nat)
    requires Parted(d) && d.matching <= i < |d.items|
    ensures var d' := LeaveActive(d, i); var i' := Left(i, d.active);
      && Parted(d') && |d'.items| == |d.items| && d'.active <= i' < |d.items| && d'.items[i'] == d.items[i]
      && d'.eligible == d.eligible
      && Matching(d') == Matching(d) && Active(d') == Active(d) - {d.items[i]} && Eligible(d') == Eligible(d) && All(d') == All(d)
  {
    FrontAt(d.items, d.active, i);
    if i < d.active {
      Retire(d.items, i, d.active);
    }
    hide Front, Distinct, Swapped;
  }

  lemma LeaveEligibleFronts(d: Dist, i: nat)
    requires Parted(d) && d.active <= i < |d.items|
    ensures var d' := LeaveEligible(d, i); var i' := Left(i, d.eligible);
      && Parted(d') && |d'.items| == |d.items| && d'.eligible <= i' < |d.items| && d'.items[i'] == d.items[i]
      && Matching(d') == Matching(d) && Active(d') == Active(d) && Eligible(d') == Eligible(d) - {d.items[i]} && All(d') == All(d)
  {
    FrontAt(d.items, d.eligible, i);
    if i < d.eligible {
      Retire(d.items, i, d.eligible);
    }
    hide Front, Distinct, Swapped;
  }

  lemma TerminatedFronts(d: Dist, i: nat)
    requires Parted(d) && i < |d.items|
    ensures var d' := Terminated(d, i); var p := d.items[i];
      && Parted(d') && All(d') == All(d) - {p} && Eligible(d') == Eligible(d) - {p}
      && Active(d') == Active(d) - {p} && Matching(d') == Matching(d) - {p}
  {
    hide Front, Distinct, Swapped, LeaveMatching, LeaveActive, LeaveEligible, Erased;
    LeaveMatchingFronts(d, i);
    var d1, i1 := LeaveMatching(d, i), Left(i, d.matching);
    LeaveActiveFronts(d1, i1);
    var d2, i2 := LeaveActive(d1, i1), Left(i1, d.active);
    LeaveEligibleFronts(d2, i2);
    var d3 := LeaveEligible(d2, i2);
    EraseFronts(d3.items, Left(i2, d.eligible), d3.matching, d3.active, d3.eligible);
  }

  lemma SameCount(d: Dist)
    requires Parted(d) && Active(d) == Eligible(d)
    ensures d.active == d.eligible
  {
    FrontCount(d.items, d.active);
    FrontCount(d.items, d.eligible);
  }

  lemma TerminatedKeeps(d: Dist, c: Clock, i: nat)
    requires Valid(d, c) && i < |d.items|
    ensures var d' := Terminated(d, i); var p := d.items[i];
      && Valid(d', c) && All(d') == All(d) - {p} && Eligible(d') == Eligible(d) - {p}
      && Active(d') == Active(d) - {p} && Matching(d') == Matching(d) - {p}
      && d'.more == d.more && d'.log == d.log
  {
    var d', p := Terminated(d, i), d.items[i];
    TerminatedFronts(d, i);
    var to := if c.viaAll then Active(d) else Matching(d);
    assert d'.more == d.more && d'.log == d.log;
    hide Terminated, GoodLogs, AllUpToDate, Parted, Front;
    if d.more {
      StillUpToDate(d.log, to, to - {p}, c.msg, c.no);
    } else {
      SameCount(d');
    }
  }

  // ---- sending ----

  /** Offer the part to the pipe in place i, which is matching; `ok` if it takes the part. */
  function Write(d: Dist, i: nat, part: Part, ok: bool): Dist
    requires i < d.matching <= d.active <= d.eligible <= |d.items|
  {
    if !ok then
      d.(items := Demoted(d.items, i, d.matching, d.active, d.eligible),
        matching := d.matching - 1, active := d.active - 1, eligible := d.eligible - 1)
    else
      var p := d.items[i];
      var l := (if p in d.log then d.log[p] else []) + [part];
      d.(log := d.log[p := l], flushed := if part.more then d.flushed else d.flushed[p := |l|])
  }

  /** The loop over the matching pipes from place i on: a refused write is followed by one to the pipe
      that took the place. */
  function Push(d: Dist, i: nat, part: Part, refusing: set<PipeId>): Dist
    requires i <= d.matching <= d.active <= d.eligible <= |d.items|
    decreases d.matching - i
  {
    if i == d.matching then d
    else if d.items[i] in refusing then Push(Write(d, i, part, false), i, part, refusing)
    else Push(Write(d, i, part, true), i + 1, part, refusing)
  }

  /** The pipes in the order in which that loop offers them the part. */
  function Offered(d: Dist, i: nat, part: Part, refusing: set<PipeId>): seq<PipeId>
    requires i <= d.matching <= d.active <= d.eligible <= |d.items|
    decreases d.matching - i
  {
    if i == d.matching then []
    else if d.items[i] in refusing then [d.items[i]] + Offered(Write(d, i, part, false), i, part, refusing)
    else [d.items[i]] + Offered(Write(d, i, part, true), i + 1, part, refusing)
  }

  /** On the way from d0, at place i. */
  predicate Along(d0: Dist, d: Dist, i: nat, tried: seq<PipeId>, part: Part, refusing: set<PipeId>) {
    && d0.matching <= d0.active <= d0.eligible <= |d0.items|
    && i <= d.matching <= d.active <= d.eligible <= |d.items|
    && Push(d, i, part, refusing) == Push(d0, 0, part, refusing)
    && tried + Offered(d, i, part, refusing) == Offered(d0, 0, part, refusing)
  }

  /** One turn of the loop. */
  lemma AlongTurn(d0: Dist, d: Dist, i: nat, tried: seq<PipeId>, part: Part, refusing: set<PipeId>, ok: bool)
    requires Along(d0, d, i, tried, part, refusing)
    requires i < d.matching && d.matching <= d.active <= d.eligible <= |d.items| && ok == (d.items[i] !in refusing)
    ensures Along(d0, Write(d, i, part, ok), if ok then i + 1 else i, tried + [d.items[i]], part, refusing)
  {
    var d1, i1 := Write(d, i, part, ok), if ok then i + 1 else i;
    assert Offered(d, i, part, refusing) == [d.items[i]] + Offered(d1, i1, part, refusing);
    assert (tried + [d.items[i]]) + Offered(d1, i1, part, refusing) == tried + Offered(d, i, part, refusing);
  }

  lemma AlongEnd(d0: Dist, d: Dist, tried: seq<PipeId>, part: Part, refusing: set<PipeId>)
    requires Along(d0, d, d.matching, tried, part, refusing)
    ensures d0.matching <= d0.active <= d0.eligible <= |d0.items|
    ensures d == Push(d0, 0, part, refusing) && tried == Offered(d0, 0, part, refusing)
  {
  }

  /** Send a part to the matching pipes; a last part makes all eligible pipes active. */
  function SendToMatching(d: Dist, part: Part, refusing: set<PipeId>): Dist
    requires d.matching <= d.active <= d.eligible <= |d.items|
  {
    var d1 := Push(d, 0, part, refusing);
    d1.(active := if part.more then d1.active else d1.eligible, more := part.more)
  }

  function SendToAll(d: Dist, part: Part, refusing: set<PipeId>): Dist
    requires d.active <= d.eligible <= |d.items|
  {
    SendToMatching(d.(matching := d.active), part, refusing)
  }

  lemma WriteFails(d: Dist, i: nat, part: Part)
    requires Parted(d) && i < d.matching
    ensures var d' := Write(d, i, part, false); var p := d.items[i];
      && Parted(d') && i <= d'.matching && Front(d'.items, i) == Front(d.items, i)
      && Matching(d') == Matching(d) - {p} && Active(d') == Active(d) - {p} && Eligible(d') == Eligible(d) - {p} && All(d') == All(d)
      && d'.log == d.log && d'.flushed == d.flushed
      && p in Matching(d) && p !in Front(d.items, i)
  {
    DemotedFronts(d.items, i, d.matching, d.active, d.eligible);
    FrontAt(d.items, d.matching, i);
    FrontAt(d.items, i, i);
    hide Front, Distinct, Demoted;
  }

  lemma WriteSucceeds(d: Dist, i: nat, part: Part)
    requires Parted(d) && i < d.matching
    ensures var d' := Write(d, i, part, true); var p := d.items[i];
      && Parted(d') && i <= d'.matching && Front(d'.items, i + 1) == Front(d.items, i) + {p}
      && Matching(d') == Matching(d) && Active(d') == Active(d) && Eligible(d') == Eligible(d) && All(d') == All(d)
      && Logged(d.log, d'.log, {p}, part) && Flushed(d.flushed, d'.flushed, d'.log, {p}, part)
      && p in Matching(d) && p !in Front(d.items, i)
  {
    var p := d.items[i];
    FrontAll(d.items, p);
    FrontAt(d.items, d.matching, i);
    FrontStep(d.items, i);
    hide Front, Distinct;
  }

  lemma LoggedThen(log: map<PipeId, seq<Part>>, log1: map<PipeId, seq<Part>>, log2: map<PipeId, seq<Part>>, p: PipeId, to: set<PipeId>, part: Part)
    requires Logged(log, log1, {p}, part) && Logged(log1, log2, to, part) && p !in to
    ensures Logged(log, log2, {p} + to, part)
  {
  }

  lemma FlushedThen(f: map<PipeId, nat>, f1: map<PipeId, nat>, f2: map<PipeId, nat>,
      log1: map<PipeId, seq<Part>>, log2: map<PipeId, seq<Part>>, p: PipeId, to: set<PipeId>, part: Part)
    requires Logged(log1, log2, to, part) && p !in to
    requires Flushed(f, f1, log1, {p}, part) && Flushed(f1, f2, log2, to, part)
    ensures Flushed(f, f2, log2, {p} + to, part)
  {
  }

  /** The pipes still to be offered the part. */
  ghost function Pending(d: Dist, i: nat): set<PipeId>
    requires Parted(d) && i <= d.matching
  {
    Matching(d) - Front(d.items, i)
  }

  lemma OnceFirst(p: PipeId, tried: seq<PipeId>, rest: set<PipeId>)
    requires Once(tried, rest) && p !in rest
    ensures Once([p] + tried, {p} + rest)
  {
    assert forall i :: 0 <= i < |tried| ==> tried[i] in tried;
  }

  /** What the loop does to the partition: exactly the refusing ones among the pending pipes leave the
      matching, active and eligible pipes. */
  ghost predicate Partitioned(d: Dist, d': Dist, bad: set<PipeId>)
    requires Parted(d)
  {
    && Parted(d') && Matching(d') == Matching(d) - bad && Active(d') == Active(d) - bad
    && Eligible(d') == Eligible(d) - bad && All(d') == All(d) && d'.more == d.more
  }

  lemma PartitionedThen(d: Dist, d1: Dist, d2: Dist, p: PipeId, bad: set<PipeId>)
    requires Parted(d) && Partitioned(d, d1, {p}) && Partitioned(d1, d2, bad)
    ensures Partitioned(d, d2, {p} + bad)
  {
    hide Parted;
  }

  /** Each of the pipes in todo was offered the part once; those that refuse became passive, the others
      have the part in their logs. */
  ghost predicate Pushed(d: Dist, d': Dist, tried: seq<PipeId>, todo: set<PipeId>, part: Part, refusing: set<PipeId>)
    requires Parted(d)
  {
    && Partitioned(d, d', todo * refusing) && Once(tried, todo)
    && Logged(d.log, d'.log, todo - refusing, part) && Flushed(d.flushed, d'.flushed, d'.log, todo - refusing, part)
  }

  lemma PendingFails(d: Dist, i: nat, part: Part)
    requires Parted(d) && i < d.matching
    ensures var d1 := Write(d, i, part, false); var p := d.items[i];
      && Parted(d1) && i <= d1.matching && Partitioned(d, d1, {p}) && d1.log == d.log && d1.flushed == d.flushed
      && Pending(d, i) == {p} + Pending(d1, i) && p !in Pending(d1, i)
  {
    WriteFails(d, i, part);
    hide Front, Distinct, Demoted;
  }

  lemma PendingSucceeds(d: Dist, i: nat, part: Part)
    requires Parted(d) && i < d.matching
    ensures var d1 := Write(d, i, part, true); var p := d.items[i];
      && Parted(d1) && i + 1 <= d1.matching && Partitioned(d, d1, {})
      && Logged(d.log, d1.log, {p}, part) && Flushed(d.flushed, d1.flushed, d1.log, {p}, part)
      && Pending(d, i) == {p} + Pending(d1, i + 1) && p !in Pending(d1, i + 1)
  {
    WriteSucceeds(d, i, part);
    hide Front, Distinct;
  }

  lemma PushedFails(d: Dist, d1: Dist, d': Dist, p: PipeId, tried: seq<PipeId>, rest: set<PipeId>, part: Part, refusing: set<PipeId>)
    requires Parted(d) && Parted(d1) && Partitioned(d, d1, {p}) && d1.log == d.log && d1.flushed == d.flushed
    requires p in refusing && p !in rest && Pushed(d1, d', tried, rest, part, refusing)
    ensures Pushed(d, d', [p] + tried, {p} + rest, part, refusing)
  {
    var todo := {p} + rest;
    assert todo * refusing == {p} + rest * refusing && todo - refusing == rest - refusing;
    hide Parted, Once, Logged, Flushed;
    PartitionedThen(d, d1, d', p, rest * refusing);
    hide Partitioned;
    OnceFirst(p, tried, rest);
  }

  lemma PushedSucceeds(d: Dist, d1: Dist, d': Dist, p: PipeId, tried: seq<PipeId>, rest: set<PipeId>, part: Part, refusing: set<PipeId>)
    requires Parted(d) && Parted(d1) && Partitioned(d, d1, {})
    requires Logged(d.log, d1.log, {p}, part) && Flushed(d.flushed, d1.flushed, d1.log, {p}, part)
    requires p !in refusing && p !in rest && Pushed(d1, d', tried, rest, part, refusing)
    ensures Pushed(d, d', [p] + tried, {p} + rest, part, refusing)
  {
    var todo := {p} + rest;
    assert todo * refusing == rest * refusing && todo - refusing == {p} + (rest - refusing);
    assert Partitioned(d, d', rest * refusing) by {
      hide Parted;
    }
    hide Partitioned, Parted, Once, Logged, Flushed;
    OnceFirst(p, tried, rest);
    LoggedThen(d.log, d1.log, d'.log, p, rest - refusing, part);
    FlushedThen(d.flushed, d1.flushed, d'.flushed, d1.log, d'.log, p, rest - refusing, part);
  }

  lemma {:induction false} PushMeaning(d: Dist, i: nat, part: Part, refusing: set<PipeId>)
    requires Parted(d) && i <= d.matching
    ensures Pushed(d, Push(d, i, part, refusing), Offered(d, i, part, refusing), Pending(d, i), part, refusing)
    decreases d.matching - i
  {
    if i == d.matching {
      assert Pending(d, i) == {};
    } else {
      hide Pushed, Parted, Partitioned, Pending;
      var p := d.items[i];
      assert d.matching <= d.active <= d.eligible <= |d.items| by {
        Ordering(d);
      }
      if p in refusing {
        PendingFails(d, i, part);
        var d1 := Write(d, i, part, false);
        PushMeaning(d1, i, part, refusing);
        PushedFails(d, d1, Push(d1, i, part, refusing), p, Offered(d1, i, part, refusing), Pending(d1, i), part, refusing);
      } else {
        PendingSucceeds(d, i, part);
        var d1 := Write(d, i, part, true);
        PushMeaning(d1, i + 1, part, refusing);
        PushedSucceeds(d, d1, Push(d1, i + 1, part, refusing), p, Offered(d1, i + 1, part, refusing), Pending(d1, i + 1), part, refusing);
      }
    }
  }

  // ---- whole parts ----

  /** A part sent to the matching pipes. `todo` is the set of pipes it is offered to. */
  ghost predicate Sent(d: Dist, d': Dist, todo: set<PipeId>, tried: seq<PipeId>, part: Part, refusing: set<PipeId>)
    requires Parted(d)
  {
    && Parted(d') && d'.more == part.more && Once(tried, todo)
    && Matching(d') == todo - refusing && All(d') == All(d) && Eligible(d') == Eligible(d) - todo * refusing
    && Active(d') == (if part.more then Active(d) - todo * refusing else Eligible(d'))
    && Logged(d.log, d'.log, Matching(d'), part) && Flushed(d.flushed, d'.flushed, d'.log, Matching(d'), part)
  }

  lemma SentToMatching(d: Dist, part: Part, refusing: set<PipeId>)
    requires Parted(d)
    ensures Sent(d, SendToMatching(d, part, refusing), Matching(d), Offered(d, 0, part, refusing), part, refusing)
  {
    PushMeaning(d, 0, part, refusing);
    assert Front(d.items, 0) == {};
    assert Pending(d, 0) == Matching(d);
    hide Push, Offered, Once, Logged, Flushed, Front, Distinct;
  }

  function Tick(part: Part, all: bool): Clock {
    Clock(NextMsg(part), NextNo(part), all)
  }

  lemma SentIsValid(d: Dist, d': Dist, c: Clock, todo: set<PipeId>, tried: seq<PipeId>, part: Part, refusing: set<PipeId>, all: bool)
    requires Valid(d, c) && part.msg == c.msg && part.no == c.no && Sent(d, d', todo, tried, part, refusing)
    requires (d.more ==> c.viaAll == all) && todo == (if all then Active(d) else Matching(d))
    requires !part.more ==> d'.active == d'.eligible
    ensures Valid(d', Tick(part, all))
  {
    hide Parted, Front, GoodLogs, AllUpToDate, Logged, Flushed, Once;
    if d.more {
      StillUpToDate(d.log, todo, todo - refusing, c.msg, c.no);
    }
    LogsGrow(d.log, d'.log, todo - refusing, part);
    assert all ==> Active(d) - todo * refusing == todo - refusing;
  }

  /** The next part goes to the matching pipes, each is offered it once, and no pipe gets it without the
      parts before it. */
  lemma SendToMatchingKeeps(d: Dist, c: Clock, part: Part, refusing: set<PipeId>)
    requires Valid(d, c) && part.msg == c.msg && part.no == c.no && (d.more ==> !c.viaAll)
    ensures var d' := SendToMatching(d, part, refusing);
      Sent(d, d', Matching(d), Offered(d, 0, part, refusing), part, refusing) && Valid(d', Tick(part, false))
  {
    SentToMatching(d, part, refusing);
    assert !part.more ==> SendToMatching(d, part, refusing).active == SendToMatching(d, part, refusing).eligible;
    hide Sent, SendToMatching, Valid;
    SentIsValid(d, SendToMatching(d, part, refusing), c, Matching(d), Offered(d, 0, part, refusing), part, refusing, false);
  }

  /** The next part goes to the active pipes; all parts of a message are sent this way, or none. */
  lemma SendToAllKeeps(d: Dist, c: Clock, part: Part, refusing: set<PipeId>)
    requires Valid(d, c) && part.msg == c.msg && part.no == c.no && (d.more ==> c.viaAll)
    ensures var d' := SendToAll(d, part, refusing);
      && Sent(d, d', Active(d), Offered(d.(matching := d.active), 0, part, refusing), part, refusing)
      && Valid(d', Tick(part, true))
  {
    var d0 := d.(matching := d.active);
    SentToMatching(d0, part, refusing);
    var d' := SendToAll(d, part, refusing);
    assert !part.more ==> d'.active == d'.eligible;
    assert Sent(d, d', Active(d), Offered(d0, 0, part, refusing), part, refusing);
    hide Sent, SendToMatching, Valid;
    SentIsValid(d, d', c, Active(d), Offered(d0, 0, part, refusing), part, refusing, true);
  }

  lemma Ordering(d: Dist)
    requires Parted(d)
    ensures d.matching <= d.active <= d.eligible <= |d.items|
  {
  }

  // ---- whole runs ----

  datatype Op = DoAttach(p: PipeId) | DoMatch(i: nat) | DoUnmatch | DoActivate(i: nat) | DoTerminate(i: nat)
    | DoSend(more: bool, all: bool, refusing: set<PipeId>)

  /** What callers observe: pipes are attached once, marked between messages, activated when passive, and
      all parts of a message are sent the same way. */
  ghost predicate Allowed(d: Dist, c: Clock, op: Op)
    requires Valid(d, c)
  {
    match op
    case DoAttach(p) => p !in All(d)
    case DoMatch(i) => i < |d.items| && !d.more
    case DoUnmatch => true
    case DoActivate(i) => d.eligible <= i < |d.items|
    case DoTerminate(i) => i < |d.items|
    case DoSend(_, all, _) => d.more ==> c.viaAll == all
  }

  ghost function Apply(d: Dist, c: Clock, op: Op): (Dist, Clock)
    requires Valid(d, c) && Allowed(d, c, op)
  {
    match op
    case DoAttach(p) => (Attach(d, p), c)
    case DoMatch(i) => (Match(d, i), c)
    case DoUnmatch => (Unmatch(d), c)
    case DoActivate(i) => (Activated(d, i), c)
    case DoTerminate(i) => (Terminated(d, i), c)
    case DoSend(more, all, refusing) =>
      var part := Part(c.msg, c.no, more);
      (if all then SendToAll(d, part, refusing) else SendToMatching(d, part, refusing), Tick(part, all))
  }

  lemma ApplyKeeps(d: Dist, c: Clock, op: Op)
    requires Valid(d, c) && Allowed(d, c, op)
    ensures Valid(Apply(d, c, op).0, Apply(d, c, op).1)
  {
    match op
    case DoAttach(p) => AttachKeeps(d, c, p);
    case DoMatch(i) => MatchKeeps(d, c, i);
    case DoUnmatch => UnmatchKeeps(d, c);
    case DoActivate(i) => ActivatedKeeps(d, c, i);
    case DoTerminate(i) => TerminatedKeeps(d, c, i);
    case DoSend(more, all, refusing) =>
      var part := Part(c.msg, c.no, more);
      if all {
        SendToAllKeeps(d, c, part, refusing);
      } else {
        SendToMatchingKeeps(d, c, part, refusing);
      }
  }

  /** One step of a run. */
  ghost predicate Step(d: Dist, c: Clock, op: Op, d': Dist, c': Clock) {
    Valid(d, c) ==> Allowed(d, c, op) && Apply(d, c, op) == (d', c')
  }

  ghost predicate Run(ops: seq<Op>, ds: seq<Dist>, cs: seq<Clock>) {
    && |ds| == |cs| == |ops| + 1 && ds[0] == EMPTY && cs[0] == Clock(0, 0, false)
    && forall k :: 0 <= k < |ops| ==> Step(ds[k], cs[k], ops[k], ds[k + 1], cs[k + 1])
  }

  /** However attaching, activation and termination fall between the parts: no pipe ever has a part of a
      message without the parts before it, or a part twice, and between messages every eligible pipe is
      active. */
  lemma {:induction false} NoGaps(ops: seq<Op>, ds: seq<Dist>, cs: seq<Clock>, k: nat)
    requires Run(ops, ds, cs) && k <= |ops|
    ensures var d := ds[k];
      Valid(d, cs[k]) && (forall p :: p in d.log ==> Ordered(d.log[p])) && (!d.more ==> Active(d) == Eligible(d))
  {
    if k > 0 {
      NoGaps(ops, ds, cs, k - 1);
      assert Step(ds[k - 1], cs[k - 1], ops[k - 1], ds[k], cs[k]);
      ApplyKeeps(ds[k - 1], cs[k - 1], ops[k - 1]);
    }
  }
}
