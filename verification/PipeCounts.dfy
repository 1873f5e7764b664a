/** What the counters of a pipe count, and what a hiccup does to them. */
module PipeCounts {
  import opened YPipes
  import opened PipeProtocol
  import opened PipeSafety
  import opened PipeFlow

  // ---- counters ----

  /** The places of the last parts of messages other than identities. */
  function Ends(s: seq<Item>): set<nat> {
    set i: nat | i < |s| && s[i].Item? && !s[i].more && !s[i].identity
  }

  lemma {:induction false} EndsCounted(s: seq<Item>)
    ensures |Ends(s)| == Counted(s)
  {
    if s != [] {
      var k := |s| - 1;
      EndsCounted(s[..k]);
      CountedConcat(s[..k], [s[k]]);
      assert s[..k] + [s[k]] == s;
      assert Ends(s) == Ends(s[..k]) + if Counts(s[k]) then {k} else {};
    } else {
      assert Ends(s) == {};
    }
  }

  /** The end's counters are right for what it has written and handed over. */
  predicate CountsRight(ep: Ep) {
    ep.e.msgsWritten == Counted(ep.wrote) && ep.e.msgsRead == Counted(ep.got)
  }

  /** t counts as ep does. */
  predicate SameCounts(ep: Ep, t: Ep) {
    t.e.msgsWritten == ep.e.msgsWritten && t.e.msgsRead == ep.e.msgsRead && t.wrote == ep.wrote && t.got == ep.got
  }

  lemma CountMessage(wrote: seq<Item>, partial: seq<Item>, m: Item)
    requires AllMore(partial)
    ensures Counted(wrote + (partial + [m])) == Counted(wrote) + if Counts(m) then 1 else 0
  {
    CountedConcat(wrote, partial + [m]);
    CountedConcat(partial, [m]);
    PartialCounts(partial);
    assert [m][1..] == [];
  }

  lemma WriteCountsRight(ep: Ep, m: Item)
    requires CountsRight(ep) && m.Item? && AllMore(ep.outq.partial)
    ensures CountsRight(Write(ep, m))
  {
    CountMessage(ep.wrote, ep.outq.partial, m);
    var t := Write(ep, m);
    hide Counted;
    assert t.got == ep.got && t.e.msgsRead == ep.e.msgsRead;
    assert CanWrite(ep.e) ==> t.e.msgsWritten == ep.e.msgsWritten + if Counts(m) then 1 else 0;
    assert CanWrite(ep.e) ==> t.wrote == if m.more then ep.wrote else ep.wrote + (ep.outq.partial + [m]);
    assert !CanWrite(ep.e) ==> t.wrote == ep.wrote && t.e.msgsWritten == ep.e.msgsWritten;
    hide Write;
  }

  lemma {:induction false} ReadCountsRight(ep: Ep)
    requires CountsRight(ep)
    ensures CountsRight(ReadLoop(ep).0)
    decreases |ep.inq.ready|
  {
    hide Take, ProcessDelimiter;
    if ep.inq.ready == [] {
      assert ReadLoop(ep).0 == Sleep(ep);
    } else if ep.inq.ready[0].Delimiter? {
      DelimiterCounts(ep.(inq := ep.inq.Pop()));
    } else if ep.inq.ready[0].credential {
      ReadCountsRight(SkipCredential(ep));
    } else {
      TakeCountsRight(ep);
    }
  }

  lemma DelimiterCounts(ep: Ep)
    ensures SameCounts(ep, ProcessDelimiter(ep))
  {
  }

  lemma SendCounts(ep: Ep, c: Cmd)
    ensures SameCounts(ep, Send(ep, c))
  {
  }

  lemma TakeIs(ep: Ep)
    requires ep.inq.ready != []
    ensures var t, m := Take(ep), ep.inq.ready[0];
      && t.e.msgsWritten == ep.e.msgsWritten && t.e.msgsRead == ep.e.msgsRead + (if Counts(m) then 1 else 0)
      && t.wrote == ep.wrote && t.got == ep.got + [m]
  {
    var m := ep.inq.ready[0];
    var n := ep.e.msgsRead + if Counts(m) then 1 else 0;
    var p := ep.(inq := ep.inq.Pop(), got := ep.got + [m], e := ep.e.(msgsRead := n));
    assert Take(ep) == if Reports(n, ep.e.lwm) then Send(p, ActivateWrite(n)) else p;
    hide Take, Reports, Send;
    SendCounts(p, ActivateWrite(n));
  }

  lemma TakeCountsRight(ep: Ep)
    requires CountsRight(ep) && ep.inq.ready != []
    ensures CountsRight(Take(ep))
  {
    TakeIs(ep);
    CountedConcat(ep.got, [ep.inq.ready[0]]);
    CountedOne(ep.inq.ready[0]);
    hide Take, Counted;
  }

  lemma CountedOne(m: Item)
    ensures Counted([m]) == if Counts(m) then 1 else 0
  {
    assert [m][1..] == [];
  }

  lemma TerminateCounts(ep: Ep, d: bool)
    ensures SameCounts(ep, Terminate(ep, d))
  {
    var p := ep.(e := ep.e.(delay := d, selfTerm := true));
    AskCounts(p);
    CloseOutFrame(Ask(p));
    hide CloseOut, Ask;
  }

  lemma AskCounts(ep: Ep)
    ensures SameCounts(ep, Ask(ep))
  {
  }

  lemma UserCounts(ep: Ep)
    ensures SameCounts(ep, Rollback(ep)) && SameCounts(ep, Flush(ep)) && SameCounts(ep, CheckWrite(ep))
  {
  }

  lemma CommandCounts(ep: Ep, n: nat)
    ensures SameCounts(ep, ProcessActivateRead(ep)) && SameCounts(ep, ProcessActivateWrite(ep, n))
  {
  }

  lemma AckCounts(ep: Ep)
    ensures SameCounts(ep, SendAck(ep))
  {
  }

  lemma TermCounts(ep: Ep)
    ensures SameCounts(ep, ProcessPipeTerm(ep))
  {
    AckCounts(ep.(e := ep.e.(state := TermAckSent)));
    AckCounts(ep.(e := ep.e.(state := TermReqSent2)));
    hide SendAck;
  }

  lemma TermAckCounts(ep: Ep)
    ensures SameCounts(ep, ProcessPipeTermAck(ep))
  {
    AckCounts(ep);
    hide SendAck;
  }

  /** Both ends of the pair count right. */
  predicate BothRight(p: Pair) {
    |p.xy.chain| == 1 && |p.yx.chain| == 1 && CountsRight(View(p)) && CountsRight(View(Flip(p)))
  }

  lemma UpdateRight(p: Pair, t: Ep)
    requires BothRight(p) && CountsRight(t)
    ensures BothRight(Update(p, t))
  {
    UpdateOnly(p, t);
    hide Counted;
  }

  lemma StepXRight(p: Pair, op: Op)
    requires Inv(p) && BothRight(p) && Enabled(p, op) && op != OpHiccup
    ensures BothRight(StepX(p, op))
  {
    var v := View(p);
    ViewUpdate(p, v, v);
    assert QueueOk(PhaseOf(p.x), p.xy.chain[0]) && AllMore(v.outq.partial) && Hiccup !in p.yx.cmds;
    hide Inv, BothRight, Counted;
    assert CountsRight(v) by { ViewRight(p); }
    match op
    case OpRead => ReadCountsRight(v); hide ReadLoop; UpdateRight(p, Read(v).0);
    case OpCheckRead =>
      if v.inq.ready != [] {
        DelimiterCounts(v.(inq := v.inq.Pop()));
      }
      hide ProcessDelimiter;
      UpdateRight(p, CheckRead(v).0);
    case OpWrite(m) => WriteCountsRight(v, m); hide Write; UpdateRight(p, Write(v, m));
    case OpTerminate(d) => TerminateCounts(v, d); hide Terminate; UpdateRight(p, Terminate(v, d));
    case OpCheckWrite => UserCounts(v); hide CheckWrite; UpdateRight(p, CheckWrite(v));
    case OpRollback => UserCounts(v); hide Rollback; UpdateRight(p, Rollback(v));
    case OpFlush => UserCounts(v); hide Flush; UpdateRight(p, Flush(v));
    case OpNodelay => NodelayRight(p);
    case OpDeliver => DeliverRight(p);
  }

  lemma ViewRight(p: Pair)
    requires BothRight(p)
    ensures CountsRight(View(p))
  {
  }

  lemma NodelayRight(p: Pair)
    requires BothRight(p)
    ensures BothRight(p.(x := p.x.(delay := false)))
  {
    hide Counted;
  }

  lemma DeliverRight(p: Pair)
    requires BothRight(p) && p.yx.cmds != [] && p.yx.cmds[0] != Hiccup
    ensures BothRight(Deliver(p))
  {
    hide Counted;
    var q, c := Popped(p), p.yx.cmds[0];
    var v := View(q);
    assert BothRight(q) && CountsRight(v);
    CommandCounts(v, if c.ActivateWrite? then c.msgsRead else 0);
    TermCounts(v);
    TermAckCounts(v);
    hide ProcessActivateRead, ProcessActivateWrite, ProcessPipeTerm, ProcessPipeTermAck, BothRight;
    match c
    case ActivateRead => UpdateRight(q, ProcessActivateRead(v));
    case ActivateWrite(n) => UpdateRight(q, ProcessActivateWrite(v, n));
    case PipeTerm => UpdateRight(q, ProcessPipeTerm(v));
    case PipeTermAck => UpdateRight(q, ProcessPipeTermAck(v));
  }

  lemma FlipRight(p: Pair)
    requires BothRight(p)
    ensures BothRight(Flip(p))
  {
    hide Counted;
  }

  lemma StepRight(p: Pair, mv: Move)
    requires Inv(p) && Inv(Flip(p)) && BothRight(p) && mv.op != OpHiccup
    ensures BothRight(Step(p, mv))
  {
    hide StepX, Inv, BothRight;
    if mv.onX && Enabled(p, mv.op) {
      StepXRight(p, mv.op);
    } else if !mv.onX && Enabled(Flip(p), mv.op) {
      FlipRight(p);
      StepXRight(Flip(p), mv.op);
      FlipRight(StepX(Flip(p), mv.op));
    }
  }

  lemma InvFlips(p: Pair)
    requires Inv(p)
    ensures Inv(Flip(p))
  {
    FlipSafe(p);
    hide Safe;
  }

  lemma StartsRight(hwmX: int, hwmY: int)
    ensures BothRight(PipePair(hwmX, hwmY))
  {
  }

  lemma {:induction false} RunRight(hwmX: int, hwmY: int, run: seq<Move>)
    requires NoHiccups(run)
    ensures BothRight(Exec(PipePair(hwmX, hwmY), run))
    decreases |run|
  {
    hide Inv, BothRight, PipePair, Step, Flip;
    if run == [] {
      StartsRight(hwmX, hwmY);
    } else {
      var n := |run| - 1;
      RunRight(hwmX, hwmY, run[..n]);
      RunInv(hwmX, hwmY, run[..n]);
      var p := Exec(PipePair(hwmX, hwmY), run[..n]);
      InvFlips(p);
      StepRight(p, run[n]);
    }
  }

  /** The counters count messages by their last parts, identities left out: what was accepted on one end, what was handed
      over on the other. */
  lemma CountersAreRight(hwmX: int, hwmY: int, run: seq<Move>)
    requires NoHiccups(run)
    ensures var p := Exec(PipePair(hwmX, hwmY), run);
      p.x.msgsWritten == |Ends(p.xy.wrote)| && p.y.msgsRead == |Ends(p.xy.got)|
  {
    RunRight(hwmX, hwmY, run);
    var p := Exec(PipePair(hwmX, hwmY), run);
    hide Exec, PipePair;
    EndsCounted(p.xy.wrote);
    EndsCounted(p.xy.got);
  }

  // ---- hiccups ----

  /** The complete messages that a hiccup takes off the count though writing did not count them. */
  function Identities(s: seq<Item>): nat {
    if s == [] then 0 else (if s[0].Item? && !s[0].more && s[0].identity then 1 else 0) + Identities(s[1..])
  }

  lemma {:induction false} NonMoreIs(s: seq<Item>)
    requires NoDelimiter(s)
    ensures NonMore(s) == Counted(s) + Identities(s)
  {
    if s != [] {
      NonMoreIs(s[1..]);
    }
  }

  /** What holds before: no hiccup so far, both ends active, no report in flight. */
  predicate Calm(p: Pair) {
    p.x.state == Active && p.y.state == Active && !p.x.freed && !p.y.freed && p.yx.cmds == []
  }

  /** y starts over with a new queue, and x takes it over. */
  function Hiccuped(p: Pair): Pair {
    Step(Step(p, Move(false, OpHiccup)), Move(true, OpDeliver))
  }

  lemma HiccupedIs(p: Pair)
    requires Calm(p) && |p.xy.chain| == 1 && |p.yx.chain| == 1 && p.x.hasOut
    ensures Hiccuped(p) == Pair(
      p.x.(outActive := true, msgsWritten := p.x.msgsWritten - NonMore(p.xy.chain[0].Complete())), p.y.(inActive := true),
      p.xy.(chain := [EmptyQueue()]), p.yx)
  {
    var none: seq<Cmd> := [];
    assert none + [Hiccup] == [Hiccup] && [Hiccup][1..] == none;
    var q := Step(p, Move(false, OpHiccup));
    assert q == Pair(p.x, p.y.(inActive := true), p.xy.(chain := p.xy.chain + [EmptyQueue()]), p.yx.(cmds := [Hiccup]));
    assert q.xy.chain[1..] == [EmptyQueue()];
  }

  /** A hiccup while nothing is in flight. What was in the old queue is gone for good; the writer's count goes down to what
      was read, plus the credential frames skipped, less the identities that were in the old queue; its gate is open, and
      the next write is accepted as long as at most hwm - lwm credential frames were skipped. */
  lemma HiccupReopens(hwmX: int, hwmY: int, run: seq<Move>)
    requires NoHiccups(run) && Calm(Exec(PipePair(hwmX, hwmY), run))
    ensures var p := Exec(PipePair(hwmX, hwmY), run);
      var q := Hiccuped(p);
      && q.x.msgsWritten == p.y.msgsRead + p.xy.skipped - Identities(p.xy.chain[0].Complete())
      && q.x.outActive && q.y.inActive && q.xy.chain == [EmptyQueue()] && q.xy.got == p.xy.got
      && (p.x.hwm <= 0 || p.xy.skipped <= p.x.hwm - p.y.lwm ==> CanWrite(q.x))
  {
    RunInv(hwmX, hwmY, run);
    var p := Exec(PipePair(hwmX, hwmY), run);
    hide Exec, PipePair;
    assert p.x.hasOut && QueueOk(PhaseOf(p.x), p.xy.chain[0]);
    var all := p.xy.chain[0].Complete();
    assert NoDelimiter(all);
    NonMoreIs(all);
    CreditIs(p.x, p.y, p.xy);
    hide Inv, Hiccuped, NonMore, Counted, Identities, Floor;
    HiccupedIs(p);
  }

  lemma CreditIs(x: End, y: End, xy: Link)
    requires Credit(x, y, xy, []) && !y.freed
    ensures x.msgsWritten == y.msgsRead + xy.skipped + Counted(xy.chain[0].Complete())
    ensures x.hwm > 0 ==> y.msgsRead < x.peersMsgsRead + y.lwm
  {
    if x.hwm > 0 {
      FloorBounds(y.msgsRead, y.lwm);
    }
    hide Floor, Counted;
  }
}
