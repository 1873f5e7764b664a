/** Runs of a pipe pair seen from the other end, runs that come to rest, and a run in which the rest of a message is
    refused. */
module PipeRuns {
  import opened YPipes
  import opened PipeProtocol
  import opened PipeSafety
  import opened PipeFlow

  // ---- the other end ----

  function Mirror(run: seq<Move>): seq<Move> {
    seq(|run|, i requires 0 <= i < |run| => run[i].(onX := !run[i].onX))
  }

  /** What holds of x and the queue it writes in every run holds of y and the queue it writes. */
  lemma {:induction false} ExecFlips(hwmX: int, hwmY: int, run: seq<Move>)
    ensures Flip(Exec(PipePair(hwmX, hwmY), run)) == Exec(PipePair(hwmY, hwmX), Mirror(run))
    ensures NoHiccups(run) ==> NoHiccups(Mirror(run))
    decreases |run|
  {
    if run != [] {
      var n := |run| - 1;
      ExecFlips(hwmX, hwmY, run[..n]);
      assert Mirror(run)[..n] == Mirror(run[..n]);
      hide StepX, PipePair;
    }
  }

  /** Delivery in both directions. */
  lemma DeliveredBothWays(hwmX: int, hwmY: int, run: seq<Move>)
    requires NoHiccups(run)
    ensures var p := Exec(PipePair(hwmX, hwmY), run);
      && (p.y.freed && !p.y.selfTerm && p.y.delay ==> p.xy.got == Body(p.xy.wrote))
      && (p.x.freed && !p.x.selfTerm && p.x.delay ==> p.yx.got == Body(p.yx.wrote))
      && (!p.y.freed ==> p.xy.got <= Body(p.xy.wrote)) && (!p.x.freed ==> p.yx.got <= Body(p.yx.wrote))
  {
    ExecFlips(hwmX, hwmY, run);
    DeliveredInOrder(hwmX, hwmY, run);
    DeliveredInOrder(hwmY, hwmX, Mirror(run));
    hide Exec, PipePair, Body;
  }

  /** Nothing follows an acknowledgement, from either end. */
  lemma AckEndsBothWays(hwmX: int, hwmY: int, run: seq<Move>)
    ensures var p := Exec(PipePair(hwmX, hwmY), run);
      && (PipeTermAck in p.xy.cmds ==> p.xy.cmds[|p.xy.cmds| - 1] == PipeTermAck)
      && (PipeTermAck in p.yx.cmds ==> p.yx.cmds[|p.yx.cmds| - 1] == PipeTermAck)
  {
    ExecFlips(hwmX, hwmY, run);
    NoAssertionFails(hwmX, hwmY, run);
    NoAssertionFails(hwmY, hwmX, Mirror(run));
    hide Exec, PipePair;
  }

  /** An active end whose gate is shut, either one, is at its watermark. */
  lemma GateBothWays(hwmX: int, hwmY: int, run: seq<Move>)
    requires NoHiccups(run)
    ensures var p := Exec(PipePair(hwmX, hwmY), run); Gate(p.x) && Gate(p.y)
  {
    ExecFlips(hwmX, hwmY, run);
    NoLostWakeup(hwmX, hwmY, run);
    NoLostWakeup(hwmY, hwmX, Mirror(run));
    hide Exec, PipePair;
  }

  // ---- the rest of a message refused ----

  /** x has written a part, y terminates, and the request arrives at x: the next part is refused in mid-message. */
  lemma RestIsRefused(hwmX: int, hwmY: int)
    ensures var part := Item(0, true, false, false);
      var p := Exec(PipePair(hwmX, hwmY), [Move(true, OpWrite(part)), Move(false, OpTerminate(true)), Move(true, OpDeliver)]);
      p.xy.chain[0].partial == [part] && p.x.state != Active && !CanWrite(p.x) && !p.x.freed
  {
    var part := Item(0, true, false, false);
    var run := [Move(true, OpWrite(part)), Move(false, OpTerminate(true)), Move(true, OpDeliver)];
    var p0 := PipePair(hwmX, hwmY);
    assert run[..1] == [run[0]] && run[..2] == [run[0], run[1]] && run[..3] == run;
    assert run[..1][..0] == [] && run[..2][..1] == run[..1] && run[..3][..2] == run[..2];
    PartWritten(hwmX, hwmY, part);
    var p1 := Step(p0, run[0]);
    AskedToEnd(p1);
    hide Step;
    assert Exec(p0, run[..1]) == p1;
    assert Exec(p0, run[..2]) == Step(p1, run[1]);
    assert Exec(p0, run) == Step(Step(p1, run[1]), run[2]);
  }

  lemma PartWritten(hwmX: int, hwmY: int, part: Item)
    requires part.Item? && part.more
    ensures var p := Step(PipePair(hwmX, hwmY), Move(true, OpWrite(part)));
      && p.xy.chain == [Queue([], [], [part], false)] && p.x == PipePair(hwmX, hwmY).x && p.y == PipePair(hwmX, hwmY).y
      && p.yx == InitLink()
  {
    var p := PipePair(hwmX, hwmY);
    var t := Write(View(p), part);
    var none: seq<Item> := [];
    assert none + [part] == [part];
    assert CanWrite(p.x) && t.outq == Queue([], [], [part], false);
    UpdateOnly(p, t);
  }

  /** y terminates and x, which has begun a message, is told so. */
  lemma AskedToEnd(p: Pair)
    requires |p.xy.chain| == 1 && p.x.state == Active && p.x.delay && !p.x.freed && p.yx == InitLink()
    requires p.y.state == Active && p.y.hasOut && !p.y.freed
    ensures var q := Step(Step(p, Move(false, OpTerminate(true))), Move(true, OpDeliver));
      q.xy.chain == p.xy.chain && q.x.state == WaitingForDelimiter && !q.x.freed
  {
    var f := Flip(p);
    var t := Terminate(View(f), true);
    assert t.cmds[0] == PipeTerm && t.inq == p.xy.chain[0];
    UpdateOnly(f, t);
    hide Terminate;
    var p2 := Step(p, Move(false, OpTerminate(true)));
    assert p2.x == p.x && p2.xy.chain == p.xy.chain && p2.yx.cmds == t.cmds;
  }

  // ---- coming to rest ----

  /** Once users stop calling except to read, what is left to do is to deliver commands and to read. */
  predicate Drains(mv: Move) {
    mv.op == OpRead || mv.op == OpDeliver
  }

  function CmdWeight(s: seq<Cmd>): nat {
    if s == [] then 0 else (if s[0] == ActivateRead || s[0] == PipeTerm then 2 else 1) + CmdWeight(s[1..])
  }

  function EndWeight(e: End): nat {
    (if e.freed then 0 else 2) + if e.inActive then 1 else 0
  }

  /** How much there is to do, as one end sees it. */
  function EpWeight(ep: Ep): nat {
    EndWeight(ep.e) + 2 * |ep.inq.ready| + 2 * |ep.outq.ready| + CmdWeight(ep.cmds)
  }

  function Weight(p: Pair): nat {
    EpWeight(View(p)) + EndWeight(p.y) + CmdWeight(p.yx.cmds)
  }

  lemma {:induction false} CmdWeightSnoc(s: seq<Cmd>, c: Cmd)
    ensures CmdWeight(s + [c]) == CmdWeight(s) + if c == ActivateRead || c == PipeTerm then 2 else 1
  {
    if s == [] {
      assert s + [c] == [c];
    } else {
      assert (s + [c])[1..] == s[1..] + [c];
      CmdWeightSnoc(s[1..], c);
    }
  }

  lemma TakeWeight(ep: Ep)
    requires ep.inq.ready != []
    ensures EpWeight(Take(ep)) < EpWeight(ep) && Take(ep).e.selfTerm == ep.e.selfTerm
  {
    CmdWeightSnoc(ep.cmds, ActivateWrite(Take(ep).e.msgsRead));
    hide CmdWeight, Reports;
  }

  /** The flags that count. */
  lemma SameWeight(ep: Ep, e: End)
    requires e.freed == ep.e.freed && e.inActive == ep.e.inActive
    ensures EpWeight(ep.(e := e)) == EpWeight(ep)
  {
    hide CmdWeight;
  }

  lemma AckWeight(ep: Ep)
    ensures EpWeight(SendAck(ep)) == EpWeight(ep) + 1 && SendAck(ep).e == ep.e.(hasOut := false)
  {
    CmdWeightSnoc(ep.cmds, PipeTermAck);
    hide CmdWeight;
  }

  lemma AnswerWeight(ep: Ep)
    ensures var t := ProcessDelimiter(ep); EpWeight(t) <= EpWeight(ep) + 1 && t.e.selfTerm == ep.e.selfTerm
  {
    var p := ep.(e := ep.e.(sawDelim := true));
    SameWeight(ep, p.e);
    AckWeight(p);
    SameWeight(ep, p.e.(state := DelimiterReceived));
    SameWeight(ep, p.e.(failed := true));
    SameWeight(SendAck(p), SendAck(p).e.(state := TermAckSent));
    hide EpWeight, SendAck;
  }

  lemma DelimiterWeight(ep: Ep)
    requires ep.inq.ready != []
    ensures var t := ProcessDelimiter(ep.(inq := ep.inq.Pop())); EpWeight(t) < EpWeight(ep) && t.e.selfTerm == ep.e.selfTerm
  {
    AnswerWeight(ep.(inq := ep.inq.Pop()));
    hide CmdWeight, ProcessDelimiter;
  }

  lemma SkipWeight(ep: Ep)
    requires ep.inq.ready != []
    ensures var t := SkipCredential(ep); EpWeight(t) < EpWeight(ep) && t.e == ep.e
  {
    hide CmdWeight;
  }

  lemma SleepWeight(ep: Ep)
    requires ep.e.inActive && ep.inq.ready == []
    ensures EpWeight(Sleep(ep)) < EpWeight(ep) && Sleep(ep).e.selfTerm == ep.e.selfTerm
  {
    hide CmdWeight;
  }

  /** Reading gets something done, and leaves the users' requests alone. */
  lemma {:induction false} ReadWeight(ep: Ep)
    requires ep.e.inActive
    ensures var t := ReadLoop(ep).0; EpWeight(t) < EpWeight(ep) && t.e.selfTerm == ep.e.selfTerm
    decreases |ep.inq.ready|
  {
    hide EpWeight, Take, Sleep, ProcessDelimiter;
    if ep.inq.ready == [] {
      SleepWeight(ep);
    } else if ep.inq.ready[0].Delimiter? {
      DelimiterWeight(ep);
    } else if ep.inq.ready[0].credential {
      SkipWeight(ep);
      ReadWeight(SkipCredential(ep));
    } else {
      TakeWeight(ep);
    }
  }

  lemma UpdateWeight(p: Pair, t: Ep)
    requires |p.xy.chain| == 1 && |p.yx.chain| == 1
    ensures Weight(Update(p, t)) == EpWeight(t) + EndWeight(p.y) + CmdWeight(p.yx.cmds)
  {
    UpdateOnly(p, t);
    hide EpWeight, EndWeight, CmdWeight;
  }

  lemma TermAckWeight(ep: Ep)
    requires !ep.e.freed
    ensures var t := ProcessPipeTermAck(ep); EpWeight(t) <= EpWeight(ep) && t.e.selfTerm == ep.e.selfTerm
  {
    CmdWeightSnoc(ep.cmds, PipeTermAck);
    hide CmdWeight;
  }

  lemma TermWeight(ep: Ep)
    ensures var t := ProcessPipeTerm(ep); EpWeight(t) <= EpWeight(ep) + 1 && t.e.selfTerm == ep.e.selfTerm
  {
    hide EpWeight, SendAck;
    var e := ep.e;
    match e.state
    case Active =>
      if e.delay {
        SameWeight(ep, e.(state := WaitingForDelimiter));
      } else {
        AnsweredWeight(ep, TermAckSent);
      }
    case DelimiterReceived => AnsweredWeight(ep, TermAckSent);
    case TermReqSent1 => AnsweredWeight(ep, TermReqSent2);
    case _ => SameWeight(ep, e.(failed := true));
  }

  lemma AnsweredWeight(ep: Ep, state: State)
    ensures var t := SendAck(ep.(e := ep.e.(state := state))); EpWeight(t) == EpWeight(ep) + 1 && t.e.selfTerm == ep.e.selfTerm
  {
    SameWeight(ep, ep.e.(state := state));
    AckWeight(ep.(e := ep.e.(state := state)));
    hide EpWeight, SendAck;
  }

  lemma ActivateWeight(ep: Ep, n: nat)
    ensures EpWeight(ProcessActivateRead(ep)) <= EpWeight(ep) + 1 && ProcessActivateRead(ep).e.selfTerm == ep.e.selfTerm
    ensures EpWeight(ProcessActivateWrite(ep, n)) == EpWeight(ep) && ProcessActivateWrite(ep, n).e.selfTerm == ep.e.selfTerm
  {
    hide CmdWeight;
  }

  function Handled(ep: Ep, c: Cmd): Ep
    requires c != Hiccup
  {
    match c
    case ActivateRead => ProcessActivateRead(ep)
    case ActivateWrite(n) => ProcessActivateWrite(ep, n)
    case PipeTerm => ProcessPipeTerm(ep)
    case PipeTermAck => ProcessPipeTermAck(ep)
  }

  /** Delivering a command does too. */
  lemma HandlerWeight(ep: Ep, c: Cmd)
    requires !ep.e.freed && c != Hiccup
    ensures EpWeight(Handled(ep, c)) < EpWeight(ep) + CmdWeight([c]) && Handled(ep, c).e.selfTerm == ep.e.selfTerm
  {
    ActivateWeight(ep, if c.ActivateWrite? then c.msgsRead else 0);
    TermWeight(ep);
    TermAckWeight(ep);
    assert CmdWeight([c]) == if c == ActivateRead || c == PipeTerm then 2 else 1;
    hide EpWeight, CmdWeight, ProcessActivateRead, ProcessActivateWrite, ProcessPipeTerm, ProcessPipeTermAck;
  }

  lemma DrainX(p: Pair, op: Op)
    requires Inv(p) && Enabled(p, op) && (op == OpRead || op == OpDeliver)
    ensures var q := StepX(p, op); (q == p || Weight(q) < Weight(p)) && q.x.selfTerm == p.x.selfTerm && q.y == p.y
    ensures op == OpDeliver || (Reading(p.x) && p.x.inActive) ==> Weight(StepX(p, op)) < Weight(p)
  {
    var v := View(p);
    assert |p.xy.chain| == 1 && |p.yx.chain| == 1 && Hiccup !in p.yx.cmds;
    ViewUpdate(p, v, v);
    hide Inv, EpWeight;
    if op == OpRead {
      if v.e.inActive && Reading(v.e) {
        ReadWeight(v);
        hide ReadLoop;
        UpdateWeight(p, Read(v).0);
      }
    } else {
      var q, c := Popped(p), p.yx.cmds[0];
      assert c != Hiccup;
      HandlerWeight(v, c);
      PoppedWeight(p);
      assert Deliver(p) == Update(q, Handled(v, c));
      hide CmdWeight, Handled, EndWeight, Deliver;
      UpdateWeight(q, Handled(v, c));
    }
  }

  lemma PoppedWeight(p: Pair)
    requires p.yx.cmds != []
    ensures CmdWeight(p.yx.cmds) == CmdWeight([p.yx.cmds[0]]) + CmdWeight(p.yx.cmds[1..]) && View(Popped(p)) == View(p)
  {
  }

  lemma FlipWeight(p: Pair)
    requires |p.xy.chain| == 1 && |p.yx.chain| == 1
    ensures Weight(Flip(p)) == Weight(p)
  {
    hide EndWeight, CmdWeight;
  }

  /** Every such move that changes anything leaves less to do. */
  lemma DrainStep(p: Pair, mv: Move)
    requires Inv(p) && Drains(mv)
    ensures var q := Step(p, mv);
      (q == p || Weight(q) < Weight(p)) && q.x.selfTerm == p.x.selfTerm && q.y.selfTerm == p.y.selfTerm
  {
    assert |p.xy.chain| == 1 && |p.yx.chain| == 1;
    FlipSafe(p);
    assert Inv(Flip(p));
    FlipWeight(p);
    if mv.onX && Enabled(p, mv.op) {
      hide Inv, StepX, Weight;
      DrainX(p, mv.op);
    } else if !mv.onX && Enabled(Flip(p), mv.op) {
      hide Weight, StepX;
      DrainX(Flip(p), mv.op);
      var q := StepX(Flip(p), mv.op);
      if q != Flip(p) {
        StillSingle(Flip(p), mv.op);
        FlipWeight(q);
      }
      hide Inv;
    }
  }

  lemma StillSingle(p: Pair, op: Op)
    requires Inv(p) && Enabled(p, op) && op != OpHiccup
    ensures var q := StepX(p, op); |q.xy.chain| == 1 && |q.yx.chain| == 1
  {
    StepXData(p, op);
    hide StepX;
  }

  /** As long as the pair is not at rest, such a move is there. */
  lemma SomethingToDo(p: Pair) returns (mv: Move)
    requires Inv(p) && !Quiet(p)
    ensures Drains(mv) && Step(p, mv) != p
  {
    FlipSafe(p);
    assert Inv(Flip(p)) && |p.xy.chain| == 1 && |p.yx.chain| == 1;
    assert (p.x.freed ==> p.yx.cmds == []) && (p.y.freed ==> p.xy.cmds == []);
    FlipWeight(p);
    hide Safe, Data, StepX, Weight;
    if p.yx.cmds != [] {
      mv := Move(true, OpDeliver);
      DrainX(p, OpDeliver);
    } else if p.xy.cmds != [] {
      mv := Move(false, OpDeliver);
      DrainX(Flip(p), OpDeliver);
    } else if NothingToRead(p.y, LastOf(p.xy.chain)) {
      mv := Move(true, OpRead);
      DrainX(p, OpRead);
    } else {
      mv := Move(false, OpRead);
      DrainX(Flip(p), OpRead);
    }
  }

  lemma DrainInv(p: Pair, mv: Move)
    requires Inv(p) && Drains(mv)
    ensures Inv(Step(p, mv))
  {
    FlipSafe(p);
    if mv.onX && Enabled(p, mv.op) {
      StepXSafe(p, mv.op);
      StepXData(p, mv.op);
    } else if !mv.onX && Enabled(Flip(p), mv.op) {
      StepXSafe(Flip(p), mv.op);
      StepXData(Flip(p), mv.op);
      FlipSafe(StepX(Flip(p), mv.op));
    }
    hide StepX, Safe;
  }

  function After(p: Pair, more: seq<Move>): Pair
    decreases |more|
  {
    if more == [] then p else After(Step(p, more[0]), more[1..])
  }

  /** Only deliveries and reads, and each of them gets something done. */
  predicate Draining(p: Pair, more: seq<Move>)
    decreases |more|
  {
    more == [] || (Drains(more[0]) && Step(p, more[0]) != p && Draining(Step(p, more[0]), more[1..]))
  }

  /** However the moves are chosen: at most as many as the weight get anything done. */
  lemma {:induction false} DrainIsBounded(p: Pair, more: seq<Move>)
    requires Inv(p) && Draining(p, more)
    ensures |more| + Weight(After(p, more)) <= Weight(p)
    decreases |more|
  {
    hide Inv, Weight, Step;
    if more != [] {
      DrainInv(p, more[0]);
      DrainStep(p, more[0]);
      DrainIsBounded(Step(p, more[0]), more[1..]);
    }
  }

  /** Rest is reached. */
  lemma {:induction false} RestIsReached(p: Pair) returns (more: seq<Move>)
    requires Inv(p)
    ensures Draining(p, more)
    ensures var q := After(p, more); Inv(q) && Quiet(q) && q.x.selfTerm == p.x.selfTerm && q.y.selfTerm == p.y.selfTerm
    decreases Weight(p)
  {
    hide Inv, Weight, Step, Quiet;
    if Quiet(p) {
      more := [];
    } else {
      var mv := SomethingToDo(p);
      DrainInv(p, mv);
      DrainStep(p, mv);
      var rest := RestIsReached(Step(p, mv));
      more := [mv] + rest;
      assert more[1..] == rest;
    }
  }

  /** Termination is reached: after any run in which a user has terminated an end, every sequence of deliveries and
      reads that each get something done is bounded, and one that cannot go on has freed both ends. */
  lemma TerminationIsReached(hwmX: int, hwmY: int, run: seq<Move>) returns (more: seq<Move>)
    requires NoHiccups(run)
    requires var p := Exec(PipePair(hwmX, hwmY), run); p.x.selfTerm || p.y.selfTerm
    ensures var p := Exec(PipePair(hwmX, hwmY), run);
      && Draining(p, more) && After(p, more).x.freed && After(p, more).y.freed
      && forall other | Draining(p, other) :: |other| <= Weight(p)
  {
    RunInv(hwmX, hwmY, run);
    var p := Exec(PipePair(hwmX, hwmY), run);
    hide Inv, Exec, PipePair, Weight, Draining, After;
    more := RestIsReached(p);
    RestIsDone(After(p, more));
    forall other | Draining(p, other) ensures |other| <= Weight(p) {
      DrainIsBounded(p, other);
    }
  }
}
