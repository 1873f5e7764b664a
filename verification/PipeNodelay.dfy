/** Ends without delay: nobody there will read up to the delimiter, so termination must not wait for that. */
module PipeNodelay {
  import opened YPipes
  import opened PipeProtocol
  import opened PipeSafety
  import opened PipeFlow
  import opened PipeRuns

  /** The end does not wait for a delimiter, and is not going to. */
  predicate Eager(e: End) {
    e.state != WaitingForDelimiter && (e.state == Active ==> !e.delay)
  }

  // ---- one request ----

  /** The end has acknowledged and given up its outbound queue. */
  predicate Answered(was: State, e: End) {
    !e.hasOut && e.state == if was == TermReqSent1 then TermReqSent2 else TermAckSent
  }

  /** How a request to terminate is answered: at once by an end that has no delay, has seen the delimiter or asked
      itself, and else not before the delimiter. */
  lemma RequestAnswered(hwmX: int, hwmY: int, run: seq<Move>)
    requires var p := Exec(PipePair(hwmX, hwmY), run); !p.x.freed && p.yx.cmds != [] && p.yx.cmds[0] == PipeTerm
    ensures var p := Exec(PipePair(hwmX, hwmY), run);
      var q := StepX(p, OpDeliver);
      if p.x.state == Active && p.x.delay
      then q.x.state == WaitingForDelimiter && q.x.hasOut && q.xy.cmds == p.xy.cmds
      else Answered(p.x.state, q.x) && q.xy.cmds == p.xy.cmds + [PipeTermAck]
  {
    RunSafe(hwmX, hwmY, run);
    var p := Exec(PipePair(hwmX, hwmY), run);
    hide Exec, PipePair;
    TermSent(p);
    assert p.x.state == Active || p.x.state == DelimiterReceived || p.x.state == TermReqSent1;
    RequestHandled(View(p));
    var q := Popped(p);
    assert StepX(p, OpDeliver) == Update(q, ProcessPipeTerm(View(q))) && View(q) == View(p);
    hide ProcessPipeTerm, Safe;
  }

  lemma RequestHandled(ep: Ep)
    requires ep.e.state == Active || ep.e.state == DelimiterReceived || ep.e.state == TermReqSent1
    ensures var t := ProcessPipeTerm(ep);
      if ep.e.state == Active && ep.e.delay
      then t.e.state == WaitingForDelimiter && t.e.hasOut == ep.e.hasOut && t.cmds == ep.cmds
      else Answered(ep.e.state, t.e) && t.cmds == ep.cmds + [PipeTermAck]
  {
  }

  // ---- ends that never wait ----

  /** An active end that has been set nodelay is eager, and so is any end that its user terminated without delay. */
  lemma BecomesEager(p: Pair)
    requires !p.x.freed
    ensures p.x.state == Active ==> Eager(StepX(p, OpNodelay).x)
    ensures Eager(StepX(p, OpTerminate(false)).x)
  {
    TerminatedEager(View(p));
    hide Terminate;
  }

  lemma TerminatedEager(ep: Ep)
    ensures Eager(Terminate(ep, false).e)
  {
    var p := ep.(e := ep.e.(delay := false, selfTerm := true));
    AskedEager(p);
    CloseOutFrame(Ask(p));
    hide CloseOut, Ask;
  }

  lemma AskedEager(ep: Ep)
    requires !ep.e.delay
    ensures Eager(Ask(ep).e)
  {
  }

  lemma {:induction false} ReadEager(ep: Ep)
    requires Eager(ep.e)
    ensures Eager(ReadLoop(ep).0.e)
    decreases |ep.inq.ready|
  {
    hide Take, ProcessDelimiter;
    if ep.inq.ready == [] {
      assert ReadLoop(ep).0 == Sleep(ep);
    } else if ep.inq.ready[0].Delimiter? {
      DelimiterEager(ep.(inq := ep.inq.Pop()));
    } else if ep.inq.ready[0].credential {
      ReadEager(SkipCredential(ep));
    } else {
      TakeEager(ep);
    }
  }

  lemma TakeEager(ep: Ep)
    requires ep.inq.ready != [] && Eager(ep.e)
    ensures Eager(Take(ep).e)
  {
    hide Reports;
  }

  lemma DelimiterEager(ep: Ep)
    requires Eager(ep.e)
    ensures Eager(ProcessDelimiter(ep).e)
  {
  }

  lemma EagerStep(p: Pair, op: Op)
    requires Eager(p.x) && Enabled(p, op)
    ensures Eager(StepX(p, op).x) && StepX(p, op).y == p.y
  {
    var ep := View(p);
    match op
    case OpRead => ReadEager(ep); hide ReadLoop;
    case OpCheckRead =>
      if ep.inq.ready != [] {
        DelimiterEager(ep.(inq := ep.inq.Pop()));
      }
      hide ProcessDelimiter;
    case OpTerminate(d) => TerminateEager(ep, d); hide Terminate;
    case OpDeliver => DeliverEager(p); hide Deliver;
    case _ =>
  }

  lemma TerminateEager(ep: Ep, d: bool)
    requires Eager(ep.e)
    ensures Eager(Terminate(ep, d).e)
  {
    CloseOutFrame(Ask(ep.(e := ep.e.(delay := d, selfTerm := true))));
    hide CloseOut;
  }

  lemma HandlersEager(ep: Ep, n: nat)
    requires Eager(ep.e)
    ensures Eager(ProcessActivateRead(ep).e) && Eager(ProcessActivateWrite(ep, n).e)
  {
  }

  lemma AckEager(ep: Ep, e: End)
    requires e.state == TermAckSent || e.state == TermReqSent2
    ensures Eager(SendAck(ep.(e := e)).e)
  {
  }

  lemma TermEager(ep: Ep)
    requires Eager(ep.e)
    ensures Eager(ProcessPipeTerm(ep).e)
  {
    hide SendAck;
    var acked, both := ep.(e := ep.e.(state := TermAckSent)), ep.(e := ep.e.(state := TermReqSent2));
    AckEager(ep, acked.e);
    AckEager(ep, both.e);
    hide Eager;
    if ep.e.state == Active || ep.e.state == DelimiterReceived {
      if ep.e.state == Active {
        NoDelayWhenActive(ep.e);
      }
      assert ProcessPipeTerm(ep) == SendAck(acked);
    } else if ep.e.state == TermReqSent1 {
      assert ProcessPipeTerm(ep) == SendAck(both);
    } else {
      FailedEager(ep.e);
      assert ProcessPipeTerm(ep).e == ep.e.(failed := true);
    }
  }

  lemma NoDelayWhenActive(e: End)
    requires Eager(e) && e.state == Active
    ensures !e.delay
  {
  }

  lemma FailedEager(e: End)
    requires Eager(e)
    ensures Eager(e.(failed := true))
  {
  }

  lemma TermAckEager(ep: Ep)
    requires Eager(ep.e)
    ensures Eager(ProcessPipeTermAck(ep).e)
  {
  }

  lemma HiccupEager(p: Pair)
    requires Eager(p.x)
    ensures Eager(DeliverHiccup(p).x) && DeliverHiccup(p).y == p.y
  {
  }

  lemma DeliverEager(p: Pair)
    requires Eager(p.x) && p.yx.cmds != []
    ensures Eager(Deliver(p).x) && Deliver(p).y == p.y
  {
    var q, c := Popped(p), p.yx.cmds[0];
    assert q.x == p.x && q.y == p.y;
    HandlersEager(View(q), if c.ActivateWrite? then c.msgsRead else 0);
    TermEager(View(q));
    TermAckEager(View(q));
    HiccupEager(q);
    hide Eager, DeliverHiccup, ProcessActivateRead, ProcessActivateWrite, ProcessPipeTerm, ProcessPipeTermAck;
  }

  /** Once eager, always eager, whatever happens. */
  lemma {:induction false} StaysEager(p: Pair, run: seq<Move>)
    requires Eager(p.x)
    ensures Eager(Exec(p, run).x)
    decreases |run|
  {
    if run != [] {
      var n := |run| - 1;
      StaysEager(p, run[..n]);
      var q, mv := Exec(p, run[..n]), run[n];
      hide StepX;
      if mv.onX && Enabled(q, mv.op) {
        EagerStep(q, mv.op);
      } else if !mv.onX && Enabled(Flip(q), mv.op) {
        PeerStays(Flip(q), mv.op);
      }
    }
  }

  lemma PeerStays(p: Pair, op: Op)
    requires Enabled(p, op)
    ensures StepX(p, op).y == p.y
  {
    hide Terminate, Read, CheckRead, CheckWrite, Write, Rollback, Flush;
  }

  // ---- completion without reading ----

  /** No command is in flight, and an end that may have to read up to the delimiter has nothing to read. */
  predicate Settled(p: Pair) {
    && p.xy.cmds == [] && p.yx.cmds == []
    && (Eager(p.x) || NothingToRead(p.x, LastOf(p.yx.chain)))
    && (Eager(p.y) || NothingToRead(p.y, LastOf(p.xy.chain)))
  }

  lemma SettledIsDone(p: Pair)
    requires Inv(p) && Settled(p) && (p.x.selfTerm || p.y.selfTerm)
    ensures p.x.freed && p.y.freed
  {
    hide Delivery, Credit;
    assert Ctl(p.xy.cmds) == [] && Ctl(p.yx.cmds) == [];
  }

  /** Completion with ends that never read: if x was eager at some point, then later, once a user has terminated an end, a
      state without undelivered commands in which y (if it is to wait for a delimiter) has nothing to read has both ends
      freed, whatever x has left unread. */
  lemma NodelayCompletes(hwmX: int, hwmY: int, run: seq<Move>, more: seq<Move>)
    requires NoHiccups(run) && NoHiccups(more) && Eager(Exec(PipePair(hwmX, hwmY), run).x)
    requires var p := Exec(Exec(PipePair(hwmX, hwmY), run), more);
      && p.xy.cmds == [] && p.yx.cmds == [] && (p.x.selfTerm || p.y.selfTerm)
      && (Eager(p.y) || NothingToRead(p.y, LastOf(p.xy.chain)))
    ensures var p := Exec(Exec(PipePair(hwmX, hwmY), run), more); p.x.freed && p.y.freed
  {
    var p0 := PipePair(hwmX, hwmY);
    StaysEager(Exec(p0, run), more);
    ExecJoin(p0, run, more);
    assert NoHiccups(run + more);
    RunInv(hwmX, hwmY, run + more);
    hide Exec, Inv, PipePair;
    SettledIsDone(Exec(p0, run + more));
  }

  lemma {:induction false} ExecJoin(p: Pair, run: seq<Move>, more: seq<Move>)
    ensures Exec(Exec(p, run), more) == Exec(p, run + more)
    decreases |more|
  {
    if more == [] {
      assert run + more == run;
    } else {
      var n := |more| - 1;
      assert (run + more)[..|run| + n] == run + more[..n];
      ExecJoin(p, run, more[..n]);
      hide Step;
    }
  }

  /** Only deliveries and reads of y. */
  predicate WithoutX(more: seq<Move>) {
    forall i :: 0 <= i < |more| ==> more[i].op == OpRead ==> !more[i].onX
  }

  lemma SomethingLeft(p: Pair) returns (mv: Move)
    requires Inv(p) && Eager(p.x) && !Settled(p)
    ensures Drains(mv) && Step(p, mv) != p && (mv.op == OpRead ==> !mv.onX)
  {
    FlipSafe(p);
    assert Inv(Flip(p)) && |p.xy.chain| == 1 && |p.yx.chain| == 1;
    assert (p.x.freed ==> p.yx.cmds == []) && (p.y.freed ==> p.xy.cmds == []);
    FlipWeight(p);
    hide Safe, Data, StepX, Weight;
    if p.yx.cmds != [] {
      mv := Move(true, OpDeliver);
      DrainX(p, OpDeliver);
    } else if p.xy.cmds != [] {
      mv := Move(false, OpDeliver);
      DrainX(Flip(p), OpDeliver);
    } else {
      mv := Move(false, OpRead);
      DrainX(Flip(p), OpRead);
    }
  }

  lemma {:induction false} SettledIsReached(p: Pair) returns (more: seq<Move>)
    requires Inv(p) && Eager(p.x)
    ensures Draining(p, more) && WithoutX(more)
    ensures var q := After(p, more); Inv(q) && Settled(q) && q.x.selfTerm == p.x.selfTerm && q.y.selfTerm == p.y.selfTerm
    decreases Weight(p)
  {
    hide Inv, Weight, Step, Settled, Eager;
    if Settled(p) {
      more := [];
    } else {
      var mv := SomethingLeft(p);
      DrainInv(p, mv);
      DrainStep(p, mv);
      StaysEager(p, [mv]);
      assert [mv][..0] == [] && Exec(p, [mv]) == Step(p, mv);
      var rest := SettledIsReached(Step(p, mv));
      more := [mv] + rest;
      assert more[1..] == rest;
    }
  }

  /** And that is reached: after any run in which an end was terminated and x is eager, deliveries and reads of y alone lead
      to both ends freed. */
  lemma NodelayIsReached(hwmX: int, hwmY: int, run: seq<Move>) returns (more: seq<Move>)
    requires NoHiccups(run)
    requires var p := Exec(PipePair(hwmX, hwmY), run); Eager(p.x) && (p.x.selfTerm || p.y.selfTerm)
    ensures var p := Exec(PipePair(hwmX, hwmY), run);
      Draining(p, more) && WithoutX(more) && After(p, more).x.freed && After(p, more).y.freed
  {
    RunInv(hwmX, hwmY, run);
    var p := Exec(PipePair(hwmX, hwmY), run);
    hide Inv, Exec, PipePair, Weight, Draining, After, Settled;
    more := SettledIsReached(p);
    SettledIsDone(After(p, more));
  }
}
