/** Credential frames and the watermark: the allowance of hwm - lwm frames is exact. */
module PipeCredentials {
  import opened YPipes
  import opened PipeProtocol
  import opened PipeSafety
  import opened PipeFlow

  const PLAIN := Item(0, false, false, false)
  const CREDENTIAL := Item(0, false, false, true)

  ghost predicate Reachable(hwm: int, p: Pair) {
    exists run :: NoHiccups(run) && Exec(PipePair(hwm, 0), run) == p
  }

  lemma ReachStep(hwm: int, p: Pair, mv: Move)
    requires Reachable(hwm, p) && mv.op != OpHiccup
    ensures Reachable(hwm, Step(p, mv))
  {
    hide Step, PipePair;
    var run :| NoHiccups(run) && Exec(PipePair(hwm, 0), run) == p;
    var more := run + [mv];
    assert more[..|more| - 1] == run;
    assert NoHiccups(more);
  }

  /** `i` messages followed by `j` credential frames. */
  function Batch(i: nat, j: nat): (s: seq<Item>)
    ensures |s| == i + j
  {
    if i > 0 then [PLAIN] + Batch(i - 1, j) else if j > 0 then [CREDENTIAL] + Batch(0, j - 1) else []
  }

  lemma {:induction false} BatchSnoc(i: nat, j: nat)
    ensures Batch(i, j) + [CREDENTIAL] == Batch(i, j + 1)
    ensures j == 0 ==> Batch(i, 0) + [PLAIN] == Batch(i + 1, 0)
    decreases i, j
  {
    if i > 0 {
      BatchSnoc(i - 1, j);
      assert ([PLAIN] + Batch(i - 1, j)) + [CREDENTIAL] == [PLAIN] + (Batch(i - 1, j) + [CREDENTIAL]);
      assert j == 0 ==> ([PLAIN] + Batch(i - 1, 0)) + [PLAIN] == [PLAIN] + (Batch(i - 1, 0) + [PLAIN]);
    } else if j > 0 {
      BatchSnoc(0, j - 1);
      assert ([CREDENTIAL] + Batch(0, j - 1)) + [CREDENTIAL] == [CREDENTIAL] + (Batch(0, j - 1) + [CREDENTIAL]);
    }
  }

  /** x has written a batch and not flushed it. */
  function Written(hwm: int, i: nat, j: nat): Pair {
    var p := PipePair(hwm, 0);
    p.(x := p.x.(msgsWritten := i + j),
       xy := p.xy.(chain := [Queue([], Batch(i, j), [], false)], wrote := Batch(i, j)))
  }

  /** The batch of i messages and j credential frames is flushed and y has read k of the messages. */
  function ReadUpTo(hwm: int, i: nat, j: nat, k: nat): Pair
    requires k <= i
  {
    var p := Written(hwm, i, j);
    p.(y := p.y.(msgsRead := k),
       xy := p.xy.(chain := [Queue(Batch(i - k, j), [], [], false)], got := Batch(k, 0)))
  }

  lemma WriteOne(hwm: int, i: nat, j: nat, m: Item)
    requires i + j < hwm && (m == CREDENTIAL || (m == PLAIN && j == 0))
    ensures Step(Written(hwm, i, j), Move(true, OpWrite(m)))
         == if m == PLAIN then Written(hwm, i + 1, 0) else Written(hwm, i, j + 1)
  {
    BatchSnoc(i, j);
    var p := Written(hwm, i, j);
    var b := Batch(i, j);
    assert [] + [m] == [m];
    assert Write(View(p), m).outq == Queue([], b + [m], [], false);
    assert Write(View(p), m).wrote == b + [m];
    hide Batch;
  }

  lemma {:induction false} WriteBatch(hwm: int, i: nat, j: nat)
    requires i + j <= hwm
    ensures Reachable(hwm, Written(hwm, i, j))
    decreases i + j
  {
    hide Reachable, Step, Written;
    if j > 0 {
      WriteBatch(hwm, i, j - 1);
      WriteOne(hwm, i, j - 1, CREDENTIAL);
      ReachStep(hwm, Written(hwm, i, j - 1), Move(true, OpWrite(CREDENTIAL)));
    } else if i > 0 {
      WriteBatch(hwm, i - 1, 0);
      WriteOne(hwm, i - 1, 0, PLAIN);
      ReachStep(hwm, Written(hwm, i - 1, 0), Move(true, OpWrite(PLAIN)));
    } else {
      Start(hwm);
    }
  }

  lemma Start(hwm: int)
    ensures Reachable(hwm, Written(hwm, 0, 0))
  {
    assert Exec(PipePair(hwm, 0), []) == Written(hwm, 0, 0);
    assert NoHiccups([]);
  }

  lemma NoReport(n: nat, l: int)
    requires 0 < n < l
    ensures !Reports(n, l)
  {
    SameQuotient(n, l, 0, n);
  }

  lemma ReadOne(hwm: int, i: nat, j: nat, k: nat)
    requires k < i < ComputeLwm(hwm)
    ensures Step(ReadUpTo(hwm, i, j, k), Move(false, OpRead)) == ReadUpTo(hwm, i, j, k + 1)
  {
    var p := ReadUpTo(hwm, i, j, k);
    var v := View(Flip(p));
    BatchSnoc(k, 0);
    assert v.inq.ready[0] == PLAIN && v.inq.ready[1..] == Batch(i - k - 1, j);
    NoReport(k + 1, v.e.lwm);
    hide Reports;
    assert ReadLoop(v).0 == Take(v);
    hide Batch, ReadLoop, ComputeLwm;
    var t := Take(v);
    assert t.inq == Queue(Batch(i - k - 1, j), [], [], false) && t.got == Batch(k + 1, 0) && t.cmds == [];
  }

  lemma {:induction false} ReadBatch(hwm: int, i: nat, j: nat, k: nat)
    requires k <= i < ComputeLwm(hwm) && i + j <= hwm
    ensures Reachable(hwm, ReadUpTo(hwm, i, j, k))
    decreases k
  {
    if k == 0 {
      WriteBatch(hwm, i, j);
      ReachStep(hwm, Written(hwm, i, j), Move(true, OpFlush));
      FlushBatch(hwm, i, j);
    } else {
      hide Reachable, Step, ReadUpTo;
      ReadBatch(hwm, i, j, k - 1);
      ReadOne(hwm, i, j, k - 1);
      ReachStep(hwm, ReadUpTo(hwm, i, j, k - 1), Move(false, OpRead));
    }
  }

  lemma FlushBatch(hwm: int, i: nat, j: nat)
    ensures Step(Written(hwm, i, j), Move(true, OpFlush)) == ReadUpTo(hwm, i, j, 0)
  {
    var b := Batch(i, j);
    assert [] + b == b;
    hide Batch;
    var p := Written(hwm, i, j);
    assert i == 0 == j ==> b == [];
    assert Flush(View(p)).outq == Queue(b, [], [], false);
    assert Batch(0, 0) == [] by { assert |Batch(0, 0)| == 0; }
  }

  /** Reading nothing but credential frames hands nothing over and puts the reader to sleep. */
  lemma {:induction false} SkipAll(ep: Ep, j: nat)
    requires ep.inq == Queue(Batch(0, j), [], [], false)
    ensures ReadLoop(ep).0
         == ep.(inq := Queue([], [], [], true), skipped := ep.skipped + j, e := ep.e.(inActive := false))
    decreases j
  {
    if j > 0 {
      assert ep.inq.ready[0] == CREDENTIAL && ep.inq.ready[1..] == Batch(0, j - 1);
      SkipAll(SkipCredential(ep), j - 1);
    }
  }

  /** For every watermark: one credential frame more than the allowance, and there is a run after
      which the writer is stopped with nothing in flight and nothing left to read; and whatever the users do
      then, short of terminating or a hiccup, not one more message is accepted. */
  lemma CredentialsStopWriter(hwm: int)
    requires hwm > 0
    ensures exists p :: Reachable(hwm, p) && Stopped(p) && p.xy.skipped == hwm - ComputeLwm(hwm) + 1 && ForGood(p)
  {
    var i := ComputeLwm(hwm) - 1;
    var j := hwm - i;
    ReadBatch(hwm, i, j, i);
    var q := ReadUpTo(hwm, i, j, i);
    var p := Step(q, Move(false, OpRead));
    ReachStep(hwm, q, Move(false, OpRead));
    LastRead(hwm, i, j);
    hide Reachable, Step, Stuck;
    forall run | Harmless(run) ensures Exec(p, run).xy.wrote == p.xy.wrote && Full(Exec(p, run).x) {
      StuckForever(p, run);
    }
    hide Stopped;
    assert Reachable(hwm, p) && Stopped(p) && p.xy.skipped == hwm - ComputeLwm(hwm) + 1 && ForGood(p);
  }

  /** Neither end is terminated, and there is no hiccup. */
  predicate Harmless(run: seq<Move>) {
    forall i :: 0 <= i < |run| ==> !run[i].op.OpTerminate? && !run[i].op.OpHiccup?
  }

  ghost predicate ForGood(p: Pair) {
    forall run | Harmless(run) :: Exec(p, run).xy.wrote == p.xy.wrote && Full(Exec(p, run).x)
  }

  /** x is at its watermark, y has read all there is, and no report says anything new. */
  predicate Stuck(p: Pair) {
    && Full(p.x) && p.x.state == Active && p.y.state == Active && !p.x.freed && !p.y.freed
    && |p.xy.chain| == 1 && |p.yx.chain| == 1 && p.xy.chain[0].Complete() == []
    && Clean(p.yx.chain[0]) && NoDelimiter(p.yx.chain[0].partial) && Old(p.yx.cmds, p.x.peersMsgsRead) && Plain(p.xy.cmds)
  }

  predicate Old(s: seq<Cmd>, n: nat) {
    forall i :: 0 <= i < |s| ==> s[i] == ActivateRead || s[i] == ActivateWrite(n)
  }

  predicate Plain(s: seq<Cmd>) {
    forall i :: 0 <= i < |s| ==> s[i] == ActivateRead || s[i].ActivateWrite?
  }

  /** t has read from a queue without delimiters: neither the state nor what is written has changed. */
  predicate OnlyRead(ep: Ep, t: Ep) {
    && t.e == ep.e.(inActive := t.e.inActive, msgsRead := t.e.msgsRead)
    && Clean(t.inq) && t.inq.partial == ep.inq.partial && t.outq == ep.outq && t.wrote == ep.wrote
    && (t.cmds == ep.cmds || t.cmds == ep.cmds + [ActivateWrite(t.e.msgsRead)])
  }

  lemma PopClean(q: Queue<Item>)
    requires Clean(q) && q.ready != []
    ensures Clean(q.Pop()) && q.ready[0].Item?
  {
  }

  lemma TakeStays(ep: Ep)
    requires Clean(ep.inq) && ep.inq.ready != []
    ensures OnlyRead(ep, Take(ep))
  {
    PopClean(ep.inq);
    hide Clean, Reports;
  }

  lemma SleepStays(ep: Ep)
    requires Clean(ep.inq)
    ensures OnlyRead(ep, Sleep(ep))
  {
  }

  lemma SkipStays(ep: Ep, t: Ep)
    requires Clean(ep.inq) && ep.inq.ready != [] && OnlyRead(SkipCredential(ep), t)
    ensures OnlyRead(ep, t)
  {
    hide Clean;
  }

  lemma {:induction false} ReadStays(ep: Ep)
    requires Clean(ep.inq)
    ensures OnlyRead(ep, ReadLoop(ep).0)
    decreases |ep.inq.ready|
  {
    if ep.inq.ready != [] {
      PopClean(ep.inq);
    }
    hide Clean, OnlyRead, Take, Sleep;
    if ep.inq.ready == [] {
      SleepStays(ep);
    } else if ep.inq.ready[0].credential {
      ReadStays(SkipCredential(ep));
      SkipStays(ep, ReadLoop(SkipCredential(ep)).0);
    } else {
      TakeStays(ep);
    }
  }

  /** x changes nothing that keeps it stuck. */
  lemma StuckUpdate(p: Pair, t: Ep)
    requires Stuck(p) && t.wrote == p.xy.wrote && t.outq.Complete() == [] && Clean(t.inq) && NoDelimiter(t.inq.partial)
    requires t.e == p.x.(delay := t.e.delay, failed := t.e.failed, inActive := t.e.inActive, outActive := t.e.outActive, msgsRead := t.e.msgsRead)
    requires t.cmds == p.xy.cmds || (t.cmds == p.xy.cmds + [ActivateWrite(t.e.msgsRead)])
    ensures Stuck(Update(p, t)) && Update(p, t).xy.wrote == p.xy.wrote
  {
    UpdateOnly(p, t);
    hide Clean, NoDelimiter, Old;
  }

  lemma StuckDeliverX(p: Pair)
    requires Stuck(p) && p.yx.cmds != []
    ensures Stuck(Deliver(p)) && Deliver(p).xy.wrote == p.xy.wrote
  {
    var q := Popped(p);
    assert Old(q.yx.cmds, p.x.peersMsgsRead);
    assert Stuck(q);
    var n := p.x.peersMsgsRead;
    assert p.yx.cmds[0] == ActivateRead || p.yx.cmds[0] == ActivateWrite(n);
    StuckUpdate(q, ProcessActivateRead(View(q)));
    StuckUpdate(q, ProcessActivateWrite(View(q), n));
    hide Stuck, Update;
  }

  lemma StuckReadX(p: Pair)
    requires Stuck(p)
    ensures var v := View(p);
      && Stuck(Update(p, Read(v).0)) && Update(p, Read(v).0).xy.wrote == p.xy.wrote
      && Stuck(Update(p, CheckRead(v).0)) && Update(p, CheckRead(v).0).xy.wrote == p.xy.wrote
  {
    var v := View(p);
    assert Stuck(Update(p, v)) && Update(p, v).xy.wrote == p.xy.wrote by {
      StuckUpdate(p, v);
    }
    ReadStays(v);
    SleepStays(v);
    if v.inq.ready != [] {
      PopClean(v.inq);
    }
    StuckUpdate(p, ReadLoop(v).0);
    StuckUpdate(p, Sleep(v));
    hide ReadLoop, Stuck, Update, Sleep, Clean, OnlyRead;
  }

  lemma StuckWriteX(p: Pair, m: Item)
    requires Stuck(p) && m.Item?
    ensures var v := View(p); Stuck(Update(p, CheckWrite(v))) && Update(p, CheckWrite(v)).xy.wrote == p.xy.wrote
    ensures Write(View(p), m) == CheckWrite(View(p))
  {
    StuckUpdate(p, CheckWrite(View(p)));
    hide Stuck;
  }

  lemma StuckFlushX(p: Pair)
    requires Stuck(p)
    ensures var v := View(p);
      && Stuck(Update(p, Rollback(v))) && Update(p, Rollback(v)).xy.wrote == p.xy.wrote
      && Stuck(Update(p, Flush(v))) && Update(p, Flush(v)).xy.wrote == p.xy.wrote
  {
    var v := View(p);
    assert v.outq.pending == [];
    StuckUpdate(p, Rollback(v));
    StuckUpdate(p, Flush(v));
  }

  /** What x does, without terminating, leaves it stuck. */
  lemma StuckX(p: Pair, op: Op)
    requires Stuck(p) && Enabled(p, op) && !op.OpTerminate? && !op.OpHiccup?
    ensures var q := StepX(p, op); Stuck(q) && q.xy.wrote == p.xy.wrote
  {
    StuckReadX(p);
    StuckFlushX(p);
    StuckWriteX(p, if op.OpWrite? then op.m else PLAIN);
    if op == OpDeliver {
      StuckDeliverX(p);
    } else if op == OpNodelay {
      ViewUpdate(p, View(p), View(p));
    }
    hide Read, CheckRead, Rollback, Flush, CheckWrite, Write, Update, Deliver;
  }

  /** y changes nothing that keeps x stuck. */
  lemma StuckUpdateY(p: Pair, t: Ep)
    requires Stuck(p) && t.inq.Complete() == [] && Clean(t.outq) && NoDelimiter(t.outq.partial)
    requires t.e.state == Active && !t.e.freed
    requires t.cmds == p.yx.cmds || t.cmds == p.yx.cmds + [ActivateRead]
    ensures var q := Flip(Update(Flip(p), t)); Stuck(q) && q.xy.wrote == p.xy.wrote
  {
    UpdateOnly(Flip(p), t);
    hide Clean, NoDelimiter, Plain;
  }

  lemma StuckDeliverY(p: Pair)
    requires Stuck(p) && p.xy.cmds != []
    ensures var q := Flip(Deliver(Flip(p))); Stuck(q) && q.xy.wrote == p.xy.wrote
  {
    var q := Flip(Popped(Flip(p)));
    assert Plain(q.xy.cmds) && Stuck(q);
    assert p.xy.cmds[0] == ActivateRead || p.xy.cmds[0].ActivateWrite?;
    StuckUpdateY(q, ProcessActivateRead(View(Flip(q))));
    if p.xy.cmds[0].ActivateWrite? {
      StuckUpdateY(q, ProcessActivateWrite(View(Flip(q)), p.xy.cmds[0].msgsRead));
    }
    hide Stuck, Update;
  }

  /** x is stuck in q as it was in p, and nothing more is accepted. */
  predicate StillStuck(p: Pair, q: Pair) {
    Stuck(q) && q.xy.wrote == p.xy.wrote
  }

  lemma StuckReadY(p: Pair)
    requires Stuck(p)
    ensures var f := Flip(p); var v := View(f); StillStuck(p, Flip(Update(f, Read(v).0))) && StillStuck(p, Flip(Update(f, CheckRead(v).0)))
  {
    var v := View(Flip(p));
    assert v.inq.ready == [];
    StuckUpdateY(p, v);
    StuckUpdateY(p, Sleep(v));
    assert (Read(v).0 == v || Read(v).0 == Sleep(v)) && (CheckRead(v).0 == v || CheckRead(v).0 == Sleep(v));
    hide Stuck, Update, Read, CheckRead, Sleep;
  }

  lemma StuckWriteY(p: Pair, m: Item)
    requires Stuck(p) && m.Item?
    ensures var f := Flip(p); var v := View(f); StillStuck(p, Flip(Update(f, Write(v, m)))) && StillStuck(p, Flip(Update(f, CheckWrite(v))))
  {
    StuckUpdateY(p, CheckWrite(View(Flip(p))));
    StuckUpdateY(p, Write(View(Flip(p)), m));
    hide Stuck, Update;
  }

  lemma StuckFlushY(p: Pair)
    requires Stuck(p)
    ensures var f := Flip(p); var v := View(f); StillStuck(p, Flip(Update(f, Rollback(v)))) && StillStuck(p, Flip(Update(f, Flush(v))))
  {
    StuckUpdateY(p, Rollback(View(Flip(p))));
    StuckUpdateY(p, Flush(View(Flip(p))));
    hide Stuck, Update;
  }

  /** So does what y does: it has nothing to read, hence nothing to report. */
  lemma StuckY(p: Pair, op: Op)
    requires Stuck(p) && Enabled(Flip(p), op) && !op.OpTerminate? && !op.OpHiccup?
    ensures var q := Flip(StepX(Flip(p), op)); Stuck(q) && q.xy.wrote == p.xy.wrote
  {
    StuckReadY(p);
    StuckFlushY(p);
    StuckWriteY(p, if op.OpWrite? then op.m else PLAIN);
    if op == OpDeliver {
      StuckDeliverY(p);
    } else if op == OpNodelay {
      ViewUpdate(Flip(p), View(Flip(p)), View(Flip(p)));
    }
    hide Read, CheckRead, Rollback, Flush, CheckWrite, Write, Update, Deliver;
  }

  lemma {:induction false} StuckForever(p: Pair, run: seq<Move>)
    requires Stuck(p) && Harmless(run)
    ensures var q := Exec(p, run); Stuck(q) && q.xy.wrote == p.xy.wrote && Full(q.x)
    decreases |run|
  {
    if run != [] {
      var n := |run| - 1;
      StuckForever(p, run[..n]);
      var q, mv := Exec(p, run[..n]), run[n];
      hide Exec, StepX;
      if mv.onX && Enabled(q, mv.op) {
        StuckX(q, mv.op);
      } else if !mv.onX && Enabled(Flip(q), mv.op) {
        StuckY(q, mv.op);
      }
      hide Stuck;
    }
  }

  lemma LastRead(hwm: int, i: nat, j: nat)
    requires hwm > 0 && i + j == hwm
    ensures var q := Step(ReadUpTo(hwm, i, j, i), Move(false, OpRead)); Stopped(q) && Stuck(q) && q.xy.skipped == j
  {
    var p := ReadUpTo(hwm, i, j, i);
    var v := View(Flip(p));
    SkipAll(v, j);
    hide ReadLoop, Batch, ComputeLwm;
    var t := Read(v).0;
    assert Update(Flip(p), t).yx.chain == [t.inq];
  }

  predicate Stopped(p: Pair) {
    && Full(p.x) && Quiet(p) && p.xy.chain[0].Complete() == []
    && p.x.state == Active && p.y.state == Active && !p.x.freed && !p.y.freed
  }
}
