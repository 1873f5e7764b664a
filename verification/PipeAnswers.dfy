/** What the users of a pipe pair are told: the answers of reads and writes, what they add up to over runs, and the
    count of written messages. */
module PipeAnswers {
  import opened YPipes
  import opened PipeProtocol
  import opened PipeSafety
  import opened PipeFlow

  // ---- one read ----

  /** The first message that is not a credential frame is in place i, before any delimiter. */
  predicate FirstAt(ready: seq<Item>, i: nat) {
    && i < |ready| && ready[i].Item? && !ready[i].credential
    && forall j :: 0 <= j < i ==> ready[j].Item? && ready[j].credential
  }

  /** t and m are what a read of ep leaves and returns, if ep may read: the first such message, which is handed over and
      taken off the queue with the frames before it; or nothing, and then the gate is shut, or the delimiter has come. */
  ghost predicate Answers(ep: Ep, t: Ep, m: Option<Item>) {
    && (m.Some? <==> exists i: nat :: FirstAt(ep.inq.ready, i))
    && (forall i: nat :: FirstAt(ep.inq.ready, i) ==> m == Some(ep.inq.ready[i]) && t.inq == ep.inq.(ready := ep.inq.ready[i + 1..]))
    && t.got == ep.got + (if m.Some? then [m.value] else [])
    && (m.Some? ==> t.e.state == ep.e.state && t.e.inActive == ep.e.inActive)
    && (m.None? ==> !t.e.inActive || t.e.sawDelim)
  }

  lemma AnswersSkip(ep: Ep, t: Ep, m: Option<Item>)
    requires ep.inq.ready != [] && ep.inq.ready[0].Item? && ep.inq.ready[0].credential && Answers(SkipCredential(ep), t, m)
    ensures Answers(ep, t, m)
  {
    var ready := ep.inq.ready;
    forall i: nat | FirstAt(ready, i) ensures i > 0 && FirstAt(ready[1..], i - 1) && ready[1..][i..] == ready[i + 1..] {
    }
    forall i: nat | FirstAt(ready[1..], i) ensures FirstAt(ready, i + 1) {
      assert forall j :: 0 < j < i + 1 ==> ready[j] == ready[1..][j - 1];
    }
    hide FirstAt;
    assert forall i: nat :: FirstAt(ready, i) ==> ready[i] == ready[1..][i - 1];
  }

  lemma AnswersTake(ep: Ep)
    requires ep.inq.ready != [] && ep.inq.ready[0].Item? && !ep.inq.ready[0].credential
    ensures Answers(ep, Take(ep), Some(ep.inq.ready[0]))
  {
    assert FirstAt(ep.inq.ready, 0);
    hide Reports;
  }

  lemma AnswersDelimiter(ep: Ep)
    requires ep.inq.ready != [] && ep.inq.ready[0].Delimiter?
    ensures Answers(ep, ProcessDelimiter(ep.(inq := ep.inq.Pop())), None)
  {
    DelimiterGives(ep.(inq := ep.inq.Pop()));
    hide ProcessDelimiter;
  }

  lemma DelimiterGives(ep: Ep)
    ensures ProcessDelimiter(ep).got == ep.got && ProcessDelimiter(ep).e.sawDelim
  {
  }

  lemma {:induction false} ReadLoopAnswer(ep: Ep)
    ensures Answers(ep, ReadLoop(ep).0, ReadLoop(ep).1)
    decreases |ep.inq.ready|
  {
    if ep.inq.ready == [] {
      assert Answers(ep, Sleep(ep), None);
    } else if ep.inq.ready[0].Delimiter? {
      AnswersDelimiter(ep);
      hide Answers;
    } else if ep.inq.ready[0].credential {
      hide Answers;
      ReadLoopAnswer(SkipCredential(ep));
      AnswersSkip(ep, ReadLoop(SkipCredential(ep)).0, ReadLoop(SkipCredential(ep)).1);
    } else {
      AnswersTake(ep);
      hide Answers;
    }
  }

  /** A read of an end that is reading and whose gate is open answers with the first message that is not a credential
      frame, if one comes before any delimiter, and hands over exactly that; any other read answers nothing, hands over
      nothing, and an end that is not reading or whose gate is shut stays as it is. */
  lemma ReadAnswer(ep: Ep)
    ensures var (t, m) := Read(ep);
      && (if Reading(ep.e) && ep.e.inActive then Answers(ep, t, m) else m == None && t == ep)
      && t.got == ep.got + if m.Some? then [m.value] else []
  {
    ReadLoopAnswer(ep);
    hide ReadLoop, FirstAt;
  }

  /** A check is true exactly when the end is reading, its gate is open and the next item is no delimiter; it takes
      nothing but a delimiter. */
  lemma CheckReadAnswer(ep: Ep)
    ensures var (t, ok) := CheckRead(ep);
      && (ok <==> Reading(ep.e) && ep.e.inActive && ep.inq.ready != [] && ep.inq.ready[0].Item?)
      && t.got == ep.got && (ok ==> t == ep)
      && (!ok && Reading(ep.e) ==> !t.e.inActive || t.e.sawDelim)
  {
  }

  // ---- one write ----

  /** A write that is refused although the end is active shuts the gate, so that the report that opens it again is
      noticed; a write that is accepted leaves it open. */
  lemma RefusalShutsGate(ep: Ep, m: Item)
    requires m.Item? && ep.e.state == Active
    ensures var t := Write(ep, m); t.e.outActive <==> CanWrite(ep.e)
    ensures CheckWrite(ep).e.outActive <==> CanWrite(ep.e)
  {
  }

  // ---- all reads ----

  /** The answer of y to one move. */
  function ReadBy(p: Pair, mv: Move): seq<Item> {
    if !mv.onX && mv.op == OpRead && Enabled(Flip(p), OpRead) then
      var m := Read(View(Flip(p))).1;
      if m.Some? then [m.value] else []
    else []
  }

  /** The answers of all reads of y. */
  function AllRead(p: Pair, run: seq<Move>): seq<Item>
    decreases |run|
  {
    if run == [] then []
    else
      var n := |run| - 1;
      AllRead(p, run[..n]) + ReadBy(Exec(p, run[..n]), run[n])
  }

  lemma UserGives(ep: Ep, d: bool, m: Item)
    requires m.Item?
    ensures Terminate(ep, d).got == ep.got && Write(ep, m).got == ep.got && Rollback(ep).got == ep.got && Flush(ep).got == ep.got
  {
    CloseOutFrame(Ask(ep.(e := ep.e.(delay := d, selfTerm := true))));
    hide CloseOut;
  }

  lemma CommandGives(ep: Ep, n: nat)
    ensures ProcessActivateRead(ep).got == ep.got && ProcessActivateWrite(ep, n).got == ep.got
    ensures ProcessPipeTerm(ep).got == ep.got && ProcessPipeTermAck(ep).got == ep.got
  {
  }

  lemma DeliverGives(p: Pair)
    requires p.yx.cmds != []
    ensures Deliver(p).yx.got == p.yx.got && Deliver(p).xy.got == p.xy.got
  {
    var q := Popped(p);
    CommandGives(View(q), if p.yx.cmds[0].ActivateWrite? then p.yx.cmds[0].msgsRead else 0);
    hide ProcessActivateRead, ProcessActivateWrite, ProcessPipeTerm, ProcessPipeTermAck, ProcessHiccup;
  }

  /** Only a read hands anything over, and to its own user. */
  lemma StepXGives(p: Pair, op: Op)
    requires Enabled(p, op)
    ensures var q := StepX(p, op);
      && q.xy.got == p.xy.got
      && q.yx.got == p.yx.got + (if op == OpRead && Read(View(p)).1.Some? then [Read(View(p)).1.value] else [])
  {
    var v := View(p);
    match op
    case OpRead => ReadAnswer(v); hide Read, Answers;
    case OpCheckRead => CheckReadAnswer(v); hide CheckRead;
    case OpDeliver => DeliverGives(p); hide Deliver;
    case OpTerminate(d) => UserGives(v, d, Item(0, false, false, false)); hide Terminate;
    case OpWrite(m) => UserGives(v, false, m); hide Write;
    case OpRollback => UserGives(v, false, Item(0, false, false, false)); hide Rollback;
    case OpFlush => UserGives(v, false, Item(0, false, false, false)); hide Flush;
    case _ =>
  }

  /** What has been handed over is what the reads answered, one after the other, hiccups or not. */
  lemma {:induction false} ReadsAreGot(hwmX: int, hwmY: int, run: seq<Move>)
    ensures Exec(PipePair(hwmX, hwmY), run).xy.got == AllRead(PipePair(hwmX, hwmY), run)
    decreases |run|
  {
    if run != [] {
      var n := |run| - 1;
      var p, mv := Exec(PipePair(hwmX, hwmY), run[..n]), run[n];
      ReadsAreGot(hwmX, hwmY, run[..n]);
      hide StepX, Read;
      if mv.onX && Enabled(p, mv.op) {
        StepXGives(p, mv.op);
      } else if !mv.onX && Enabled(Flip(p), mv.op) {
        StepXGives(Flip(p), mv.op);
      }
    }
  }

  // ---- all writes ----

  /** What x has been told was accepted: the parts of an unfinished message, and all complete messages. */
  datatype Accepted = Accepted(parts: seq<Item>, done: seq<Item>)

  /** A part whose write is answered true joins the message; rollback and terminate drop an unfinished one. */
  function Wrote(a: Accepted, p: Pair, mv: Move): Accepted {
    if !mv.onX || !Enabled(p, mv.op) then a
    else
      match mv.op
      case OpWrite(m) =>
        if !CanWrite(p.x) then a
        else if m.more then a.(parts := a.parts + [m])
        else Accepted([], a.done + (a.parts + [m]))
      case OpRollback => a.(parts := [])
      case OpTerminate(_) => a.(parts := [])
      case _ => a
  }

  function AllWritten(p: Pair, run: seq<Move>): Accepted
    decreases |run|
  {
    if run == [] then Accepted([], [])
    else
      var n := |run| - 1;
      Wrote(AllWritten(p, run[..n]), Exec(p, run[..n]), run[n])
  }

  /** As long as x is active its user's unfinished message is the one in the queue. */
  predicate Agrees(a: Accepted, p: Pair) {
    && |p.xy.chain| == 1 && |p.yx.chain| == 1
    && a.done == p.xy.wrote && (p.x.state == Active ==> p.x.hasOut && a.parts == p.xy.chain[0].partial)
  }

  /** t has changed neither what is written nor the unfinished messages, and x is not active again. */
  predicate Still(ep: Ep, t: Ep) {
    && t.wrote == ep.wrote && t.outq.partial == ep.outq.partial && t.inq.partial == ep.inq.partial
    && (t.e.state == Active ==> ep.e.state == Active && t.e.hasOut == ep.e.hasOut)
  }

  lemma {:induction false} ReadLoopStill(ep: Ep)
    ensures Still(ep, ReadLoop(ep).0)
    decreases |ep.inq.ready|
  {
    if ep.inq.ready == [] {
    } else if ep.inq.ready[0].Delimiter? {
      DelimiterStill(ep.(inq := ep.inq.Pop()));
      hide ProcessDelimiter;
    } else if ep.inq.ready[0].credential {
      ReadLoopStill(SkipCredential(ep));
    } else {
      hide Reports;
      assert Still(ep, Take(ep));
      hide Take;
    }
  }

  lemma DelimiterStill(ep: Ep)
    ensures Still(ep, ProcessDelimiter(ep))
  {
  }

  lemma ReaderStill(ep: Ep)
    ensures Still(ep, Read(ep).0) && Still(ep, CheckRead(ep).0)
  {
    ReadLoopStill(ep);
    if ep.inq.ready != [] {
      DelimiterStill(ep.(inq := ep.inq.Pop()));
    }
    hide ReadLoop, ProcessDelimiter;
  }

  lemma WriterStill(ep: Ep)
    ensures Still(ep, Flush(ep)) && Still(ep, CheckWrite(ep))
  {
  }

  lemma ActivateStill(ep: Ep, n: nat)
    ensures Still(ep, ProcessActivateRead(ep)) && Still(ep, ProcessActivateWrite(ep, n))
  {
  }

  lemma AckStill(ep: Ep, e: End)
    requires e.state != Active
    ensures Still(ep, SendAck(ep.(e := e)))
  {
  }

  lemma TermStill(ep: Ep)
    ensures Still(ep, ProcessPipeTerm(ep))
  {
    AckStill(ep, ep.e.(state := TermAckSent));
    AckStill(ep, ep.e.(state := TermReqSent2));
    hide SendAck;
  }

  lemma TermAckStill(ep: Ep)
    requires ep.e.state != Active
    ensures Still(ep, ProcessPipeTermAck(ep))
  {
  }

  /** A handler of x that is no write, rollback or termination leaves what is written alone. */
  lemma KeepsWritten(a: Accepted, p: Pair, t: Ep)
    requires Agrees(a, p) && Still(View(p), t)
    ensures Agrees(a, Update(p, t))
  {
    UpdateOnly(p, t);
  }

  lemma DeliverKeepsWritten(a: Accepted, p: Pair)
    requires Inv(p) && Agrees(a, p) && !p.x.freed && p.yx.cmds != []
    ensures Agrees(a, Deliver(p))
  {
    var q, c := Popped(p), p.yx.cmds[0];
    assert Hiccup !in p.yx.cmds;
    assert c != Hiccup;
    if c == PipeTermAck {
      AckGood(p);
      assert p.x.state != Active;
      TermAckStill(View(q));
    }
    hide Inv;
    assert Agrees(a, q) && View(q) == View(p);
    ActivateStill(View(q), if c.ActivateWrite? then c.msgsRead else 0);
    TermStill(View(q));
    hide Still, Agrees, Update, ProcessActivateRead, ProcessActivateWrite, ProcessPipeTerm, ProcessPipeTermAck;
    match c
    case ActivateRead => KeepsWritten(a, q, ProcessActivateRead(View(q)));
    case ActivateWrite(n) => KeepsWritten(a, q, ProcessActivateWrite(View(q), n));
    case PipeTerm => KeepsWritten(a, q, ProcessPipeTerm(View(q)));
    case PipeTermAck => KeepsWritten(a, q, ProcessPipeTermAck(View(q)));
  }

  lemma UserWrites(a: Accepted, p: Pair, op: Op)
    requires Agrees(a, p) && Enabled(p, op) && (op.OpWrite? || op.OpRollback? || op.OpTerminate?)
    ensures Agrees(Wrote(a, p, Move(true, op)), StepX(p, op))
  {
    var v := View(p);
    match op
    case OpWrite(m) => UpdateOnly(p, Write(v, m));
    case OpRollback => UpdateOnly(p, Rollback(v));
    case OpTerminate(d) =>
      EndsWriting(v, d);
      hide Terminate;
      UpdateOnly(p, Terminate(v, d));
  }

  lemma EndsWriting(ep: Ep, d: bool)
    ensures Terminate(ep, d).wrote == ep.wrote && Terminate(ep, d).e.state != Active
  {
    CloseOutFrame(Ask(ep.(e := ep.e.(delay := d, selfTerm := true))));
    hide CloseOut;
  }

  lemma StepXWrites(a: Accepted, p: Pair, op: Op)
    requires Inv(p) && Agrees(a, p) && Enabled(p, op) && op != OpHiccup
    ensures Agrees(Wrote(a, p, Move(true, op)), StepX(p, op))
  {
    var v := View(p);
    ViewUpdate(p, v, v);
    ReaderStill(v);
    WriterStill(v);
    hide Inv, Agrees, Still, Update;
    match op
    case OpNodelay => assert Agrees(a, p.(x := p.x.(delay := false))) by { NodelayWrites(a, p); }
    case OpRead => KeepsWritten(a, p, Read(v).0);
    case OpCheckRead => KeepsWritten(a, p, CheckRead(v).0);
    case OpCheckWrite => KeepsWritten(a, p, CheckWrite(v));
    case OpFlush => KeepsWritten(a, p, Flush(v));
    case OpDeliver => DeliverKeepsWritten(a, p);
    case _ => UserWrites(a, p, op);
  }

  lemma NodelayWrites(a: Accepted, p: Pair)
    requires Agrees(a, p)
    ensures Agrees(a, p.(x := p.x.(delay := false)))
  {
  }

  /** What y does leaves the tail of the queue it reads alone. */
  lemma PeerWrites(a: Accepted, p: Pair, op: Op)
    requires Inv(p) && Agrees(a, p) && Enabled(Flip(p), op) && op != OpHiccup
    ensures Agrees(a, Flip(StepX(Flip(p), op)))
  {
    var f := Flip(p);
    var v := View(f);
    ViewUpdate(f, v, v);
    assert Hiccup !in p.xy.cmds;
    hide Inv;
    ReaderStill(v);
    WriterStill(v);
    PeerTail(v, op);
    match op
    case OpRead => UpdateOnly(f, Read(v).0); hide Read;
    case OpCheckRead => UpdateOnly(f, CheckRead(v).0); hide CheckRead;
    case OpCheckWrite => UpdateOnly(f, CheckWrite(v)); hide CheckWrite;
    case OpFlush => UpdateOnly(f, Flush(v)); hide Flush;
    case OpWrite(m) => UpdateOnly(f, Write(v, m)); hide Write;
    case OpRollback => UpdateOnly(f, Rollback(v)); hide Rollback;
    case OpTerminate(d) => UpdateOnly(f, Terminate(v, d)); hide Terminate;
    case OpNodelay =>
    case OpDeliver => PeerDelivers(a, p);
  }

  lemma PeerTail(ep: Ep, op: Op)
    requires op.OpWrite? ==> op.m.Item?
    ensures op.OpWrite? ==> Write(ep, op.m).inq == ep.inq
    ensures op.OpTerminate? ==> Terminate(ep, op.delay).inq == ep.inq
    ensures Rollback(ep).inq == ep.inq
  {
    if op.OpTerminate? {
      CloseOutFrame(Ask(ep.(e := ep.e.(delay := op.delay, selfTerm := true))));
    }
    hide CloseOut;
  }

  lemma PeerDelivers(a: Accepted, p: Pair)
    requires Agrees(a, p) && p.xy.cmds != [] && p.xy.cmds[0] != Hiccup
    ensures Agrees(a, Flip(Deliver(Flip(p))))
  {
    var q, c := Popped(Flip(p)), p.xy.cmds[0];
    var v := View(q);
    ActivateStill(v, if c.ActivateWrite? then c.msgsRead else 0);
    TermStill(v);
    assert ProcessPipeTermAck(v).inq.partial == v.inq.partial;
    hide ProcessActivateRead, ProcessActivateWrite, ProcessPipeTerm, ProcessPipeTermAck;
    match c
    case ActivateRead => UpdateOnly(q, ProcessActivateRead(v));
    case ActivateWrite(n) => UpdateOnly(q, ProcessActivateWrite(v, n));
    case PipeTerm => UpdateOnly(q, ProcessPipeTerm(v));
    case PipeTermAck => UpdateOnly(q, ProcessPipeTermAck(v));
  }

  lemma MoveWrites(a: Accepted, p: Pair, mv: Move)
    requires Inv(p) && Agrees(a, p) && mv.op != OpHiccup
    ensures Agrees(Wrote(a, p, mv), Step(p, mv))
  {
    hide StepX, Inv, Agrees;
    if mv.onX && Enabled(p, mv.op) {
      assert mv == Move(true, mv.op);
      StepXWrites(a, p, mv.op);
    } else if !mv.onX && Enabled(Flip(p), mv.op) {
      PeerWrites(a, p, mv.op);
    }
  }

  /** The messages in the log of the writer are those whose writes were answered true. */
  lemma {:induction false} WritesAreLogged(hwmX: int, hwmY: int, run: seq<Move>)
    requires NoHiccups(run)
    ensures Agrees(AllWritten(PipePair(hwmX, hwmY), run), Exec(PipePair(hwmX, hwmY), run))
    decreases |run|
  {
    var p0 := PipePair(hwmX, hwmY);
    if run == [] {
      assert Agrees(Accepted([], []), p0);
    } else {
      var n := |run| - 1;
      hide Step, Wrote, Inv, Agrees, PipePair;
      WritesAreLogged(hwmX, hwmY, run[..n]);
      RunInv(hwmX, hwmY, run[..n]);
      MoveWrites(AllWritten(p0, run[..n]), Exec(p0, run[..n]), run[n]);
    }
  }

  // ---- from user to user ----

  /** Delivery, in terms of the answers alone: what the reads of y have answered is at any time the beginning of what
      the writes of x were told was accepted, credential frames left out, and all of it once y is freed, if y kept its
      delay and did not terminate itself. */
  lemma AnswersInOrder(hwmX: int, hwmY: int, run: seq<Move>)
    requires NoHiccups(run)
    ensures var p0 := PipePair(hwmX, hwmY); var p := Exec(p0, run);
      && (!p.y.freed ==> AllRead(p0, run) <= Body(AllWritten(p0, run).done))
      && (p.y.freed && !p.y.selfTerm && p.y.delay ==> AllRead(p0, run) == Body(AllWritten(p0, run).done))
  {
    ReadsAreGot(hwmX, hwmY, run);
    WritesAreLogged(hwmX, hwmY, run);
    DeliveredInOrder(hwmX, hwmY, run);
    hide Exec, PipePair, AllRead, AllWritten, Body;
  }
}
