/** Safety of the pipe pair over every interleaving, hiccups included. */
module PipeSafety {
  import opened YPipes
  import opened PipeProtocol

  datatype Phase = At(state: State) | Gone

  function PhaseOf(e: End): Phase {
    if e.freed then Gone else At(e.state)
  }

  /** The end has sent its acknowledgement and given up its outbound queue. */
  predicate Acked(a: Phase) {
    a == At(TermAckSent) || a == At(TermReqSent2) || a == Gone
  }

  /** The end has not yet seen a termination command. */
  predicate Unanswered(a: Phase) {
    a == At(Active) || a == At(DelimiterReceived) || a == At(TermReqSent1)
  }

  predicate Control(c: Cmd) {
    c == PipeTerm || c == PipeTermAck
  }

  /** The termination commands of a channel, in order. */
  function Ctl(s: seq<Cmd>): seq<Cmd> {
    if s == [] then [] else (if Control(s[0]) then [s[0]] else []) + Ctl(s[1..])
  }

  function Hiccups(s: seq<Cmd>): nat {
    if s == [] then 0 else (if s[0] == Hiccup then 1 else 0) + Hiccups(s[1..])
  }

  /** How far two ends have come, with the termination commands in flight between them. */
  predicate Joint(a: Phase, b: Phase, ab: seq<Cmd>, ba: seq<Cmd>) {
    || (a == At(Active) && b == At(Active) && ab == [] && ba == [])
    || (a == At(TermReqSent1) && (b == At(Active) || b == At(DelimiterReceived)) && ab == [PipeTerm] && ba == [])
    || (a == At(TermReqSent1) && b == At(WaitingForDelimiter) && ab == [] && ba == [])
    || (a == At(TermReqSent1) && b == At(TermAckSent) && ab == [] && ba == [PipeTermAck])
    || (a == At(TermReqSent1) && b == At(TermReqSent1) && ab == [PipeTerm] && ba == [PipeTerm])
    || (a == At(TermReqSent2) && b == At(TermReqSent1) && ab == [PipeTerm, PipeTermAck] && ba == [])
    || (a == At(TermReqSent2) && b == At(TermReqSent2) && ab == [PipeTermAck] && ba == [PipeTermAck])
    || (a == Gone && (b == At(TermReqSent2) || b == At(TermAckSent)) && ab == [PipeTermAck] && ba == [])
    || (a == Gone && b == Gone && ab == [] && ba == [])
  }

  /** Nothing follows an acknowledgement, and no hiccup follows a termination command. */
  predicate Ordered(s: seq<Cmd>) {
    s != [] ==>
      && (s[0] == PipeTermAck ==> |s| == 1)
      && (Control(s[0]) ==> Hiccup !in s[1..])
      && Ordered(s[1..])
  }

  predicate NoDelimiter(s: seq<Item>) {
    forall i :: 0 <= i < |s| ==> s[i].Item?
  }

  predicate Clean(q: Queue<Item>) {
    NoDelimiter(q.ready) && NoDelimiter(q.pending)
  }

  /** What holds of the commands one end sends, given the phases of both. */
  predicate Half(a: Phase, hasOut: bool, b: Phase, ab: seq<Cmd>) {
    && Ordered(ab)
    && (hasOut <==> !Acked(a))
    && (Hiccup in ab ==> Unanswered(b))
    && (b == Gone ==> ab == [])
  }

  /** The handshake invariant: two phases and the two channels between them. */
  predicate Handshake(a: Phase, aOut: bool, b: Phase, bOut: bool, ab: seq<Cmd>, ba: seq<Cmd>) {
    && Half(a, aOut, b, ab) && Half(b, bOut, a, ba)
    && (Joint(a, b, Ctl(ab), Ctl(ba)) || Joint(b, a, Ctl(ba), Ctl(ab)))
  }

  /** Only unfinished messages can be rolled back; a writer that is active has written no delimiter. */
  predicate QueueOk(writer: Phase, q: Queue<Item>) {
    AllMore(q.partial) && (writer == At(Active) ==> Clean(q))
  }

  predicate ChainOk(writer: Phase, c: Chain) {
    forall k :: 0 <= k < |c| ==> QueueOk(writer, c[k])
  }

  predicate Chains(p: Pair) {
    && ChainOk(PhaseOf(p.x), p.xy.chain) && ChainOk(PhaseOf(p.y), p.yx.chain)
    && Hiccups(p.yx.cmds) == |p.xy.chain| - 1 && Hiccups(p.xy.cmds) == |p.yx.chain| - 1
  }

  predicate Safe(p: Pair) {
    && !p.x.failed && !p.y.failed
    && Handshake(PhaseOf(p.x), p.x.hasOut, PhaseOf(p.y), p.y.hasOut, p.xy.cmds, p.yx.cmds)
    && Chains(p)
  }

  lemma {:induction false} CtlSnoc(s: seq<Cmd>, c: Cmd)
    ensures Ctl(s + [c]) == Ctl(s) + if Control(c) then [c] else []
  {
    if s == [] {
      assert s + [c] == [c];
    } else {
      var rest := Ctl(s[1..]);
      assert (s + [c])[1..] == s[1..] + [c];
      CtlSnoc(s[1..], c);
      if Control(s[0]) && Control(c) {
        assert [s[0]] + (rest + [c]) == ([s[0]] + rest) + [c];
      }
    }
  }

  lemma {:induction false} HiccupsSnoc(s: seq<Cmd>, c: Cmd)
    ensures Hiccups(s + [c]) == Hiccups(s) + if c == Hiccup then 1 else 0
  {
    if s == [] {
      assert s + [c] == [c];
    } else {
      assert (s + [c])[1..] == s[1..] + [c];
      HiccupsSnoc(s[1..], c);
    }
  }

  lemma {:induction false} HiccupsNone(s: seq<Cmd>)
    ensures Hiccups(s) > 0 <==> Hiccup in s
  {
    if s != [] {
      HiccupsNone(s[1..]);
    }
  }

  /** An end that has not acknowledged may send anything but a late hiccup. */
  lemma {:induction false} SendOrdered(s: seq<Cmd>, c: Cmd)
    requires Ordered(s) && PipeTermAck !in Ctl(s)
    requires c == Hiccup ==> Ctl(s) == []
    ensures Ordered(s + [c])
  {
    if s != [] {
      assert (s + [c])[1..] == s[1..] + [c];
      SendOrdered(s[1..], c);
    }
  }

  lemma ViewUpdate(p: Pair, a: Ep, b: Ep)
    ensures View(Update(p, a)) == a
    ensures Update(Update(p, a), b) == Update(p, b)
    ensures Update(p, View(p)) == p
  {
  }

  lemma ChainSet(writer: Phase, writer': Phase, c: Chain, k: nat, q: Queue<Item>)
    requires ChainOk(writer, c) && k < |c| && QueueOk(writer', q)
    requires writer' == At(Active) ==> writer == At(Active)
    ensures ChainOk(writer', c[k := q])
  {
    var c' := c[k := q];
    forall i | 0 <= i < |c'| ensures QueueOk(writer', c'[i]) {
      assert i != k ==> QueueOk(writer, c[i]);
    }
  }

  predicate GoodSent(p: Pair, ep: Ep) {
    && Handshake(PhaseOf(ep.e), ep.e.hasOut, PhaseOf(p.y), p.y.hasOut, ep.cmds, p.yx.cmds)
    && Hiccups(ep.cmds) == Hiccups(p.xy.cmds)
  }

  /** What a handler of x has to leave behind for the pair to stay safe. */
  predicate Good(p: Pair, ep: Ep) {
    && !ep.e.failed && !p.y.failed
    && GoodSent(p, ep)
    && (PhaseOf(ep.e) == At(Active) ==> PhaseOf(p.x) == At(Active))
    && QueueOk(PhaseOf(ep.e), ep.outq)
    && QueueOk(PhaseOf(p.y), ep.inq)
  }

  lemma GoodSafe(p: Pair, ep: Ep)
    requires Chains(p) && Good(p, ep)
    ensures Safe(Update(p, ep))
  {
    hide Handshake;
    ChainSet(PhaseOf(p.x), PhaseOf(ep.e), p.xy.chain, 0, ep.outq);
    ChainSet(PhaseOf(p.y), PhaseOf(p.y), p.yx.chain, |p.yx.chain| - 1, ep.inq);
  }

  lemma ViewGood(p: Pair)
    requires Safe(p)
    ensures Good(p, View(p))
  {
    hide Handshake;
  }

  /** Sending a wake-up, with or without a change of the end's own queues. */
  lemma SendData(a: Phase, aOut: bool, b: Phase, bOut: bool, ab: seq<Cmd>, ba: seq<Cmd>, c: Cmd)
    requires Handshake(a, aOut, b, bOut, ab, ba) && aOut
    requires c.ActivateRead? || c.ActivateWrite?
    ensures Handshake(a, aOut, b, bOut, ab + [c], ba)
    ensures Hiccups(ab + [c]) == Hiccups(ab)
  {
    CtlSnoc(ab, c);
    HiccupsSnoc(ab, c);
    SendOrdered(ab, c);
  }

  lemma SendTerm(a: Phase, b: Phase, bOut: bool, ab: seq<Cmd>, ba: seq<Cmd>)
    requires Handshake(a, true, b, bOut, ab, ba) && (a == At(Active) || a == At(DelimiterReceived))
    ensures Handshake(At(TermReqSent1), true, b, bOut, ab + [PipeTerm], ba)
    ensures Hiccups(ab + [PipeTerm]) == Hiccups(ab)
  {
    CtlSnoc(ab, PipeTerm);
    HiccupsSnoc(ab, PipeTerm);
    SendOrdered(ab, PipeTerm);
  }

  /** A waiting end acknowledges once it has read everything. */
  lemma AckWaiting(b: Phase, bOut: bool, ab: seq<Cmd>, ba: seq<Cmd>)
    requires Handshake(At(WaitingForDelimiter), true, b, bOut, ab, ba)
    ensures Handshake(At(TermAckSent), false, b, bOut, ab + [PipeTermAck], ba)
    ensures Hiccups(ab + [PipeTermAck]) == Hiccups(ab)
  {
    CtlSnoc(ab, PipeTermAck);
    HiccupsSnoc(ab, PipeTermAck);
    SendOrdered(ab, PipeTermAck);
    HiccupsNone(ab);
  }

  /** A termination command is answered at once unless the end waits for pending messages. */
  lemma AckTerm(a: Phase, b: Phase, bOut: bool, ab: seq<Cmd>, ba: seq<Cmd>)
    requires Handshake(a, true, b, bOut, ab, ba) && ba != [] && ba[0] == PipeTerm
    ensures Unanswered(a)
    ensures a == At(TermReqSent1) ==> Handshake(At(TermReqSent2), false, b, bOut, ab + [PipeTermAck], ba[1..])
    ensures a != At(TermReqSent1) ==> Handshake(At(TermAckSent), false, b, bOut, ab + [PipeTermAck], ba[1..])
    ensures a == At(Active) ==> Handshake(At(WaitingForDelimiter), true, b, bOut, ab, ba[1..])
    ensures Hiccups(ab + [PipeTermAck]) == Hiccups(ab)
  {
    assert Ctl(ba) == [PipeTerm] + Ctl(ba[1..]) && Ctl(ba[1..]) == Ctl(ba)[1..];
    assert Ordered(ba[1..]) && Hiccup !in ba[1..];
    CtlSnoc(ab, PipeTermAck);
    HiccupsSnoc(ab, PipeTermAck);
    SendOrdered(ab, PipeTermAck);
    hide Ctl, Ordered, Hiccups;
  }

  /** The acknowledgement of an end that asked to terminate is acknowledged in turn. */
  lemma AckAck(a: Phase, b: Phase, bOut: bool, ab: seq<Cmd>, ba: seq<Cmd>)
    requires Handshake(a, true, b, bOut, ab, ba) && ba != [] && ba[0] == PipeTermAck
    ensures a == At(TermReqSent1) && Handshake(Gone, false, b, bOut, ab + [PipeTermAck], ba[1..])
    ensures Hiccups(ab + [PipeTermAck]) == Hiccups(ab)
  {
    assert Ctl(ba) == [PipeTermAck] + Ctl(ba[1..]);
    CtlSnoc(ab, PipeTermAck);
    HiccupsSnoc(ab, PipeTermAck);
    SendOrdered(ab, PipeTermAck);
    HiccupsNone(ab);
  }

  lemma LastAck(a: Phase, b: Phase, bOut: bool, ab: seq<Cmd>, ba: seq<Cmd>)
    requires Handshake(a, false, b, bOut, ab, ba) && ba != [] && ba[0] == PipeTermAck
    ensures (a == At(TermAckSent) || a == At(TermReqSent2)) && Handshake(Gone, false, b, bOut, ab, ba[1..])
  {
    assert Ctl(ba) == [PipeTermAck] + Ctl(ba[1..]);
  }

  lemma FlushGood(p: Pair, ep: Ep)
    requires Good(p, ep)
    ensures Good(p, Flush(ep))
  {
    if ep.e.hasOut && !ep.outq.FlushAnswer() {
      SendData(PhaseOf(ep.e), ep.e.hasOut, PhaseOf(p.y), p.y.hasOut, ep.cmds, p.yx.cmds, ActivateRead);
    }
  }

  lemma CloseOutGood(p: Pair, ep: Ep)
    requires Good(p, ep) && PhaseOf(ep.e) != At(Active)
    ensures Good(p, CloseOut(ep))
  {
    hide Handshake;
    if ep.e.hasOut {
      var q := Rollback(ep);
      FlushGood(p, q.(outq := q.outq.Write(Delimiter, false)));
    }
  }

  lemma AskGood(p: Pair, ep: Ep)
    requires Good(p, ep) && !ep.e.freed && !Acked(PhaseOf(ep.e)) && ep.e.state != TermReqSent1
    ensures Good(p, Ask(ep))
  {
    if ep.e.state == WaitingForDelimiter {
      AckWaiting(PhaseOf(p.y), p.y.hasOut, ep.cmds, p.yx.cmds);
    } else {
      SendTerm(PhaseOf(ep.e), PhaseOf(p.y), p.y.hasOut, ep.cmds, p.yx.cmds);
    }
    hide Handshake;
  }

  lemma TerminateGood(p: Pair, d: bool)
    requires Safe(p) && !p.x.freed
    ensures Good(p, Terminate(View(p), d))
  {
    hide Handshake;
    ViewGood(p);
    var v := View(p);
    var t := v.(e := v.e.(delay := d, selfTerm := true));
    if !Acked(PhaseOf(p.x)) && p.x.state != TermReqSent1 {
      AskGood(p, t);
      CloseOutGood(p, Ask(t));
    }
  }

  lemma DelimiterGood(p: Pair)
    requires Safe(p) && !p.x.freed && Reading(p.x)
    requires View(p).inq.ready != [] && View(p).inq.ready[0].Delimiter?
    ensures Good(p, ProcessDelimiter(View(p).(inq := View(p).inq.Pop())))
  {
    assert QueueOk(PhaseOf(p.y), p.yx.chain[|p.yx.chain| - 1]);
    if p.x.state == WaitingForDelimiter {
      AckWaiting(PhaseOf(p.y), p.y.hasOut, p.xy.cmds, p.yx.cmds);
    }
  }

  lemma TakeGood(p: Pair, ep: Ep)
    requires Good(p, ep) && !ep.e.freed && Reading(ep.e)
    requires ep.inq.ready != [] && ep.inq.ready[0].Item?
    ensures Good(p, Take(ep))
  {
    var t := Take(ep);
    SendData(PhaseOf(ep.e), ep.e.hasOut, PhaseOf(p.y), p.y.hasOut, ep.cmds, p.yx.cmds,
             ActivateWrite(t.e.msgsRead));
    assert t.cmds == ep.cmds || t.cmds == ep.cmds + [ActivateWrite(t.e.msgsRead)];
  }

  lemma {:induction false} ReadLoopGood(p: Pair)
    requires Safe(p) && !p.x.freed && Reading(p.x)
    ensures Good(p, ReadLoop(View(p)).0)
    decreases |View(p).inq.ready|
  {
    var v := View(p);
    if v.inq.ready != [] {
      var m := v.inq.ready[0];
      if m.Delimiter? {
        DelimiterGood(p);
      } else if m.credential {
        var s := SkipCredential(v);
        GoodSafe(p, s);
        ViewUpdate(p, s, s);
        ReadLoopGood(Update(p, s));
      } else {
        TakeGood(p, v);
      }
    }
  }

  lemma CheckReadGood(p: Pair)
    requires Safe(p) && !p.x.freed
    ensures Good(p, CheckRead(View(p)).0)
  {
    var v := View(p);
    ViewGood(p);
    if v.e.inActive && Reading(v.e) && v.inq.ready != [] && v.inq.ready[0].Delimiter? {
      DelimiterGood(p);
    }
  }

  lemma ChainAdd(writer: Phase, c: Chain)
    requires ChainOk(writer, c)
    ensures ChainOk(writer, c + [EmptyQueue()])
  {
    var c' := c + [EmptyQueue()];
    forall k | 0 <= k < |c'| ensures QueueOk(writer, c'[k]) {
      assert k < |c| ==> QueueOk(writer, c[k]);
    }
  }

  lemma SendHiccup(b: Phase, bOut: bool, ab: seq<Cmd>, ba: seq<Cmd>)
    requires Handshake(At(Active), true, b, bOut, ab, ba)
    ensures Handshake(At(Active), true, b, bOut, ab + [Hiccup], ba)
    ensures Hiccups(ab + [Hiccup]) == Hiccups(ab) + 1
  {
    CtlSnoc(ab, Hiccup);
    HiccupsSnoc(ab, Hiccup);
    SendOrdered(ab, Hiccup);
  }

  lemma HiccupSafe(p: Pair)
    requires Safe(p) && !p.x.freed
    ensures Safe(DoHiccup(p))
  {
    if p.x.state == Active {
      assert p.x.hasOut;
      SendHiccup(PhaseOf(p.y), p.y.hasOut, p.xy.cmds, p.yx.cmds);
      ChainAdd(PhaseOf(p.y), p.yx.chain);
      hide Handshake, ChainOk, Hiccups;
    }
  }

  /** A termination command never meets an end that has already acknowledged. */
  lemma TermUnacked(a: Phase, aOut: bool, b: Phase, bOut: bool, ab: seq<Cmd>, ba: seq<Cmd>)
    requires Handshake(a, aOut, b, bOut, ab, ba) && ba != [] && ba[0] == PipeTerm
    ensures aOut
  {
    assert Ctl(ba) == [PipeTerm] + Ctl(ba[1..]);
  }

  /** The pair as the handler of the first command of the channel to x finds it. */
  function Popped(p: Pair): Pair
    requires p.yx.cmds != []
  {
    p.(yx := p.yx.(cmds := p.yx.cmds[1..]))
  }

  lemma PoppedChains(p: Pair)
    requires Chains(p) && p.yx.cmds != [] && p.yx.cmds[0] != Hiccup
    ensures Chains(Popped(p))
  {
  }

  lemma TermSent(p: Pair)
    requires Safe(p) && !p.x.freed && p.yx.cmds != [] && p.yx.cmds[0] == PipeTerm
    ensures Unanswered(PhaseOf(p.x)) && GoodSent(Popped(p), ProcessPipeTerm(View(p)))
  {
    TermUnacked(PhaseOf(p.x), p.x.hasOut, PhaseOf(p.y), p.y.hasOut, p.xy.cmds, p.yx.cmds);
    AckTerm(PhaseOf(p.x), PhaseOf(p.y), p.y.hasOut, p.xy.cmds, p.yx.cmds);
    hide Handshake;
  }

  lemma TermGood(p: Pair)
    requires Safe(p) && !p.x.freed && p.yx.cmds != [] && p.yx.cmds[0] == PipeTerm
    ensures Good(Popped(p), ProcessPipeTerm(View(p)))
  {
    hide Handshake;
    ViewGood(p);
    TermSent(p);
  }

  lemma AckGood(p: Pair)
    requires Safe(p) && !p.x.freed && p.yx.cmds != [] && p.yx.cmds[0] == PipeTermAck
    ensures Good(Popped(p), ProcessPipeTermAck(View(p)))
  {
    if p.x.hasOut {
      AckAck(PhaseOf(p.x), PhaseOf(p.y), p.y.hasOut, p.xy.cmds, p.yx.cmds);
    } else {
      LastAck(PhaseOf(p.x), PhaseOf(p.y), p.y.hasOut, p.xy.cmds, p.yx.cmds);
    }
  }

  /** A wake-up can be taken off a channel without a trace. */
  lemma PopData(a: Phase, aOut: bool, b: Phase, bOut: bool, ab: seq<Cmd>, ba: seq<Cmd>)
    requires Handshake(a, aOut, b, bOut, ab, ba) && ba != [] && !Control(ba[0])
    ensures Handshake(a, aOut, b, bOut, ab, ba[1..])
  {
  }

  lemma DeliverHiccupSafe(p: Pair)
    requires Safe(p) && !p.x.freed && p.yx.cmds != [] && p.yx.cmds[0] == Hiccup
    ensures Safe(Deliver(p))
  {
    PopData(PhaseOf(p.x), p.x.hasOut, PhaseOf(p.y), p.y.hasOut, p.xy.cmds, p.yx.cmds);
    var c := p.xy.chain;
    assert |c| >= 2;
    forall k | 0 <= k < |c[1..]| ensures QueueOk(PhaseOf(p.x), c[1..][k]) {
      assert QueueOk(PhaseOf(p.x), c[k + 1]);
    }
  }

  lemma DeliverSafe(p: Pair)
    requires Safe(p) && !p.x.freed && p.yx.cmds != []
    ensures Safe(Deliver(p))
  {
    match p.yx.cmds[0]
    case ActivateRead => DeliverDataSafe(p, ProcessActivateRead(View(p)));
    case ActivateWrite(n) => DeliverDataSafe(p, ProcessActivateWrite(View(p), n));
    case Hiccup => DeliverHiccupSafe(p);
    case PipeTerm => PoppedChains(p); TermGood(p); GoodSafe(Popped(p), ProcessPipeTerm(View(p)));
    case PipeTermAck => PoppedChains(p); AckGood(p); GoodSafe(Popped(p), ProcessPipeTermAck(View(p)));
  }

  /** A wake-up changes nothing the handshake depends on. */
  lemma DeliverDataSafe(p: Pair, ep: Ep)
    requires Safe(p) && !p.x.freed && p.yx.cmds != [] && !Control(p.yx.cmds[0]) && p.yx.cmds[0] != Hiccup
    requires ep == View(p).(e := ep.e) && PhaseOf(ep.e) == PhaseOf(p.x)
    requires ep.e.hasOut == p.x.hasOut && !ep.e.failed
    ensures Safe(Update(Popped(p), ep))
  {
    PopData(PhaseOf(p.x), p.x.hasOut, PhaseOf(p.y), p.y.hasOut, p.xy.cmds, p.yx.cmds);
    PoppedChains(p);
    GoodSafe(Popped(p), ep);
  }

  lemma WriteGood(p: Pair, ep: Ep, m: Item)
    requires Good(p, ep) && m.Item?
    ensures Good(p, Write(ep, m))
  {
    hide Handshake;
  }

  lemma StepXSafe(p: Pair, op: Op)
    requires Safe(p) && Enabled(p, op)
    ensures Safe(StepX(p, op))
  {
    var v := View(p);
    ViewUpdate(p, v, v);
    ViewGood(p);
    match op
    case OpNodelay =>
    case OpTerminate(d) => TerminateGood(p, d); GoodSafe(p, Terminate(v, d));
    case OpCheckRead => CheckReadGood(p); GoodSafe(p, CheckRead(v).0);
    case OpRead =>
      if p.x.inActive && Reading(p.x) {
        ReadLoopGood(p);
      }
      GoodSafe(p, Read(v).0);
    case OpCheckWrite => GoodSafe(p, CheckWrite(v));
    case OpWrite(m) => WriteGood(p, v, m); GoodSafe(p, Write(v, m));
    case OpRollback => GoodSafe(p, Rollback(v));
    case OpFlush => FlushGood(p, v); GoodSafe(p, Flush(v));
    case OpHiccup => HiccupSafe(p);
    case OpDeliver => DeliverSafe(p);
  }

  lemma {:induction false} RunSafe(hwmX: int, hwmY: int, run: seq<Move>)
    ensures Safe(Exec(PipePair(hwmX, hwmY), run))
    decreases |run|
  {
    if run != [] {
      var n := |run| - 1;
      RunSafe(hwmX, hwmY, run[..n]);
      var p := Exec(PipePair(hwmX, hwmY), run[..n]);
      assert Safe(Flip(p)) && Flip(Flip(p)) == p;
      if run[n].onX && Enabled(p, run[n].op) {
        StepXSafe(p, run[n].op);
      } else if !run[n].onX && Enabled(Flip(p), run[n].op) {
        StepXSafe(Flip(p), run[n].op);
      }
    }
  }

  /** In every run no assertion fails, no command is in flight to a freed end, and an
      acknowledgement in flight has nothing behind it. */
  lemma NoAssertionFails(hwmX: int, hwmY: int, run: seq<Move>)
    ensures var p := Exec(PipePair(hwmX, hwmY), run);
            && !p.x.failed && !p.y.failed
            && (p.x.freed ==> p.yx.cmds == []) && (p.y.freed ==> p.xy.cmds == [])
            && (PipeTermAck in p.xy.cmds ==> p.xy.cmds[|p.xy.cmds| - 1] == PipeTermAck)
  {
    RunSafe(hwmX, hwmY, run);
    hide Exec, PipePair;
    var p := Exec(PipePair(hwmX, hwmY), run);
    AckAtEnd(p.xy.cmds);
    hide Joint, Chains, Ctl, Hiccups;
  }

  lemma {:induction false} AckAtEnd(s: seq<Cmd>)
    requires Ordered(s)
    ensures PipeTermAck in s ==> s[|s| - 1] == PipeTermAck
  {
    if s != [] {
      AckAtEnd(s[1..]);
    }
  }

  /** The acknowledgement is the last command an end sends: from then on no step of its own, in any
      reachable state, sends anything or writes to the queue it gave up; and a freed end takes no
      step and is left alone by its peer. */
  lemma AckIsLast(hwmX: int, hwmY: int, run: seq<Move>, op: Op)
    requires var p := Exec(PipePair(hwmX, hwmY), run); Acked(PhaseOf(p.x)) && Enabled(p, op)
    ensures var p := Exec(PipePair(hwmX, hwmY), run);
            var q := StepX(p, op);
            && !p.x.freed && Acked(PhaseOf(q.x))
            && q.xy.cmds == p.xy.cmds && q.xy.chain == p.xy.chain
  {
    RunSafe(hwmX, hwmY, run);
    AckedStep(Exec(PipePair(hwmX, hwmY), run), op);
  }

  lemma AckedStep(p: Pair, op: Op)
    requires Safe(p) && Acked(PhaseOf(p.x)) && Enabled(p, op)
    ensures var q := StepX(p, op);
            Acked(PhaseOf(q.x)) && q.xy.cmds == p.xy.cmds && q.xy.chain == p.xy.chain
  {
    ViewUpdate(p, View(p), View(p));
    if op == OpDeliver {
      HiccupsNone(p.yx.cmds);
      if p.yx.cmds[0] == PipeTerm {
        TermUnacked(PhaseOf(p.x), p.x.hasOut, PhaseOf(p.y), p.y.hasOut, p.xy.cmds, p.yx.cmds);
      }
    }
  }
}
