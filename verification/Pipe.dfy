/** One end of a message pipe and the pair of ends joined by two queues and two command channels.

    `Ep` is everything one end can see or change: its own fields, the queue it reads, the queue it
    writes and the commands it sends. Each handler is a function on `Ep`; a pair makes a step by
    letting one end apply a handler. A failed assertion sets `failed`. */
module PipeProtocol {
  import opened YPipes

  const MAX_WM_DELTA: int := 1024

  datatype Item =
    | Item(body: nat, more: bool, identity: bool, credential: bool)
    | Delimiter

  datatype State =
    | Active | DelimiterReceived | WaitingForDelimiter
    | TermAckSent | TermReqSent1 | TermReqSent2

  datatype Cmd =
    | ActivateRead
    | ActivateWrite(msgsRead: nat)
    | Hiccup
    | PipeTerm
    | PipeTermAck

  /** The fields of one end. `selfTerm`, `sawDelim` and `failed` record history only:
      the user called terminate, a delimiter was taken, an assertion failed. */
  datatype End = End(
    state: State, freed: bool, failed: bool, selfTerm: bool, sawDelim: bool, delay: bool,
    inActive: bool, outActive: bool, hasOut: bool,
    hwm: int, lwm: int, msgsRead: nat, msgsWritten: int, peersMsgsRead: nat)

  /** `got`, `skipped` and `wrote` record history: the messages handed to the reading user, the
      counted credential frames it never saw, and the complete messages accepted for writing. */
  datatype Ep = Ep(
    e: End, inq: Queue<Item>, outq: Queue<Item>,
    got: seq<Item>, skipped: nat, wrote: seq<Item>, cmds: seq<Cmd>)

  // ---- watermarks ----

  /** Division rounding toward zero. */
  function DivTrunc(a: int, b: int): int
    requires b > 0
  {
    if a >= 0 then a / b else -((-a) / b)
  }

  function ComputeLwm(hwm: int): (lwm: int)
    ensures hwm > 0 ==> 1 <= lwm <= hwm
    ensures hwm <= 0 ==> lwm <= 0
    ensures 0 < hwm <= 2 * MAX_WM_DELTA ==> hwm <= 2 * lwm <= hwm + 1
    ensures hwm > 2 * MAX_WM_DELTA ==> hwm - lwm == MAX_WM_DELTA
  {
    if hwm > MAX_WM_DELTA * 2 then hwm - MAX_WM_DELTA else DivTrunc(hwm + 1, 2)
  }

  predicate Counts(m: Item) {
    m.Item? && !m.more && !m.identity
  }

  // ---- handlers of one end ----

  predicate Reading(e: End) {
    e.state == Active || e.state == WaitingForDelimiter
  }

  function Send(ep: Ep, c: Cmd): Ep {
    ep.(cmds := ep.cmds + [c])
  }

  /** Give up the outbound queue and confirm the termination. */
  function SendAck(ep: Ep): Ep {
    Send(ep.(e := ep.e.(hasOut := false)), PipeTermAck)
  }

  function ProcessDelimiter(ep: Ep): Ep {
    var p := ep.(e := ep.e.(sawDelim := true));
    match ep.e.state
    case Active => p.(e := p.e.(state := DelimiterReceived))
    case WaitingForDelimiter => var q := SendAck(p); q.(e := q.e.(state := TermAckSent))
    case _ => p.(e := p.e.(failed := true))
  }

  function Sleep(ep: Ep): Ep {
    ep.(inq := ep.inq.Probe(), e := ep.e.(inActive := false))
  }

  function CheckRead(ep: Ep): (Ep, bool) {
    if !ep.e.inActive || !Reading(ep.e) then (ep, false)
    else if ep.inq.ready == [] then (Sleep(ep), false)
    else if ep.inq.ready[0].Delimiter? then (ProcessDelimiter(ep.(inq := ep.inq.Pop())), false)
    else (ep, true)
  }

  function SkipCredential(ep: Ep): Ep
    requires ep.inq.ready != []
  {
    ep.(inq := ep.inq.Pop(), skipped := ep.skipped + if Counts(ep.inq.ready[0]) then 1 else 0)
  }

  /** The reader reports its progress at the multiples of its low watermark. */
  predicate Reports(n: nat, lwm: int) {
    lwm > 0 && n % lwm == 0
  }

  /** Hand one message to the user, count it, and report progress at every multiple of lwm. */
  function Take(ep: Ep): Ep
    requires ep.inq.ready != []
  {
    var m := ep.inq.ready[0];
    var n := ep.e.msgsRead + if Counts(m) then 1 else 0;
    var p := ep.(inq := ep.inq.Pop(), got := ep.got + [m], e := ep.e.(msgsRead := n));
    if Reports(n, ep.e.lwm) then Send(p, ActivateWrite(n)) else p
  }

  function ReadLoop(ep: Ep): (Ep, Option<Item>)
    decreases |ep.inq.ready|
  {
    if ep.inq.ready == [] then (Sleep(ep), None)
    else
      var m := ep.inq.ready[0];
      if m.Delimiter? then (ProcessDelimiter(ep.(inq := ep.inq.Pop())), None)
      else if m.credential then ReadLoop(SkipCredential(ep))
      else (Take(ep), Some(m))
  }

  function Read(ep: Ep): (Ep, Option<Item>) {
    if !ep.e.inActive || !Reading(ep.e) then (ep, None) else ReadLoop(ep)
  }

  predicate Full(e: End) {
    e.hwm > 0 && e.msgsWritten - e.peersMsgsRead == e.hwm
  }

  predicate CanWrite(e: End) {
    e.outActive && e.state == Active && !Full(e)
  }

  function CheckWrite(ep: Ep): Ep {
    if ep.e.outActive && ep.e.state == Active && Full(ep.e)
    then ep.(e := ep.e.(outActive := false)) else ep
  }

  function Write(ep: Ep, m: Item): Ep
    requires m.Item?
  {
    if !CanWrite(ep.e) then CheckWrite(ep)
    else
      ep.(outq := ep.outq.Write(m, m.more),
          wrote := if m.more then ep.wrote else ep.wrote + (ep.outq.partial + [m]),
          e := ep.e.(msgsWritten := ep.e.msgsWritten + if Counts(m) then 1 else 0))
  }

  predicate AllMore(s: seq<Item>) {
    forall i :: 0 <= i < |s| ==> s[i].Item? && s[i].more
  }

  function Rollback(ep: Ep): Ep {
    if !ep.e.hasOut then ep
    else ep.(outq := ep.outq.DropPartial(), e := ep.e.(failed := ep.e.failed || !AllMore(ep.outq.partial)))
  }

  function Flush(ep: Ep): Ep {
    if ep.e.state == TermAckSent || !ep.e.hasOut then ep
    else
      var p := ep.(outq := ep.outq.Flush());
      if ep.outq.FlushAnswer() then p else Send(p, ActivateRead)
  }

  /** Close the outbound stream with a delimiter, whatever the watermark says. */
  function CloseOut(ep: Ep): Ep {
    if !ep.e.hasOut then ep
    else
      var p := Rollback(ep);
      Flush(p.(outq := p.outq.Write(Delimiter, false)))
  }

  /** The request or the acknowledgement that a call of terminate sends, by state. */
  function Ask(ep: Ep): Ep {
    var q :=
      if ep.e.state != WaitingForDelimiter then
        Send(ep.(e := ep.e.(state := TermReqSent1)), PipeTerm)
      else if ep.e.delay then ep
      else SendAck(ep.(e := ep.e.(state := TermAckSent)));
    q.(e := q.e.(outActive := false))
  }

  function Terminate(ep: Ep, delay: bool): Ep {
    var p := ep.(e := ep.e.(delay := delay, selfTerm := true));
    match ep.e.state
    case TermReqSent1 => p
    case TermReqSent2 => p
    case TermAckSent => p
    case _ => CloseOut(Ask(p))
  }

  function ProcessActivateRead(ep: Ep): Ep {
    if !ep.e.inActive && Reading(ep.e) then ep.(e := ep.e.(inActive := true)) else ep
  }

  function ProcessActivateWrite(ep: Ep, n: nat): Ep {
    var e := ep.e.(peersMsgsRead := n);
    ep.(e := if !e.outActive && e.state == Active then e.(outActive := true) else e)
  }

  function NonMore(s: seq<Item>): nat {
    if s == [] then 0 else (if s[0].Item? && s[0].more then 0 else 1) + NonMore(s[1..])
  }

  /** Drop the old outbound queue with what is in it and plug in the one the peer created. */
  function ProcessHiccup(ep: Ep, created: Queue<Item>): Ep {
    if !ep.e.hasOut then ep.(e := ep.e.(failed := true))
    else ep.(outq := created,
             e := ep.e.(outActive := true, msgsWritten := ep.e.msgsWritten - NonMore(ep.outq.Complete())))
  }

  function ProcessPipeTerm(ep: Ep): Ep {
    match ep.e.state
    case Active =>
      if ep.e.delay then ep.(e := ep.e.(state := WaitingForDelimiter))
      else SendAck(ep.(e := ep.e.(state := TermAckSent)))
    case DelimiterReceived => SendAck(ep.(e := ep.e.(state := TermAckSent)))
    case TermReqSent1 => SendAck(ep.(e := ep.e.(state := TermReqSent2)))
    case _ => ep.(e := ep.e.(failed := true))
  }

  /** The last command an end processes: the unread messages are thrown away and the end is gone. */
  function ProcessPipeTermAck(ep: Ep): Ep {
    var p :=
      match ep.e.state
      case TermReqSent1 => SendAck(ep)
      case TermReqSent2 => ep
      case TermAckSent => ep
      case _ => ep.(e := ep.e.(failed := true));
    p.(e := p.e.(freed := true), inq := p.inq.(ready := [], asleep := true))
  }

  // ---- the pair ----

  type Chain = s: seq<Queue<Item>> | s != [] witness [EmptyQueue()]

  /** One direction. Hiccups make the reader move on to a new queue before the writer knows of it,
      so there can be several, in order of creation: the writer is at the first, the reader at the
      last, and each hiccup command in flight stands for one step of the writer along the chain. */
  datatype Link = Link(chain: Chain, got: seq<Item>, skipped: nat, wrote: seq<Item>, cmds: seq<Cmd>)

  datatype Pair = Pair(x: End, y: End, xy: Link, yx: Link)

  function Flip(p: Pair): Pair {
    Pair(p.y, p.x, p.yx, p.xy)
  }

  function LastOf(c: Chain): Queue<Item> {
    c[|c| - 1]
  }

  function View(p: Pair): Ep {
    Ep(p.x, LastOf(p.yx.chain), p.xy.chain[0], p.yx.got, p.yx.skipped, p.xy.wrote, p.xy.cmds)
  }

  function Update(p: Pair, ep: Ep): Pair {
    Pair(ep.e, p.y,
         p.xy.(chain := p.xy.chain[0 := ep.outq], wrote := ep.wrote, cmds := ep.cmds),
         p.yx.(chain := p.yx.chain[|p.yx.chain| - 1 := ep.inq], got := ep.got, skipped := ep.skipped))
  }

  /** The reading end throws its queue away and starts a new one. */
  function DoHiccup(p: Pair): Pair {
    if p.x.state != Active then p
    else Pair(p.x.(inActive := true), p.y, p.xy.(cmds := p.xy.cmds + [Hiccup]),
              p.yx.(chain := p.yx.chain + [EmptyQueue()]))
  }

  function DeliverHiccup(p: Pair): Pair {
    if |p.xy.chain| < 2 then p.(x := p.x.(failed := true))
    else
      var ep := ProcessHiccup(View(p), p.xy.chain[1]);
      p.(x := ep.e, xy := if p.x.hasOut then p.xy.(chain := p.xy.chain[1..]) else p.xy)
  }

  function Deliver(p: Pair): Pair
    requires p.yx.cmds != []
  {
    var c := p.yx.cmds[0];
    var q := p.(yx := p.yx.(cmds := p.yx.cmds[1..]));
    match c
    case ActivateRead => Update(q, ProcessActivateRead(View(q)))
    case ActivateWrite(n) => Update(q, ProcessActivateWrite(View(q), n))
    case Hiccup => DeliverHiccup(q)
    case PipeTerm => Update(q, ProcessPipeTerm(View(q)))
    case PipeTermAck => Update(q, ProcessPipeTermAck(View(q)))
  }

  datatype Op =
    | OpNodelay | OpTerminate(delay: bool) | OpCheckRead | OpRead | OpCheckWrite | OpWrite(m: Item)
    | OpRollback | OpFlush | OpHiccup | OpDeliver

  /** Users drop a pipe when they are told it is gone and write no delimiters of their own. */
  predicate Enabled(p: Pair, op: Op) {
    && !p.x.freed
    && (op.OpWrite? ==> op.m.Item?)
    && (op.OpDeliver? ==> p.yx.cmds != [])
  }

  function StepX(p: Pair, op: Op): Pair
    requires Enabled(p, op)
  {
    match op
    case OpNodelay => p.(x := p.x.(delay := false))
    case OpTerminate(d) => Update(p, Terminate(View(p), d))
    case OpCheckRead => Update(p, CheckRead(View(p)).0)
    case OpRead => Update(p, Read(View(p)).0)
    case OpCheckWrite => Update(p, CheckWrite(View(p)))
    case OpWrite(m) => Update(p, Write(View(p), m))
    case OpRollback => Update(p, Rollback(View(p)))
    case OpFlush => Update(p, Flush(View(p)))
    case OpHiccup => DoHiccup(p)
    case OpDeliver => Deliver(p)
  }

  datatype Move = Move(onX: bool, op: Op)

  /** A move that is not enabled leaves the pair as it is. */
  function Step(p: Pair, mv: Move): Pair {
    if mv.onX then (if Enabled(p, mv.op) then StepX(p, mv.op) else p)
    else if Enabled(Flip(p), mv.op) then Flip(StepX(Flip(p), mv.op)) else p
  }

  function Exec(p: Pair, run: seq<Move>): Pair
    decreases |run|
  {
    if run == [] then p else Step(Exec(p, run[..|run| - 1]), run[|run| - 1])
  }

  function InitEnd(inHwm: int, outHwm: int): End {
    End(Active, false, false, false, false, true, true, true, true, outHwm, ComputeLwm(inHwm), 0, 0, 0)
  }

  function InitLink(): Link {
    Link([EmptyQueue()], [], 0, [], [])
  }

  /** `hwmX` bounds what x writes to y, `hwmY` what y writes to x. */
  function PipePair(hwmX: int, hwmY: int): Pair {
    Pair(InitEnd(hwmY, hwmX), InitEnd(hwmX, hwmY), InitLink(), InitLink())
  }
}
