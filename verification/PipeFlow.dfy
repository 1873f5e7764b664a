/** Delivery, termination and flow control of a pipe pair in runs without hiccups. */
module PipeFlow {
  import opened YPipes
  import opened PipeProtocol
  import opened PipeSafety

  // ---- what the reading user is to see ----

  /** The items a reading user gets: no delimiters and no credential frames. */
  function Body(s: seq<Item>): seq<Item> {
    if s == [] then []
    else (if s[0].Item? && !s[0].credential then [s[0]] else []) + Body(s[1..])
  }

  /** The number of items that count against the watermark. */
  function Counted(s: seq<Item>): nat {
    if s == [] then 0 else (if Counts(s[0]) then 1 else 0) + Counted(s[1..])
  }

  /** Once a delimiter is queued nothing but delimiters follows. */
  predicate Closed(s: seq<Item>) {
    s != [] ==> (s[0].Delimiter? ==> AllDelimiters(s)) && Closed(s[1..])
  }

  predicate AllDelimiters(s: seq<Item>) {
    s != [] ==> s[0].Delimiter? && AllDelimiters(s[1..])
  }

  lemma {:induction false} BodyConcat(s: seq<Item>, t: seq<Item>)
    ensures Body(s + t) == Body(s) + Body(t)
  {
    if s == [] {
      assert s + t == t;
    } else {
      assert (s + t)[1..] == s[1..] + t;
      BodyConcat(s[1..], t);
      if s[0].Item? && !s[0].credential {
        assert [s[0]] + (Body(s[1..]) + Body(t)) == ([s[0]] + Body(s[1..])) + Body(t);
      }
    }
  }

  lemma {:induction false} CountedConcat(s: seq<Item>, t: seq<Item>)
    ensures Counted(s + t) == Counted(s) + Counted(t)
  {
    if s == [] {
      assert s + t == t;
    } else {
      assert (s + t)[1..] == s[1..] + t;
      CountedConcat(s[1..], t);
    }
  }

  lemma {:induction false} PartialCounts(s: seq<Item>)
    requires AllMore(s)
    ensures Counted(s) == 0
  {
    if s != [] {
      PartialCounts(s[1..]);
    }
  }

  lemma {:induction false} DelimitersOnly(s: seq<Item>)
    requires AllDelimiters(s)
    ensures Body(s) == [] && Counted(s) == 0 && AllDelimiters(s + [Delimiter])
  {
    if s == [] {
      assert s + [Delimiter] == [Delimiter];
    } else {
      assert (s + [Delimiter])[1..] == s[1..] + [Delimiter];
      DelimitersOnly(s[1..]);
    }
  }

  lemma {:induction false} ClosedSnoc(s: seq<Item>)
    requires Closed(s)
    ensures Closed(s + [Delimiter])
  {
    if s == [] {
      assert s + [Delimiter] == [Delimiter];
    } else {
      assert (s + [Delimiter])[1..] == s[1..] + [Delimiter];
      ClosedSnoc(s[1..]);
      if s[0].Delimiter? {
        DelimitersOnly(s);
      }
    }
  }

  lemma {:induction false} ClosedOpen(s: seq<Item>)
    requires NoDelimiter(s)
    ensures Closed(s)
  {
    if s != [] {
      ClosedOpen(s[1..]);
    }
  }

  // ---- the progress reports ----

  /** The largest multiple of the low watermark that the reader has passed. */
  function Floor(n: nat, lwm: int): nat {
    if lwm <= 0 then 0 else lwm * (n / lwm)
  }

  /** Starting from `low`, the reports in the channel never fall and end at `high`. */
  predicate Climb(low: nat, s: seq<Cmd>, high: nat)
    decreases s
  {
    if s == [] then low == high
    else if s[0].ActivateWrite? then low <= s[0].msgsRead && Climb(s[0].msgsRead, s[1..], high)
    else Climb(low, s[1..], high)
  }

  lemma {:induction false} ClimbSnoc(low: nat, s: seq<Cmd>, high: nat, c: Cmd)
    requires Climb(low, s, high)
    requires c.ActivateWrite? ==> high <= c.msgsRead
    ensures Climb(low, s + [c], if c.ActivateWrite? then c.msgsRead else high)
    decreases s
  {
    if s == [] {
      assert s + [c] == [c];
    } else {
      assert (s + [c])[1..] == s[1..] + [c];
      ClimbSnoc(if s[0].ActivateWrite? then s[0].msgsRead else low, s[1..], high, c);
    }
  }

  lemma {:induction false} ClimbBounds(low: nat, s: seq<Cmd>, high: nat)
    requires Climb(low, s, high)
    ensures low <= high
    ensures Silent(s, low) ==> low == high
    decreases s
  {
    if s != [] {
      ClimbBounds(if s[0].ActivateWrite? then s[0].msgsRead else low, s[1..], high);
      assert Silent(s, low) ==> s[0].ActivateWrite? ==> s[0].msgsRead == low;
      assert Silent(s, low) ==> Silent(s[1..], low);
    }
  }

  /** No report in the channel counts more than n messages. */
  predicate Silent(s: seq<Cmd>, n: nat) {
    forall i :: 0 <= i < |s| && s[i].ActivateWrite? ==> s[i].msgsRead <= n
  }

  lemma FloorBounds(n: nat, l: int)
    requires l > 0
    ensures Floor(n, l) <= n < Floor(n, l) + l
    ensures Reports(n, l) ==> Floor(n, l) == n
    ensures !Reports(n + 1, l) ==> Floor(n + 1, l) == Floor(n, l)
  {
    var q, r := n / l, n % l;
    assert n == l * q + r;
    if r + 1 < l {
      SameQuotient(n + 1, l, q, r + 1);
    } else {
      assert n + 1 == l * (q + 1);
      SameQuotient(n + 1, l, q + 1, 0);
    }
  }

  /** Reading on leaves the last report right: it is renewed exactly when the floor moves. */
  lemma FloorStep(n: nat, n': nat, l: int)
    requires n' == n || n' == n + 1
    ensures Reports(n', l) ==> Floor(n, l) <= n' == Floor(n', l)
    ensures !Reports(n', l) ==> Floor(n', l) == Floor(n, l)
  {
    if l > 0 {
      FloorBounds(n, l);
      FloorBounds(n', l);
    }
  }

  lemma SameQuotient(n: int, l: int, q: int, r: int)
    requires l > 0 && 0 <= r < l && n == l * q + r
    ensures n / l == q && n % l == r
  {
    var q', r' := n / l, n % l;
    assert l * (q' - q) == l * q' - l * q == r - r';
    assert l * (q - q') == l * q - l * q' == r' - r;
    if q < q' {
      AtLeastOnce(l, q' - q);
    } else if q > q' {
      AtLeastOnce(l, q - q');
    }
  }

  lemma AtLeastOnce(l: int, k: int)
    requires l > 0 && k >= 1
    ensures l * k >= l
  {
  }

  // ---- the invariant of one direction: x writes, y reads, `back` is what y has sent to x ----

  /** What was accepted is what was handed over plus what is queued, and a delimiter closes it. */
  predicate Delivery(x: End, y: End, xy: Link) {
    var all := xy.chain[0].Complete();
    && (!y.freed ==> xy.got + Body(all) == Body(xy.wrote) && Closed(all))
    && (y.sawDelim ==> xy.got == Body(xy.wrote) && x.state != Active)
  }

  /** A reader that will not look again has been sent a wake-up or has nothing to see; and while an
      end that asked to terminate has a peer still reading, the delimiter is there to be read. */
  predicate Wakeup(x: End, y: End, xy: Link) {
    var q := xy.chain[0];
    && (q.asleep ==> q.ready == [])
    && (!y.freed && Reading(y) && !y.inActive ==> q.asleep || ActivateRead in xy.cmds)
    && (!x.freed && !y.freed && x.state == TermReqSent1 && Reading(y) ==> Delimiter in q.ready)
  }

  /** The counters of both ends agree on what is in between. */
  predicate Credit(x: End, y: End, xy: Link, back: seq<Cmd>) {
    && y.lwm == ComputeLwm(x.hwm)
    && Climb(x.peersMsgsRead, back, Floor(y.msgsRead, y.lwm))
    && y.msgsRead <= x.msgsWritten
    && (x.hwm > 0 ==> x.msgsWritten - x.peersMsgsRead <= x.hwm)
    && (!y.freed ==> x.msgsWritten == y.msgsRead + xy.skipped + Counted(xy.chain[0].Complete()))
  }

  predicate History(y: End) {
    && (y.state == DelimiterReceived ==> y.sawDelim)
    && (y.state == TermAckSent && !y.selfTerm && y.delay ==> y.sawDelim)
    && (y.selfTerm <==> y.state != Active && y.state != DelimiterReceived && y.selfTerm)
    && (y.state == TermReqSent1 || y.state == TermReqSent2 ==> y.selfTerm)
    && (y.freed ==> y.state == TermReqSent1 || y.state == TermReqSent2 || y.state == TermAckSent)
  }

  /** A message begun on an active end can be finished: neither the gate nor the watermark shuts. */
  predicate Whole(x: End, xy: Link) {
    xy.chain[0].partial != [] && x.state == Active ==> x.outActive && !Full(x)
  }

  /** The gate of an active end is shut by the watermark only, and not for longer. */
  predicate Gate(x: End) {
    x.state == Active && !x.outActive ==> Full(x)
  }

  predicate LinkData(x: End, y: End, xy: Link, back: seq<Cmd>) {
    && |xy.chain| == 1 && Hiccup !in xy.cmds
    && Delivery(x, y, xy) && Wakeup(x, y, xy) && Credit(x, y, xy, back) && History(x)
    && Whole(x, xy) && Gate(x)
  }

  predicate Data(p: Pair) {
    LinkData(p.x, p.y, p.xy, p.yx.cmds) && LinkData(p.y, p.x, p.yx, p.xy.cmds)
  }

  // ---- effects on the direction an end writes ----

  lemma CreditSnoc(x: End, y: End, xy: Link, back: seq<Cmd>, c: Cmd)
    requires Credit(x, y, xy, back) && !c.ActivateWrite?
    ensures Credit(x, y, xy, back + [c])
  {
    ClimbSnoc(x.peersMsgsRead, back, Floor(y.msgsRead, y.lwm), c);
  }

  lemma CompleteWrite(q: Queue<Item>, m: Item)
    ensures q.Write(m, false).Complete() == q.Complete() + (q.partial + [m])
    ensures q.Write(m, true).Complete() == q.Complete()
    ensures q.Flush().Complete() == q.Complete()
    ensures q.ready != [] ==> q.Complete() == [q.ready[0]] + q.Pop().Complete()
    ensures q.ready != [] ==> q.Complete()[0] == q.ready[0] && q.Complete()[1..] == q.Pop().Complete()
  {
  }

  lemma WriteFacts(q: Queue<Item>, m: Item, got: seq<Item>, wrote: seq<Item>)
    requires got + Body(q.Complete()) == Body(wrote)
    requires AllMore(q.partial) && Clean(q) && m.Item?
    ensures var c := q.Write(m, false).Complete();
            && got + Body(c) == Body(wrote + (q.partial + [m])) && Closed(c)
            && Counted(c) == Counted(q.Complete()) + if Counts(m) then 1 else 0
  {
    var t := q.partial + [m];
    CompleteWrite(q, m);
    BodyConcat(q.Complete(), t);
    BodyConcat(wrote, t);
    CountedConcat(q.Complete(), t);
    CountedConcat(q.partial, [m]);
    PartialCounts(q.partial);
    assert got + (Body(q.Complete()) + Body(t)) == (got + Body(q.Complete())) + Body(t);
    ClosedOpen(q.Complete() + t);
  }

  /** Accepting a message or a part of one. */
  lemma WriteData(ep: Ep, y: End, link: Link, back: seq<Cmd>, m: Item)
    requires |link.chain| == 1 && ep.outq == link.chain[0] && ep.wrote == link.wrote
    requires LinkData(ep.e, y, link, back) && m.Item? && CanWrite(ep.e) && !ep.e.freed && !y.freed
    requires AllMore(ep.outq.partial) && Clean(ep.outq)
    ensures var e2 := Write(ep, m);
            LinkData(e2.e, y, link.(chain := [e2.outq], wrote := e2.wrote), back)
  {
    if !m.more {
      WriteFacts(ep.outq, m, link.got, link.wrote);
    }
    ClimbBounds(ep.e.peersMsgsRead, back, Floor(y.msgsRead, y.lwm));
  }

  lemma FlushData(ep: Ep, y: End, link: Link, back: seq<Cmd>)
    requires |link.chain| == 1 && ep.outq == link.chain[0] && ep.cmds == link.cmds
    requires LinkData(ep.e, y, link, back)
    ensures var e2 := Flush(ep);
            e2.e == ep.e && LinkData(e2.e, y, link.(chain := [e2.outq], cmds := e2.cmds), back)
  {
    CompleteWrite(ep.outq, Delimiter);
  }

  /** Closing the stream: one delimiter more at the end, visible at once, the reader woken. */
  lemma CloseOutData(x: End, ep: Ep, y: End, link: Link, back: seq<Cmd>)
    requires |link.chain| == 1 && ep.outq == link.chain[0]
    requires LinkData(x, y, link, back) && !y.freed
    requires ep.e.msgsWritten == x.msgsWritten && ep.e.peersMsgsRead == x.peersMsgsRead && ep.e.hwm == x.hwm
    requires ep.e.hasOut && (ep.e.state == TermReqSent1 || ep.e.state == WaitingForDelimiter) && History(ep.e)
    requires Hiccup !in ep.cmds && (ActivateRead in link.cmds ==> ActivateRead in ep.cmds)
    ensures var e2 := CloseOut(ep);
            LinkData(e2.e, y, link.(chain := [e2.outq], cmds := e2.cmds), back)
  {
    var q := ep.outq;
    var all := q.Complete();
    var q2 := q.DropPartial().Write(Delimiter, false).Flush();
    assert q2.Complete() == q2.ready == all + [Delimiter];
    BodyConcat(all, [Delimiter]);
    CountedConcat(all, [Delimiter]);
    ClosedSnoc(all);
    assert q2.ready[|q2.ready| - 1] == Delimiter;
    hide Body, Counted, Closed, Floor, Climb;
  }

  /** A change of the writing end that touches neither its counters nor its queue. */
  lemma WriterFrame(x: End, x': End, y: End, xy: Link, cmds: seq<Cmd>, back: seq<Cmd>)
    requires LinkData(x, y, xy, back) && History(x') && Gate(x')
    requires x'.msgsWritten == x.msgsWritten && x'.peersMsgsRead == x.peersMsgsRead && x'.hwm == x.hwm
    requires x'.state == Active ==> x.state == Active && (x.outActive && !Full(x) ==> x'.outActive)
    requires x'.state == TermReqSent1 && !x'.freed ==> x.state == TermReqSent1 && !x.freed
    requires Hiccup !in cmds && (ActivateRead in xy.cmds ==> ActivateRead in cmds)
    ensures LinkData(x', y, xy.(chain := [xy.chain[0]], cmds := cmds), back)
  {
    hide Body, Counted, Closed, Floor, Climb;
  }

  /** A change of the reading end that leaves what it has read alone. */
  lemma ReaderFrame(y: End, x: End, x': End, yx: Link, back: seq<Cmd>, back': seq<Cmd>)
    requires LinkData(y, x, yx, back)
    requires x'.freed == x.freed && x'.sawDelim == x.sawDelim && x'.msgsRead == x.msgsRead && x'.lwm == x.lwm
    requires Reading(x') ==> Reading(x) && (x'.inActive || x'.inActive == x.inActive)
    requires Climb(y.peersMsgsRead, back', Floor(x.msgsRead, x.lwm))
    ensures LinkData(y, x', yx.(chain := [yx.chain[0]]), back')
  {
    hide Body, Counted, Closed, Floor, Climb;
  }

  // ---- effects on the direction an end reads ----

  lemma SleepData(y: End, ep: Ep, yx: Link, back: seq<Cmd>)
    requires |yx.chain| == 1 && ep.inq == yx.chain[0] && LinkData(y, ep.e, yx, back)
    requires ep.inq.ready == []
    ensures LinkData(y, Sleep(ep).e, yx.(chain := [Sleep(ep).inq]), back)
  {
    hide Body, Counted, Closed, Floor, Climb;
  }

  lemma SkipData(y: End, ep: Ep, yx: Link, back: seq<Cmd>)
    requires |yx.chain| == 1 && ep.inq == yx.chain[0] && ep.skipped == yx.skipped && LinkData(y, ep.e, yx, back)
    requires ep.inq.ready != [] && ep.inq.ready[0].Item? && ep.inq.ready[0].credential && !ep.e.freed
    requires ep.e.inActive
    ensures var e2 := SkipCredential(ep); LinkData(y, ep.e, yx.(chain := [e2.inq], skipped := e2.skipped), back)
  {
    CompleteWrite(ep.inq, Delimiter);
    hide Floor, Climb;
  }

  lemma PopFacts(q: Queue<Item>, got: seq<Item>, sent: seq<Item>)
    requires q.ready != [] && Closed(q.Complete()) && got + Body(q.Complete()) == sent
    ensures var m := q.ready[0];
            var c := q.Pop().Complete();
            && Closed(c)
            && Counted(q.Complete()) == Counted(c) + (if Counts(m) then 1 else 0)
            && (m.Item? && !m.credential ==> (got + [m]) + Body(c) == sent)
            && (m.Delimiter? ==> got == sent && Body(c) == [])
  {
    var all := q.Complete();
    CompleteWrite(q, Delimiter);
    if all[0].Delimiter? {
      DelimitersOnly(all);
    } else {
      assert got + ([all[0]] + Body(all[1..])) == (got + [all[0]]) + Body(all[1..]);
    }
  }

  lemma TakeCredit(low: nat, back: seq<Cmd>, n: nat, n': nat, l: int)
    requires Climb(low, back, Floor(n, l)) && (n' == n || n' == n + 1)
    ensures Climb(low, if Reports(n', l) then back + [ActivateWrite(n')] else back, Floor(n', l))
  {
    hide Floor, Reports, Climb;
    FloorStep(n, n', l);
    if Reports(n', l) {
      ClimbSnoc(low, back, Floor(n, l), ActivateWrite(n'));
    }
  }

  lemma TakeData(y: End, x: End, x': End, yx: Link, back: seq<Cmd>, back': seq<Cmd>)
    requires |yx.chain| == 1 && LinkData(y, x, yx, back) && !x.freed && x.inActive
    requires yx.chain[0].ready != [] && yx.chain[0].ready[0].Item? && !yx.chain[0].ready[0].credential
    requires x' == x.(msgsRead := x.msgsRead + if Counts(yx.chain[0].ready[0]) then 1 else 0)
    requires back' == if Reports(x'.msgsRead, x.lwm) then back + [ActivateWrite(x'.msgsRead)] else back
    ensures LinkData(y, x', yx.(chain := [yx.chain[0].Pop()], got := yx.got + [yx.chain[0].ready[0]]), back')
  {
    hide Reports, Floor, Climb, Body, Counted, Closed;
    PopFacts(yx.chain[0], yx.got, Body(yx.wrote));
    TakeCredit(y.peersMsgsRead, back, x.msgsRead, x'.msgsRead, x.lwm);
  }

  /** The delimiter is the proof that everything before it has been read. */
  lemma DelimiterData(y: End, x: End, x': End, yx: Link, back: seq<Cmd>)
    requires |yx.chain| == 1 && LinkData(y, x, yx, back)
    requires yx.chain[0].ready != [] && yx.chain[0].ready[0].Delimiter? && !x.freed
    requires y.state != Active
    requires x' == x.(state := x'.state, sawDelim := true, hasOut := x'.hasOut) && !Reading(x')
    ensures LinkData(y, x', yx.(chain := [yx.chain[0].Pop()]), back)
  {
    hide Floor, Climb, Body, Counted, Closed;
    PopFacts(yx.chain[0], yx.got, Body(yx.wrote));
    assert yx.got + [] == yx.got;
  }

  // ---- every step keeps the invariant ----

  predicate Inv(p: Pair) {
    Safe(p) && Data(p)
  }

  /** Without hiccups an update replaces the only queue of each direction. */
  lemma UpdateOnly(p: Pair, ep: Ep)
    requires |p.xy.chain| == 1 && |p.yx.chain| == 1
    ensures Update(p, ep) == Pair(ep.e, p.y,
              p.xy.(chain := [ep.outq], wrote := ep.wrote, cmds := ep.cmds),
              p.yx.(chain := [ep.inq], got := ep.got, skipped := ep.skipped))
  {
  }

  lemma Only(p: Pair)
    requires |p.xy.chain| == 1 && |p.yx.chain| == 1
    ensures p.xy.(chain := [p.xy.chain[0]]) == p.xy && p.yx.(chain := [p.yx.chain[0]]) == p.yx
  {
  }

  lemma {:induction false} ReadLoopData(p: Pair)
    requires Inv(p) && !p.x.freed && Reading(p.x) && p.x.inActive
    ensures Data(Update(p, ReadLoop(View(p)).0))
    decreases |View(p).inq.ready|
  {
    hide Delivery, Wakeup, Credit, Whole, Safe, Floor, Climb;
    var v := View(p);
    UpdateOnly(p, ReadLoop(v).0);
    if v.inq.ready == [] {
      SleepData(p.y, v, p.yx, p.xy.cmds);
      WriterFrame(p.x, p.x.(inActive := false), p.y, p.xy, p.xy.cmds, p.yx.cmds);
    } else if v.inq.ready[0].Delimiter? {
      ReadDelimiter(p);
    } else if v.inq.ready[0].credential {
      var s := SkipCredential(v);
      SkipData(p.y, v, p.yx, p.xy.cmds);
      WriterFrame(p.x, p.x, p.y, p.xy, p.xy.cmds, p.yx.cmds);
      SkipSafe(p);
      UpdateOnly(p, s);
      ViewUpdate(p, s, ReadLoop(s).0);
      ReadLoopData(Update(p, s));
    } else {
      ReadTake(p);
    }
  }

  lemma SkipSafe(p: Pair)
    requires Safe(p) && View(p).inq.ready != []
    ensures Safe(Update(p, SkipCredential(View(p))))
  {
    ViewGood(p);
    GoodSafe(p, SkipCredential(View(p)));
  }

  lemma ReadTake(p: Pair)
    requires Inv(p) && !p.x.freed && Reading(p.x) && p.x.inActive
    requires var r := View(p).inq.ready; r != [] && r[0].Item? && !r[0].credential
    ensures Data(Update(p, Take(View(p))))
  {
    hide Delivery, Wakeup, Credit, Whole, Safe, Reports;
    var t := Take(View(p));
    UpdateOnly(p, t);
    TakeData(p.y, p.x, t.e, p.yx, p.xy.cmds, t.cmds);
    WriterFrame(p.x, t.e, p.y, p.xy, t.cmds, p.yx.cmds);
  }

  lemma ReadDelimiter(p: Pair)
    requires Inv(p) && !p.x.freed && Reading(p.x)
    requires var r := View(p).inq.ready; r != [] && r[0].Delimiter?
    ensures Data(Update(p, ProcessDelimiter(View(p).(inq := View(p).inq.Pop()))))
  {
    var t := ProcessDelimiter(View(p).(inq := View(p).inq.Pop()));
    assert QueueOk(PhaseOf(p.y), p.yx.chain[0]);
    UpdateOnly(p, t);
    hide Delivery, Wakeup, Whole, Safe, Floor, Climb;
    DelimiterData(p.y, p.x, t.e, p.yx, p.xy.cmds);
    if p.x.state == WaitingForDelimiter {
      CreditSnoc(p.y, t.e, p.yx.(chain := [t.inq]), p.xy.cmds, PipeTermAck);
    }
    WriterFrame(p.x, t.e, p.y, p.xy, t.cmds, p.yx.cmds);
  }

  /** An end that still has its outbound queue has a living peer. */
  lemma PeerAlive(p: Pair)
    requires Safe(p) && p.x.hasOut
    ensures !p.y.freed && !p.x.freed
  {
  }

  lemma TerminateData(p: Pair, d: bool)
    requires Inv(p) && !p.x.freed
    ensures Data(Update(p, Terminate(View(p), d)))
  {
    hide Data;
    var v := View(p);
    var x2 := p.x.(delay := d, selfTerm := true, outActive := false);
    ViewUpdate(p, v, v);
    match p.x.state
    case TermReqSent1 => TerminateIgnored(p, d);
    case TermReqSent2 => TerminateIgnored(p, d);
    case TermAckSent => TerminateIgnored(p, d);
    case WaitingForDelimiter =>
      if d {
        CloseBoth(p, v.(e := x2));
      } else {
        TerminateNow(p);
      }
    case _ =>
      CloseBoth(p, v.(e := x2.(state := TermReqSent1), cmds := p.xy.cmds + [PipeTerm]));
  }

  lemma TerminateNow(p: Pair)
    requires Inv(p) && !p.x.freed && p.x.state == WaitingForDelimiter
    ensures Data(Update(p, Terminate(View(p), false)))
  {
    hide Delivery, Wakeup, Credit, Whole, Safe, Floor, Climb;
    var t := Terminate(View(p), false);
    WriterFrame(p.x, t.e, p.y, p.xy, t.cmds, p.yx.cmds);
    CreditClimb(p.y, p.x, p.yx, p.xy.cmds);
    ClimbSnoc(p.y.peersMsgsRead, p.xy.cmds, Floor(p.x.msgsRead, p.x.lwm), PipeTermAck);
    ReaderFrame(p.y, p.x, t.e, p.yx, p.xy.cmds, t.cmds);
    UpdateOnly(p, t);
  }

  lemma TerminateIgnored(p: Pair, d: bool)
    requires Inv(p) && !p.x.freed && p.x.state in {TermReqSent1, TermReqSent2, TermAckSent}
    ensures Data(p.(x := p.x.(delay := d, selfTerm := true)))
  {
    var x' := p.x.(delay := d, selfTerm := true);
    WriterFrame(p.x, x', p.y, p.xy, p.xy.cmds, p.yx.cmds);
    ReaderFrame(p.y, p.x, x', p.yx, p.xy.cmds, p.xy.cmds);
    Only(p);
  }

  lemma CloseBoth(p: Pair, ep: Ep)
    requires Inv(p) && p.x.hasOut && ep == View(p).(e := ep.e, cmds := ep.cmds)
    requires ep.e == p.x.(delay := ep.e.delay, selfTerm := true, outActive := false, state := ep.e.state)
    requires (ep.e.state == TermReqSent1 && ep.cmds == p.xy.cmds + [PipeTerm])
          || (ep.e.state == WaitingForDelimiter == p.x.state && ep.cmds == p.xy.cmds)
    ensures Data(Update(p, CloseOut(ep)))
  {
    PeerAlive(p);
    var low, high := p.y.peersMsgsRead, Floor(p.x.msgsRead, p.x.lwm);
    ClimbSnoc(low, p.xy.cmds, high, PipeTerm);
    ClimbSnoc(low, ep.cmds, high, ActivateRead);
    hide Floor, Climb, Delivery, Wakeup, Credit, Whole;
    CloseOutData(p.x, ep, p.y, p.xy, p.yx.cmds);
    var c := CloseOut(ep);
    CloseOutFrame(ep);
    hide CloseOut;
    UpdateOnly(p, c);
    ReaderFrame(p.y, p.x, c.e, p.yx, p.xy.cmds, c.cmds);
  }

  lemma CloseOutFrame(ep: Ep)
    ensures var c := CloseOut(ep);
            && c.e == ep.e.(failed := c.e.failed) && c.inq == ep.inq && c.got == ep.got
            && c.skipped == ep.skipped && c.wrote == ep.wrote
            && (c.cmds == ep.cmds || c.cmds == ep.cmds + [ActivateRead])
  {
  }

  /** Taking a command off the channel to x. */
  lemma PopCmd(p: Pair)
    requires Data(p) && p.yx.cmds != [] && !p.yx.cmds[0].ActivateWrite? && p.yx.cmds[0] != ActivateRead
    ensures Data(p.(yx := p.yx.(cmds := p.yx.cmds[1..])))
  {
    hide Floor, Body, Counted, Closed;
  }

  lemma DeliverData(p: Pair)
    requires Inv(p) && !p.x.freed && p.yx.cmds != []
    ensures Data(Deliver(p))
  {
    match p.yx.cmds[0]
    case ActivateRead => DeliverActivateRead(p);
    case ActivateWrite(n) => DeliverActivateWrite(p);
    case PipeTerm => PopCmd(p); TermSent(p); DeliverTerm(p);
    case PipeTermAck => PopCmd(p); AckGood(p); DeliverAck(p);
  }

  lemma WokenData(y: End, x: End, x': End, yx: Link, back: seq<Cmd>)
    requires LinkData(y, x, yx, back) && yx.cmds != []
    requires x' == x.(inActive := x'.inActive) && (Reading(x) ==> x'.inActive)
    ensures LinkData(y, x', yx.(cmds := yx.cmds[1..]), back)
  {
    hide Floor, Climb, Body, Counted, Closed;
  }

  lemma PopWake(x: End, y: End, xy: Link, back: seq<Cmd>)
    requires LinkData(x, y, xy, back) && back != [] && !back[0].ActivateWrite?
    ensures LinkData(x, y, xy, back[1..])
  {
    hide Floor, Body, Counted, Closed, Delivery, Wakeup, Whole, History;
  }

  lemma DeliverActivateRead(p: Pair)
    requires Inv(p) && !p.x.freed && p.yx.cmds != [] && p.yx.cmds[0] == ActivateRead
    ensures Data(Deliver(p))
  {
    hide Delivery, Wakeup, Credit, Whole, Safe, Floor, Climb;
    var t := ProcessActivateRead(View(p));
    UpdateOnly(Popped(p), t);
    Only(p);
    WokenData(p.y, p.x, t.e, p.yx, p.xy.cmds);
    PopWake(p.x, p.y, p.xy, p.yx.cmds);
    WriterFrame(p.x, t.e, p.y, p.xy, p.xy.cmds, p.yx.cmds[1..]);
  }

  /** A report moves the writer's idea of the reader forward, never back. */
  lemma ReportData(x: End, x': End, y: End, xy: Link, back: seq<Cmd>)
    requires LinkData(x, y, xy, back) && back != [] && back[0].ActivateWrite?
    requires x' == x.(peersMsgsRead := back[0].msgsRead, outActive := x'.outActive)
    requires (x.outActive ==> x'.outActive) && Gate(x')
    ensures LinkData(x', y, xy, back[1..])
  {
    ClimbBounds(back[0].msgsRead, back[1..], Floor(y.msgsRead, y.lwm));
    hide Floor, Body, Counted, Closed;
  }

  lemma DeliverActivateWrite(p: Pair)
    requires Inv(p) && !p.x.freed && p.yx.cmds != [] && p.yx.cmds[0].ActivateWrite?
    ensures Data(Deliver(p))
  {
    var t := ProcessActivateWrite(View(p), p.yx.cmds[0].msgsRead);
    UpdateOnly(Popped(p), t);
    Only(p);
    ReportData(p.x, t.e, p.y, p.xy, p.yx.cmds);
    hide Floor, Climb, Body, Counted, Closed;
    ReaderFrame(p.y, p.x, t.e, p.yx, p.xy.cmds, p.xy.cmds);
    assert LinkData(p.y, t.e, p.yx.(cmds := p.yx.cmds[1..]), p.xy.cmds);
    hide LinkData;
  }

  lemma TermShape(ep: Ep)
    requires Unanswered(PhaseOf(ep.e)) && History(ep.e)
    ensures var t := ProcessPipeTerm(ep);
            && t == ep.(e := ep.e.(state := t.e.state, hasOut := t.e.hasOut), cmds := t.cmds)
            && History(t.e) && (t.cmds == ep.cmds || t.cmds == ep.cmds + [PipeTermAck])
            && t.e.state != Active && t.e.state != TermReqSent1
            && (Reading(t.e) ==> ep.e.state == Active)
  {
  }

  lemma DeliverTerm(p: Pair)
    requires Inv(p) && !p.x.freed && p.yx.cmds != [] && p.yx.cmds[0] == PipeTerm
    requires Unanswered(PhaseOf(p.x)) && Data(Popped(p))
    ensures Data(Deliver(p))
  {
    hide Delivery, Wakeup, Credit, Whole, Safe, Floor, Climb;
    var q := Popped(p);
    var t := ProcessPipeTerm(View(p));
    TermShape(View(p));
    hide ProcessPipeTerm;
    WriterFrame(q.x, t.e, q.y, q.xy, t.cmds, q.yx.cmds);
    CreditClimb(q.y, q.x, q.yx, q.xy.cmds);
    ClimbSnoc(q.y.peersMsgsRead, q.xy.cmds, Floor(q.x.msgsRead, q.x.lwm), PipeTermAck);
    ReaderFrame(q.y, q.x, t.e, q.yx, q.xy.cmds, t.cmds);
    UpdateOnly(q, t);
  }

  lemma CreditClimb(x: End, y: End, xy: Link, back: seq<Cmd>)
    requires Credit(x, y, xy, back)
    ensures Climb(x.peersMsgsRead, back, Floor(y.msgsRead, y.lwm))
  {
  }

  /** A freed end has thrown its queue away; what is known of its past stays. */
  lemma FreedData(y: End, x: End, x': End, yx: Link, back: seq<Cmd>, back': seq<Cmd>, q: Queue<Item>)
    requires LinkData(y, x, yx, back) && Climb(y.peersMsgsRead, back', Floor(x.msgsRead, x.lwm))
    requires x' == x.(freed := true, hasOut := x'.hasOut) && q.ready == [] && q.partial == yx.chain[0].partial
    ensures LinkData(y, x', yx.(chain := [q]), back')
  {
    hide Body, Counted, Closed, Floor, Climb;
  }

  lemma AckAnswer(ep: Ep)
    ensures var t := SendAck(ep);
            && t == ep.(e := ep.e.(hasOut := t.e.hasOut), cmds := t.cmds)
            && (t.cmds == ep.cmds || t.cmds == ep.cmds + [PipeTermAck])
  {
  }

  lemma AckShape(ep: Ep)
    requires !ProcessPipeTermAck(ep).e.failed && !ep.e.freed
    ensures var t := ProcessPipeTermAck(ep);
            && t == ep.(e := ep.e.(freed := true, hasOut := t.e.hasOut), inq := t.inq, cmds := t.cmds)
            && t.inq.ready == [] && t.inq.partial == ep.inq.partial && (t.cmds == ep.cmds || t.cmds == ep.cmds + [PipeTermAck])
            && (ep.e.state == TermReqSent1 || ep.e.state == TermReqSent2 || ep.e.state == TermAckSent)
  {
    AckAnswer(ep);
    hide SendAck;
  }

  lemma DeliverAck(p: Pair)
    requires Inv(p) && !p.x.freed && p.yx.cmds != [] && p.yx.cmds[0] == PipeTermAck
    requires Data(Popped(p)) && !ProcessPipeTermAck(View(p)).e.failed
    ensures Data(Deliver(p))
  {
    hide Delivery, Wakeup, Credit, Whole, Safe, Floor, Climb;
    var q := Popped(p);
    var t := ProcessPipeTermAck(View(p));
    AckShape(View(p));
    hide ProcessPipeTermAck;
    CreditClimb(q.y, q.x, q.yx, q.xy.cmds);
    ClimbSnoc(q.y.peersMsgsRead, q.xy.cmds, Floor(q.x.msgsRead, q.x.lwm), PipeTermAck);
    WriterFrame(q.x, t.e, q.y, q.xy, t.cmds, q.yx.cmds);
    FreedData(q.y, q.x, t.e, q.yx, q.xy.cmds, t.cmds, t.inq);
    UpdateOnly(q, t);
  }

  lemma StepXData(p: Pair, op: Op)
    requires Inv(p) && Enabled(p, op) && op != OpHiccup
    ensures Data(StepX(p, op))
  {
    var v := View(p);
    ViewUpdate(p, v, v);
    match op
    case OpNodelay => FieldsData(p, p.x.(delay := false));
    case OpTerminate(d) => TerminateData(p, d);
    case OpCheckRead =>
      if v.e.inActive && Reading(v.e) {
        if v.inq.ready == [] {
          ReadLoopData(p);
        } else if v.inq.ready[0].Delimiter? {
          ReadDelimiter(p);
        }
      }
    case OpRead =>
      if v.e.inActive && Reading(v.e) {
        ReadLoopData(p);
      }
    case OpCheckWrite => FieldsData(p, CheckWrite(v).e);
    case OpWrite(m) =>
      if CanWrite(v.e) {
        WriteStepData(p, m);
      } else {
        FieldsData(p, CheckWrite(v).e);
      }
    case OpRollback => RollbackData(p);
    case OpFlush => FlushStepData(p);
    case OpDeliver => DeliverData(p);
  }

  /** Changing the delay or the write gate touches nothing else. */
  lemma FieldsData(p: Pair, x': End)
    requires Inv(p) && x' == p.x.(delay := x'.delay, outActive := x'.outActive)
    requires x'.delay ==> p.x.delay
    requires (p.x.outActive && !Full(p.x) ==> x'.outActive) && Gate(x')
    ensures Data(p.(x := x'))
  {
    WriterFrame(p.x, x', p.y, p.xy, p.xy.cmds, p.yx.cmds);
    ReaderFrame(p.y, p.x, x', p.yx, p.xy.cmds, p.xy.cmds);
    Only(p);
  }

  lemma WriteStepData(p: Pair, m: Item)
    requires Inv(p) && !p.x.freed && m.Item? && CanWrite(p.x)
    ensures Data(Update(p, Write(View(p), m)))
  {
    PeerAlive(p);
    assert QueueOk(PhaseOf(p.x), p.xy.chain[0]);
    hide Body, Counted, Closed, Floor, Climb, Delivery, Wakeup;
    WriteData(View(p), p.y, p.xy, p.yx.cmds, m);
    var t := Write(View(p), m);
    assert t == View(p).(outq := t.outq, wrote := t.wrote, e := p.x.(msgsWritten := t.e.msgsWritten));
    UpdateOnly(p, t);
    ReaderFrame(p.y, p.x, t.e, p.yx, p.xy.cmds, p.xy.cmds);
  }

  lemma RollbackLink(x: End, x': End, y: End, xy: Link, back: seq<Cmd>)
    requires LinkData(x, y, xy, back) && x' == x.(failed := x'.failed)
    ensures LinkData(x', y, xy.(chain := [xy.chain[0].DropPartial()]), back)
  {
    assert xy.chain[0].DropPartial().Complete() == xy.chain[0].Complete();
    hide Body, Counted, Closed, Floor, Climb;
  }

  lemma RollbackData(p: Pair)
    requires Inv(p)
    ensures Data(Update(p, Rollback(View(p))))
  {
    hide Delivery, Wakeup, Credit, Whole, Safe, Floor, Climb;
    var t := Rollback(View(p));
    UpdateOnly(p, t);
    Only(p);
    if p.x.hasOut {
      RollbackLink(p.x, t.e, p.y, p.xy, p.yx.cmds);
      CreditClimb(p.y, p.x, p.yx, p.xy.cmds);
      ReaderFrame(p.y, p.x, t.e, p.yx, p.xy.cmds, p.xy.cmds);
    }
  }

  lemma FlushStepData(p: Pair)
    requires Inv(p)
    ensures Data(Update(p, Flush(View(p))))
  {
    ViewUpdate(p, View(p), View(p));
    ClimbSnoc(p.y.peersMsgsRead, p.xy.cmds, Floor(p.x.msgsRead, p.x.lwm), ActivateRead);
    hide Body, Counted, Closed, Floor, Climb;
    FlushData(View(p), p.y, p.xy, p.yx.cmds);
    var t := Flush(View(p));
    UpdateOnly(p, t);
    ReaderFrame(p.y, p.x, p.x, p.yx, p.xy.cmds, t.cmds);
  }

  // ---- what it means for every run ----

  predicate NoHiccups(run: seq<Move>) {
    forall i :: 0 <= i < |run| ==> run[i].op != OpHiccup
  }

  lemma {:induction false} RunInv(hwmX: int, hwmY: int, run: seq<Move>)
    requires NoHiccups(run)
    ensures Inv(Exec(PipePair(hwmX, hwmY), run))
    decreases |run|
  {
    RunSafe(hwmX, hwmY, run);
    if run != [] {
      var n := |run| - 1;
      RunInv(hwmX, hwmY, run[..n]);
      var p := Exec(PipePair(hwmX, hwmY), run[..n]);
      RunSafe(hwmX, hwmY, run[..n]);
      FlipSafe(p);
      if run[n].onX && Enabled(p, run[n].op) {
        StepXData(p, run[n].op);
      } else if !run[n].onX && Enabled(Flip(p), run[n].op) {
        StepXData(Flip(p), run[n].op);
      }
    }
  }

  lemma FlipSafe(p: Pair)
    requires Safe(p)
    ensures Safe(Flip(p)) && Flip(Flip(p)) == p
  {
  }

  /** The end cannot make progress by reading. */
  predicate NothingToRead(e: End, q: Queue<Item>) {
    !(!e.freed && Reading(e) && e.inActive && q.ready != [])
  }

  predicate Quiet(p: Pair) {
    && p.xy.cmds == [] && p.yx.cmds == []
    && NothingToRead(p.y, LastOf(p.xy.chain)) && NothingToRead(p.x, LastOf(p.yx.chain))
  }

  /** Termination completes: once either user asked for it, the pair can come to rest only with
      both ends freed. */
  lemma TerminationCompletes(hwmX: int, hwmY: int, run: seq<Move>)
    requires NoHiccups(run)
    requires var p := Exec(PipePair(hwmX, hwmY), run); Quiet(p) && (p.x.selfTerm || p.y.selfTerm)
    ensures var p := Exec(PipePair(hwmX, hwmY), run); p.x.freed && p.y.freed
  {
    RunInv(hwmX, hwmY, run);
    RestIsDone(Exec(PipePair(hwmX, hwmY), run));
  }

  lemma RestIsDone(p: Pair)
    requires Inv(p) && Quiet(p) && (p.x.selfTerm || p.y.selfTerm)
    ensures p.x.freed && p.y.freed
  {
    hide Delivery, Credit;
    assert Ctl(p.xy.cmds) == [] && Ctl(p.yx.cmds) == [];
  }

  /** Delivery: a reader that kept its delay and did not terminate itself has, once it is freed,
      handed over exactly the messages the writer accepted, in order; and what it has handed over
      before is always a prefix of that. */
  lemma DeliveredInOrder(hwmX: int, hwmY: int, run: seq<Move>)
    requires NoHiccups(run)
    ensures var p := Exec(PipePair(hwmX, hwmY), run);
            && (p.y.freed && !p.y.selfTerm && p.y.delay ==> p.xy.got == Body(p.xy.wrote))
            && (!p.y.freed ==> p.xy.got <= Body(p.xy.wrote))
  {
    RunInv(hwmX, hwmY, run);
  }

  /** Part of a message is queued on x: the next part is refused exactly when x has left the active
      state, be it because its user terminated it or because the peer's termination has arrived. */
  lemma ContinuationRefused(hwmX: int, hwmY: int, run: seq<Move>)
    requires NoHiccups(run)
    ensures var p := Exec(PipePair(hwmX, hwmY), run);
            p.xy.chain[0].partial != [] ==> (CanWrite(p.x) <==> p.x.state == Active)
  {
    RunInv(hwmX, hwmY, run);
  }

  // ---- flow control ----

  /** Credential frames that count against the watermark though no user ever reads them. */
  function Credentials(s: seq<Item>): nat {
    if s == [] then 0 else (if Counts(s[0]) && s[0].credential then 1 else 0) + Credentials(s[1..])
  }

  lemma {:induction false} CredentialsCounted(s: seq<Item>)
    ensures Credentials(s) <= Counted(s)
  {
    if s != [] {
      CredentialsCounted(s[1..]);
    }
  }

  /** No lost wake-up. What x has not been told is at most one low watermark old, and the unread
      messages never exceed the high watermark. An active x whose gate is shut, or whose next write would
      shut it, is at the watermark exactly; then a report of more read messages is in flight, or its peer has
      something to read, as long as at most hwm - lwm credential frames were written. */
  lemma NoLostWakeup(hwmX: int, hwmY: int, run: seq<Move>)
    requires NoHiccups(run)
    ensures var p := Exec(PipePair(hwmX, hwmY), run);
            && (p.x.state == Active && !CanWrite(p.x) <==> p.x.state == Active && Full(p.x))
            && (p.x.hwm > 0 && !p.y.freed ==>
              var all := p.xy.chain[0].Complete();
              && Climb(p.x.peersMsgsRead, p.yx.cmds, Floor(p.y.msgsRead, p.y.lwm))
              && p.y.msgsRead < Floor(p.y.msgsRead, p.y.lwm) + p.y.lwm
              && Counted(all) <= p.x.hwm
              && (Full(p.x) && Silent(p.yx.cmds, p.x.peersMsgsRead) && p.xy.skipped + Credentials(all) <= p.x.hwm - p.y.lwm ==>
                    Counted(all) > Credentials(all)))
  {
    hide Exec;
    RunInv(hwmX, hwmY, run);
    var p := Exec(PipePair(hwmX, hwmY), run);
    hide Safe, Delivery, Wakeup, Counted, Credentials, Floor, Climb, PipePair;
    if p.x.hwm > 0 && !p.y.freed {
      CreditBounds(p.x, p.y, p.xy, p.yx.cmds);
    }
  }

  /** The report of more read messages ends the wait: it opens the gate and the next write is accepted. */
  lemma ReportOpensGate(hwmX: int, hwmY: int, run: seq<Move>)
    requires NoHiccups(run)
    requires var p := Exec(PipePair(hwmX, hwmY), run); !p.x.freed && p.x.state == Active && p.yx.cmds != [] && p.yx.cmds[0].ActivateWrite?
    ensures var p := Exec(PipePair(hwmX, hwmY), run);
      var q := StepX(p, OpDeliver);
      q.x.outActive && (CanWrite(q.x) <==> !Full(p.x) || q.x.peersMsgsRead > p.x.peersMsgsRead)
  {
    hide Exec;
    RunInv(hwmX, hwmY, run);
    var p := Exec(PipePair(hwmX, hwmY), run);
    hide Safe, Delivery, Wakeup, Counted, Floor, PipePair;
    GateAfterReport(p.x, p.y, p.xy, p.yx.cmds);
    var v := View(Popped(p));
    assert Deliver(p).x == ProcessActivateWrite(v, p.yx.cmds[0].msgsRead).e;
  }

  lemma GateAfterReport(x: End, y: End, xy: Link, back: seq<Cmd>)
    requires LinkData(x, y, xy, back) && x.state == Active && back != [] && back[0].ActivateWrite?
    ensures back[0].msgsRead >= x.peersMsgsRead
    ensures var x' := x.(peersMsgsRead := back[0].msgsRead, outActive := true);
      CanWrite(x') <==> !Full(x) || x'.peersMsgsRead > x.peersMsgsRead
  {
    ClimbBounds(x.peersMsgsRead, back, Floor(y.msgsRead, y.lwm));
    ClimbBounds(back[0].msgsRead, back[1..], Floor(y.msgsRead, y.lwm));
    hide Floor, Body, Counted, Closed;
  }

  lemma CreditBounds(x: End, y: End, xy: Link, back: seq<Cmd>)
    requires Credit(x, y, xy, back) && x.hwm > 0 && !y.freed
    ensures y.msgsRead < Floor(y.msgsRead, y.lwm) + y.lwm
    ensures Counted(xy.chain[0].Complete()) <= x.hwm
    ensures Full(x) && Silent(back, x.peersMsgsRead) ==>
      xy.skipped + Counted(xy.chain[0].Complete()) > x.hwm - y.lwm
  {
    FloorBounds(y.msgsRead, y.lwm);
    ClimbBounds(x.peersMsgsRead, back, Floor(y.msgsRead, y.lwm));
    hide Floor, Climb, Counted;
  }
}
