/** The pipe end as the program has it: an object whose methods update fields and queues in place.
    Every method is proved to act on the end's view exactly as the handlers of `PipeProtocol` do. */
module PipeObject {
  import opened YPipes
  import P = PipeProtocol

  /** One turn of the read loop. */
  lemma Unroll(v: P.Ep)
    ensures v.inq.ready == [] ==> P.ReadLoop(v) == (P.Sleep(v), None)
    ensures v.inq.ready != [] ==>
      var m := v.inq.ready[0];
      P.ReadLoop(v) ==
        if m.Delimiter? then (P.ProcessDelimiter(v.(inq := v.inq.Pop())), None)
        else if m.credential then P.ReadLoop(P.SkipCredential(v))
        else (P.Take(v), Some(m))
  {
    hide P.Take, P.ProcessDelimiter;
  }

  class Pipe {
    var inpipe: Queue<P.Item>
    var outpipe: Queue<P.Item>
    var hasOut: bool           // the outbound pointer is not null
    var inActive: bool
    var outActive: bool
    var hwm: int
    var lwm: int
    var msgsRead: nat
    var msgsWritten: int
    var peersMsgsRead: nat
    var state: P.State
    var delay: bool
    var freed: bool
    var aborted: bool          // an assertion of the program failed
    var sent: seq<P.Cmd>       // the commands posted to the peer's mailbox

    ghost var selfTerm: bool
    ghost var sawDelim: bool
    ghost var got: seq<P.Item>
    ghost var skipped: nat
    ghost var wrote: seq<P.Item>

    ghost function View(): P.Ep
      reads this
    {
      P.Ep(P.End(state, freed, aborted, selfTerm, sawDelim, delay, inActive, outActive, hasOut,
                 hwm, lwm, msgsRead, msgsWritten, peersMsgsRead),
           inpipe, outpipe, got, skipped, wrote, sent)
    }

    constructor (inHwm: int, outHwm: int)
      ensures View() == P.Ep(P.InitEnd(inHwm, outHwm), EmptyQueue(), EmptyQueue(), [], 0, [], [])
    {
      inpipe, outpipe, hasOut := EmptyQueue(), EmptyQueue(), true;
      inActive, outActive := true, true;
      hwm, lwm := outHwm, P.ComputeLwm(inHwm);
      msgsRead, msgsWritten, peersMsgsRead := 0, 0, 0;
      state, delay, freed, aborted := P.Active, true, false, false;
      sent, selfTerm, sawDelim, got, skipped, wrote := [], false, false, [], 0, [];
    }

    method SendPipeTermAck()
      modifies this`hasOut, this`sent
      ensures View() == P.SendAck(old(View()))
    {
      hasOut := false;
      sent := sent + [P.PipeTermAck];
    }

    method ProcessDelimiter()
      modifies this`state, this`hasOut, this`sent, this`aborted, this`sawDelim
      ensures View() == P.ProcessDelimiter(old(View()))
    {
      sawDelim := true;
      if state != P.Active && state != P.WaitingForDelimiter {
        aborted := true;
        return;
      }
      if state == P.Active {
        state := P.DelimiterReceived;
      } else {
        SendPipeTermAck();
        state := P.TermAckSent;
      }
    }

    method CheckRead() returns (ok: bool)
      modifies this
      ensures (View(), ok) == P.CheckRead(old(View()))
    {
      if !inActive || (state != P.Active && state != P.WaitingForDelimiter) {
        return false;
      }
      if inpipe.ready == [] {
        inpipe := inpipe.Probe();
        inActive := false;
        return false;
      }
      if inpipe.ready[0].Delimiter? {
        inpipe := inpipe.Pop();
        ProcessDelimiter();
        return false;
      }
      return true;
    }

    method Read() returns (m: Option<P.Item>)
      modifies this
      ensures (View(), m) == P.Read(old(View()))
    {
      if !inActive || (state != P.Active && state != P.WaitingForDelimiter) {
        return None;
      }
      hide P.ReadLoop, P.Take, P.ProcessDelimiter;
      while inpipe.ready != [] && inpipe.ready[0].Item? && inpipe.ready[0].credential
        invariant P.ReadLoop(View()) == P.ReadLoop(old(View()))
        decreases |inpipe.ready|
      {
        Unroll(View());
        skipped := skipped + if P.Counts(inpipe.ready[0]) then 1 else 0;
        inpipe := inpipe.Pop();
      }
      Unroll(View());
      if inpipe.ready == [] {
        inpipe := inpipe.Probe();
        inActive := false;
        return None;
      }
      if inpipe.ready[0].Delimiter? {
        inpipe := inpipe.Pop();
        ProcessDelimiter();
        return None;
      }
      var taken := Take();
      return Some(taken);
    }

    /** Hand over the next message, count it and report at the low watermark. */
    method Take() returns (m: P.Item)
      requires inpipe.ready != [] && inpipe.ready[0].Item?
      modifies this`inpipe, this`got, this`msgsRead, this`sent
      ensures m == old(inpipe).ready[0] && View() == P.Take(old(View()))
    {
      m := inpipe.ready[0];
      inpipe := inpipe.Pop();
      got := got + [m];
      if !m.more && !m.identity {
        msgsRead := msgsRead + 1;
      }
      if lwm > 0 && msgsRead % lwm == 0 {
        sent := sent + [P.ActivateWrite(msgsRead)];
      }
    }

    method CheckWrite() returns (ok: bool)
      modifies this`outActive
      ensures View() == P.CheckWrite(old(View())) && ok == P.CanWrite(old(View()).e)
    {
      if !outActive || state != P.Active {
        return false;
      }
      if hwm > 0 && msgsWritten - peersMsgsRead == hwm {
        outActive := false;
        return false;
      }
      return true;
    }

    method Write(m: P.Item) returns (ok: bool)
      requires m.Item?
      modifies this`outActive, this`msgsWritten, this`wrote, this`outpipe
      ensures View() == P.Write(old(View()), m) && ok == P.CanWrite(old(View()).e)
    {
      ok := CheckWrite();
      if !ok {
        return;
      }
      wrote := if m.more then wrote else wrote + (outpipe.partial + [m]);
      outpipe := outpipe.Write(m, m.more);
      if !m.more && !m.identity {
        msgsWritten := msgsWritten + 1;
      }
    }

    method Rollback()
      modifies this`aborted, this`outpipe
      ensures View() == P.Rollback(old(View()))
    {
      if !hasOut {
        return;
      }
      ghost var part := outpipe.partial;
      while outpipe.partial != []
        invariant |outpipe.partial| <= |part| && outpipe == old(outpipe).(partial := part[..|outpipe.partial|])
        invariant aborted == (old(aborted) || !P.AllMore(part[|outpipe.partial|..]))
        decreases |outpipe.partial|
      {
        var n := |outpipe.partial| - 1;
        var m := outpipe.partial[n];
        assert part[n..] == [m] + part[n + 1..];
        outpipe := outpipe.(partial := outpipe.partial[..n]);
        if !(m.Item? && m.more) {
          aborted := true;
        }
      }
      assert part[0..] == part;
    }

    method Flush()
      modifies this`sent, this`outpipe
      ensures View() == P.Flush(old(View()))
    {
      if state == P.TermAckSent {
        return;
      }
      if hasOut {
        var awake := outpipe.FlushAnswer();
        outpipe := outpipe.Flush();
        if !awake {
          sent := sent + [P.ActivateRead];
        }
      }
    }

    method SetNodelay()
      modifies this`delay
      ensures View() == old(View()).(e := old(View()).e.(delay := false))
    {
      delay := false;
    }

    method Terminate(d: bool)
      modifies this`delay, this`selfTerm, this`state, this`sent, this`hasOut, this`outActive, this`aborted, this`outpipe
      ensures View() == P.Terminate(old(View()), d)
    {
      delay, selfTerm := d, true;
      if state == P.TermReqSent1 || state == P.TermReqSent2 || state == P.TermAckSent {
        return;
      }
      hide P.CloseOut;
      Ask();
      CloseOut();
    }

    /** Ask the peer to terminate, or acknowledge at once if the peer has asked already. */
    method Ask()
      modifies this`state, this`sent, this`hasOut, this`outActive
      ensures View() == P.Ask(old(View()))
    {
      if state == P.WaitingForDelimiter {
        if !delay {
          SendPipeTermAck();
          state := P.TermAckSent;
        }
      } else {
        sent := sent + [P.PipeTerm];
        state := P.TermReqSent1;
      }
      outActive := false;
    }

    /** Drop the unfinished message, write the delimiter past any watermark, and flush. */
    method CloseOut()
      modifies this`sent, this`aborted, this`outpipe
      ensures View() == P.CloseOut(old(View()))
    {
      if hasOut {
        Rollback();
        outpipe := outpipe.Write(P.Delimiter, false);
        Flush();
      }
    }

    method ProcessActivateRead()
      modifies this`inActive
      ensures View() == P.ProcessActivateRead(old(View()))
    {
      if !inActive && (state == P.Active || state == P.WaitingForDelimiter) {
        inActive := true;
      }
    }

    method ProcessActivateWrite(n: nat)
      modifies this`peersMsgsRead, this`outActive
      ensures View() == P.ProcessActivateWrite(old(View()), n)
    {
      peersMsgsRead := n;
      if !outActive && state == P.Active {
        outActive := true;
      }
    }

    method ProcessPipeTerm()
      modifies this`state, this`sent, this`hasOut, this`aborted
      ensures View() == P.ProcessPipeTerm(old(View()))
    {
      hide P.SendAck;
      if state == P.Active {
        if delay {
          state := P.WaitingForDelimiter;
        } else {
          state := P.TermAckSent;
          SendPipeTermAck();
        }
      } else if state == P.DelimiterReceived {
        state := P.TermAckSent;
        SendPipeTermAck();
      } else if state == P.TermReqSent1 {
        state := P.TermReqSent2;
        SendPipeTermAck();
      } else {
        aborted := true;
      }
    }

    method ProcessPipeTermAck()
      modifies this`sent, this`hasOut, this`aborted, this`freed, this`inpipe
      ensures View() == P.ProcessPipeTermAck(old(View()))
    {
      if state == P.TermReqSent1 {
        SendPipeTermAck();
      } else if state != P.TermAckSent && state != P.TermReqSent2 {
        aborted := true;
      }
      DropUnread();
      freed := true;
    }

    method DropUnread()
      modifies this`inpipe
      ensures inpipe == old(inpipe).(ready := [], asleep := true)
    {
      while inpipe.ready != []
        invariant inpipe == old(inpipe).(ready := inpipe.ready)
        decreases |inpipe.ready|
      {
        inpipe := inpipe.Pop();
      }
      inpipe := inpipe.Probe();
    }

    /** Drain the old outbound queue and plug in the one the peer created. */
    method ProcessHiccup(created: Queue<P.Item>)
      modifies this`outpipe, this`outActive, this`msgsWritten, this`aborted
      ensures View() == P.ProcessHiccup(old(View()), created)
    {
      if !hasOut {
        aborted := true;
        return;
      }
      outpipe := outpipe.Flush();
      assert outpipe.ready == old(outpipe).Complete();
      while outpipe.ready != []
        invariant aborted == old(aborted) && outActive == old(outActive)
        invariant msgsWritten - P.NonMore(outpipe.ready) == old(msgsWritten) - P.NonMore(old(outpipe).Complete())
        decreases |outpipe.ready|
      {
        var m := outpipe.ready[0];
        outpipe := outpipe.Pop();
        if !(m.Item? && m.more) {
          msgsWritten := msgsWritten - 1;
        }
      }
      outpipe := created;
      outActive := true;
    }

    /** Abandon the inbound queue and tell the peer about its successor. */
    method Hiccup()
      modifies this`inpipe, this`inActive, this`sent
      ensures old(state) != P.Active ==> View() == old(View())
      ensures old(state) == P.Active ==>
        View() == old(View()).(inq := EmptyQueue(), cmds := old(sent) + [P.Hiccup], e := old(View()).e.(inActive := true))
    {
      if state != P.Active {
        return;
      }
      inpipe := EmptyQueue();
      inActive := true;
      sent := sent + [P.Hiccup];
    }
  }
}
