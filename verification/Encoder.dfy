/** The chunked encoder: a machine of steps provides the chunks of a message, and they are handed out in batches of
    any size. */
module Encoding {
  import opened YPipes
  import opened Codec

  /** What a step schedules: bytes to write, the step after them, and whether the message ends with them. */
  datatype Chunk<S> = Chunk(bytes: Bytes, next: S, last: bool)

  datatype Steps<!S, !M> = Steps(step: (S, M) -> Chunk<S>, rank: S -> nat)

  /** Every message comes to an end. */
  ghost predicate Ends<S(!new), M(!new)>(m: Steps<S, M>) {
    forall q, msg: M :: var c := m.step(q, msg); !c.last ==> m.rank(c.next) < m.rank(q)
  }

  /** The bytes of a message, from the step q on: its chunks, one after the other. */
  function Rest<S(!new), M(!new)>(m: Steps<S, M>, q: S, msg: M): Bytes
    requires Ends(m)
    decreases m.rank(q)
  {
    var c := m.step(q, msg);
    c.bytes + if c.last then [] else Rest(m, c.next, msg)
  }

  /** The step that starts the next message. */
  function After<S(!new), M(!new)>(m: Steps<S, M>, q: S, msg: M): S
    requires Ends(m)
    decreases m.rank(q)
  {
    var c := m.step(q, msg);
    if c.last then c.next else After(m, c.next, msg)
  }

  /** `pending` is what is left of the current chunk. */
  datatype Encoder<S, M> = Encoder(msg: Option<M>, pending: Bytes, next: S, last: bool)

  /** The bytes of the message in progress that have not been handed out. */
  function Remaining<S(!new), M(!new)>(m: Steps<S, M>, e: Encoder<S, M>): Bytes
    requires Ends(m)
  {
    if e.msg.None? then [] else e.pending + if e.last then [] else Rest(m, e.next, e.msg.value)
  }

  function Upcoming<S(!new), M(!new)>(m: Steps<S, M>, e: Encoder<S, M>): S
    requires Ends(m)
  {
    if e.msg.None? || e.last then e.next else After(m, e.next, e.msg.value)
  }

  /** Between messages nothing is pending. */
  predicate Idle<S, M>(e: Encoder<S, M>) {
    e.msg.None? ==> e.pending == [] && e.last
  }

  /** The next step is run. */
  function Refill<S, M>(m: Steps<S, M>, e: Encoder<S, M>): Encoder<S, M>
    requires e.msg.Some?
  {
    var c := m.step(e.next, e.msg.value);
    e.(pending := c.bytes, next := c.next, last := c.last)
  }

  lemma RefillKeeps<S(!new), M(!new)>(m: Steps<S, M>, e: Encoder<S, M>)
    requires Ends(m) && e.msg.Some? && e.pending == [] && !e.last
    ensures var e' := Refill(m, e);
      && Remaining(m, e') == Remaining(m, e) && Upcoming(m, e') == Upcoming(m, e)
      && (!e'.last ==> m.rank(e'.next) < m.rank(e.next))
  {
  }

  lemma HandOut<S(!new), M(!new)>(m: Steps<S, M>, e: Encoder<S, M>, batch: Bytes, k: nat)
    requires Ends(m) && e.msg.Some? && k <= |e.pending|
    ensures var e' := e.(pending := e.pending[k..]);
      && (batch + e.pending[..k]) + Remaining(m, e') == batch + Remaining(m, e)
      && Upcoming(m, e') == Upcoming(m, e)
  {
    hide Rest, After;
    assert e.pending == e.pending[..k] + e.pending[k..];
  }

  lemma NothingLeft<S(!new), M(!new)>(m: Steps<S, M>, e: Encoder<S, M>)
    requires Ends(m) && e.msg.Some? && e.pending == [] && e.last
    ensures Remaining(m, e) == Remaining(m, e.(msg := None)) == [] && Upcoming(m, e) == Upcoming(m, e.(msg := None))
  {
  }

  class EncoderBase<S(!new), M(!new)> {
    const m: Steps<S, M>
    const bufsize: nat
    var inProgress: Option<M>
    var pending: Bytes
    var next: S
    var last: bool

    ghost function View(): Encoder<S, M>
      reads this
    {
      Encoder(inProgress, pending, next, last)
    }

    ghost predicate Valid()
      reads this
    {
      Ends(m) && bufsize > 0 && Idle(View())
    }

    constructor (m: Steps<S, M>, bufsize: nat, q: S)
      requires Ends(m) && bufsize > 0
      ensures Valid() && View() == Encoder(None, [], q, true) && this.m == m
    {
      this.m, this.bufsize := m, bufsize;
      inProgress, pending, next, last := None, [], q, true;
    }

    method LoadMsg(msg: M)
      requires Valid() && inProgress.None?
      modifies this
      ensures Valid() && inProgress == Some(msg)
      ensures Remaining(m, View()) == Rest(m, old(next), msg) && Upcoming(m, View()) == After(m, old(next), msg)
    {
      inProgress := Some(msg);
      var c := m.step(next, msg);
      pending, next, last := c.bytes, c.next, c.last;
    }

    /** Hand out a batch: into the caller's buffer of the given size, or into an own one; from an own one the rest of
        a large chunk is handed out where it is. */
    method Encode(size: Option<nat>) returns (batch: Bytes)
      requires Valid() && (size.Some? ==> size.value > 0)
      modifies this
      ensures Valid() && batch + Remaining(m, View()) == Remaining(m, old(View())) && Upcoming(m, View()) == Upcoming(m, old(View()))
      ensures inProgress == None || inProgress == old(inProgress)
      ensures |batch| < (if size.Some? then size.value else bufsize) ==> inProgress.None?
      ensures size.Some? ==> |batch| <= size.value
    {
      var buffersize := if size.Some? then size.value else bufsize;
      batch := [];
      if inProgress.None? {
        return;
      }
      ghost var all, end := Remaining(m, View()), Upcoming(m, View());
      hide Remaining, Upcoming, Rest, After, Ends;
      while |batch| < buffersize
        invariant Valid() && inProgress == old(inProgress) && inProgress.Some? && |batch| <= buffersize
        invariant batch + Remaining(m, View()) == all && Upcoming(m, View()) == end
        decreases if last then 0 else m.rank(next) + 1, |pending|
      {
        if pending == [] {
          if last {
            NothingLeft(m, View());
            inProgress := None;
            break;
          }
          RefillKeeps(m, View());
          var c := m.step(next, inProgress.value);
          pending, next, last := c.bytes, c.next, c.last;
        }
        if batch == [] && size.None? && |pending| >= buffersize {
          HandOut(m, View(), batch, |pending|);
          assert pending[|pending|..] == [] && batch + pending[..|pending|] == pending;
          batch := pending;
          pending := [];
          return;
        }
        var toCopy := if |pending| < buffersize - |batch| then |pending| else buffersize - |batch|;
        HandOut(m, View(), batch, toCopy);
        batch := batch + pending[..toCopy];
        pending := pending[toCopy..];
      }
    }

    /** Hand out the message in progress in batches; `sizes` are those of the buffers from the i-th one on. */
    method Drain(sizes: nat -> Option<nat>, i: nat) returns (batches: seq<Bytes>)
      requires Valid() && forall j :: sizes(j).Some? ==> sizes(j).value > 0
      modifies this
      ensures Valid() && inProgress.None? && next == Upcoming(m, old(View()))
      ensures Concat(batches) == Remaining(m, old(View()))
    {
      batches := [];
      ghost var all, end := Remaining(m, View()), Upcoming(m, View());
      while inProgress.Some?
        invariant Valid() && Concat(batches) + Remaining(m, View()) == all && Upcoming(m, View()) == end
        decreases |Remaining(m, View())|, if inProgress.Some? then 1 else 0
      {
        ghost var before := Remaining(m, View());
        var batch := Encode(sizes(i + |batches|));
        JoinBatch(batches, batch, before, Remaining(m, View()));
        batches := batches + [batch];
      }
    }

    /** Encode messages one after the other. */
    method Transmit(msgs: seq<M>, sizes: nat -> Option<nat>) returns (batches: seq<Bytes>)
      requires Valid() && inProgress.None? && forall j :: sizes(j).Some? ==> sizes(j).value > 0
      modifies this
      ensures Valid() && inProgress.None? && Concat(batches) == Stream(m, old(next), msgs)
    {
      batches := [];
      ghost var all := Stream(m, next, msgs);
      assert msgs[0..] == msgs && Stream(m, next, []) == [];
      for i := 0 to |msgs|
        invariant Valid() && inProgress.None? && Concat(batches) + Stream(m, next, msgs[i..]) == all
      {
        batches := TransmitOne(msgs[i], sizes, batches, msgs[i..]);
        assert msgs[i..][1..] == msgs[i + 1..];
      }
    }

    method TransmitOne(msg: M, sizes: nat -> Option<nat>, batches: seq<Bytes>, ghost msgs: seq<M>) returns (batches': seq<Bytes>)
      requires Valid() && inProgress.None? && msgs != [] && msgs[0] == msg && forall j :: sizes(j).Some? ==> sizes(j).value > 0
      modifies this
      ensures Valid() && inProgress.None?
      ensures Concat(batches') + Stream(m, next, msgs[1..]) == Concat(batches) + Stream(m, old(next), msgs)
    {
      assert Stream(m, next, msgs) == Rest(m, next, msg) + Stream(m, After(m, next, msg), msgs[1..]);
      hide Stream, Remaining, Upcoming, Rest, After, Ends, Concat;
      LoadMsg(msg);
      var more := Drain(sizes, |batches|);
      ConcatJoin(batches, more);
      batches' := batches + more;
    }
  }

  /** The bytes of messages one after the other. */
  function Stream<S(!new), M(!new)>(m: Steps<S, M>, q: S, msgs: seq<M>): Bytes
    requires Ends(m)
    decreases |msgs|
  {
    if msgs == [] then [] else Rest(m, q, msgs[0]) + Stream(m, After(m, q, msgs[0]), msgs[1..])
  }

  lemma JoinBatch(batches: seq<Bytes>, batch: Bytes, before: Bytes, after: Bytes)
    requires batch + after == before
    ensures Concat(batches + [batch]) + after == Concat(batches) + before
  {
    assert (batches + [batch])[..|batches|] == batches;
  }

  lemma {:induction false} ConcatJoin(a: seq<Bytes>, b: seq<Bytes>)
    ensures Concat(a + b) == Concat(a) + Concat(b)
  {
    if b == [] {
      assert a + b == a;
    } else {
      var k := |b| - 1;
      assert (a + b)[..|a| + k] == a + b[..k];
      ConcatJoin(a, b[..k]);
    }
  }
}
