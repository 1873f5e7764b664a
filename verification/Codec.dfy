/** The chunked decoder and encoder: drivers that run a machine of steps over a byte stream that comes, or goes,
    in pieces of any size. */
module Codec {
  type Byte = b: nat | b < 256
  type Bytes = seq<Byte>

  // ---- decoding ----

  /** The result of a step: read `need` more bytes before the next step; the same, with a message for the caller;
      or an error. */
  datatype Next<S, M> = Read(state: S, need: nat) | Done(state: S, need: nat, msg: M) | Fail

  /** A step gets the bytes that were stored since the last one. `rank` bounds how many steps in a row need none. */
  datatype Machine<!S, !M> = Machine(step: (S, Bytes) -> Next<S, M>, rank: S -> nat)

  /** Steps that return to the caller leave bytes to read, and steps that need no bytes come to an end. */
  ghost predicate Lawful<S(!new), M(!new)>(m: Machine<S, M>) {
    forall q, got: Bytes ::
      var r := m.step(q, got);
      (r.Read? && r.need == 0 ==> m.rank(r.state) < m.rank(q)) && (r.Done? ==> r.need > 0)
  }

  /** One step that was run, with the bytes it got and what it returned. */
  datatype Event<S, M> = Event(q: S, got: Bytes, result: Next<S, M>)

  /** `got` was stored for the step q, and `need` bytes are missing. `log` is what has happened. A stream is dead
      after an error. */
  datatype Decoder<S, M> = Decoder(dead: bool, q: S, got: Bytes, need: nat, log: seq<Event<S, M>>)

  function Start<S, M>(q: S, need: nat): Decoder<S, M> {
    Decoder(false, q, [], need, [])
  }

  /** Bytes are stored. */
  function Store<S, M>(d: Decoder<S, M>, s: Bytes): Decoder<S, M>
    requires |s| <= d.need
  {
    d.(got := d.got + s, need := d.need - |s|)
  }

  /** Run steps until bytes are needed or the caller is. */
  function Settle<S(!new), M(!new)>(m: Machine<S, M>, d: Decoder<S, M>): (d': Decoder<S, M>)
    requires Lawful(m)
    ensures Ready(d')
    decreases m.rank(d.q)
  {
    var r := m.step(d.q, d.got);
    var log := d.log + [Event(d.q, d.got, r)];
    match r
    case Fail => d.(dead := true, log := log)
    case Done(q, need, _) => Decoder(false, q, [], need, log)
    case Read(q, need) =>
      if need > 0 then Decoder(false, q, [], need, log) else Settle(m, Decoder(false, q, [], 0, log))
  }

  /** The decoder after one step. */
  function Stepped<S, M>(d: Decoder<S, M>, r: Next<S, M>): Decoder<S, M> {
    var log := d.log + [Event(d.q, d.got, r)];
    if r.Fail? then d.(dead := true, log := log) else Decoder(false, r.state, [], r.need, log)
  }

  lemma SettleOnce<S(!new), M(!new)>(m: Machine<S, M>, d: Decoder<S, M>)
    requires Lawful(m)
    ensures var r := m.step(d.q, d.got);
      Settle(m, d) == if r.Read? && r.need == 0 then Settle(m, Stepped(d, r)) else Stepped(d, r)
    ensures var r := m.step(d.q, d.got);
      (r.Read? && r.need == 0 ==> m.rank(r.state) < m.rank(d.q)) && (r.Done? ==> r.need > 0)
  {
  }

  predicate Ready<S, M>(d: Decoder<S, M>) {
    d.dead || d.need > 0
  }

  /** A stream, byte by byte: the reference for the drivers. */
  function Feed<S(!new), M(!new)>(m: Machine<S, M>, d: Decoder<S, M>, s: Bytes): (d': Decoder<S, M>)
    requires Lawful(m) && Ready(d)
    ensures Ready(d')
    decreases |s|
  {
    if s == [] || d.dead then d
    else
      var d1 := Store(d, [s[0]]);
      Feed(m, if d1.need == 0 then Settle(m, d1) else d1, s[1..])
  }

  lemma {:induction false} FeedJoin<S(!new), M(!new)>(m: Machine<S, M>, d: Decoder<S, M>, a: Bytes, b: Bytes)
    requires Lawful(m) && Ready(d)
    ensures Feed(m, d, a + b) == Feed(m, Feed(m, d, a), b)
    decreases |a|
  {
    if a == [] {
      assert a + b == b;
    } else if !d.dead {
      assert (a + b)[1..] == a[1..] + b && (a + b)[0] == a[0];
      var d1 := Store(d, [a[0]]);
      FeedJoin(m, if d1.need == 0 then Settle(m, d1) else d1, a[1..], b);
    }
  }

  /** Bytes that do not complete what the next step needs are stored. */
  lemma {:induction false} FeedStores<S(!new), M(!new)>(m: Machine<S, M>, d: Decoder<S, M>, s: Bytes)
    requires Lawful(m) && !d.dead && |s| < d.need
    ensures Feed(m, d, s) == Store(d, s)
    decreases |s|
  {
    if s == [] {
      assert d.got + s == d.got;
    } else {
      var d1 := Store(d, [s[0]]);
      assert d.got + s == d1.got + s[1..];
      FeedStores(m, d1, s[1..]);
    }
  }

  /** Bytes that just complete it are stored, and the steps are run. */
  lemma FeedCompletes<S(!new), M(!new)>(m: Machine<S, M>, d: Decoder<S, M>, s: Bytes)
    requires Lawful(m) && !d.dead && |s| == d.need > 0
    ensures Feed(m, d, s) == Settle(m, Store(d, s))
  {
    var k := |s| - 1;
    var a, b := s[..k], [s[k]];
    assert s == a + b && d.got + s == (d.got + a) + b;
    FeedStores(m, d, a);
    FeedJoin(m, d, a, b);
    assert b[1..] == [];
    assert Store(Store(d, a), b) == Store(d, s);
  }

  // ---- what the caller gets ----

  /** The messages handed to the caller. */
  function Messages<S, M>(log: seq<Event<S, M>>): seq<M> {
    if log == [] then []
    else
      var e := log[|log| - 1];
      Messages(log[..|log| - 1]) + if e.result.Done? then [e.result.msg] else []
  }

  lemma MessagesNext<S, M>(log: seq<Event<S, M>>, e: Event<S, M>)
    ensures Messages(log + [e]) == Messages(log) + if e.result.Done? then [e.result.msg] else []
  {
    assert (log + [e])[..|log|] == log;
  }

  /** What a return code tells about the way from d to d'. */
  ghost predicate Tells<S, M>(rc: int, d: Decoder<S, M>, d': Decoder<S, M>) {
    && (rc == -1 <==> d'.dead)
    && (rc == 0 || rc == -1 ==> Messages(d'.log) == Messages(d.log))
    && (rc == 1 ==> d'.log != [] && var r := d'.log[|d'.log| - 1].result;
      r.Done? && Messages(d'.log) == Messages(d.log) + [r.msg])
    && -1 <= rc <= 1
  }

  class DecoderBase<S(!new), M(!new)> {
    const m: Machine<S, M>
    const bufsize: nat
    var next: S
    var got: Bytes
    var toRead: nat
    var dead: bool
    var log: seq<Event<S, M>>

    ghost function View(): Decoder<S, M>
      reads this
    {
      Decoder(dead, next, got, toRead, log)
    }

    ghost predicate Valid()
      reads this
    {
      Lawful(m) && Ready(View())
    }

    constructor (m: Machine<S, M>, bufsize: nat, q: S, need: nat)
      requires Lawful(m) && need > 0
      ensures Valid() && View() == Start(q, need) && this.m == m && this.bufsize == bufsize
    {
      this.m, this.bufsize := m, bufsize;
      next, got, toRead, dead, log := q, [], need, false, [];
    }

    /** Where the caller may put data: right where the next step wants it (zero-copy), or in the buffer. */
    method GetBuffer() returns (zeroCopy: bool, size: nat)
      ensures zeroCopy <==> toRead >= bufsize
      ensures size == if zeroCopy then toRead else bufsize
    {
      if toRead >= bufsize {
        return true, toRead;
      }
      return false, bufsize;
    }

    /** Run the machine as long as nothing is to be read. */
    method RunSteps() returns (rc: int)
      requires Lawful(m) && !dead
      modifies this
      ensures View() == if old(toRead) == 0 then Settle(m, old(View())) else old(View())
      ensures Tells(rc, old(View()), View()) && (rc == 0 ==> toRead > 0)
    {
      ghost var d0, d := View(), View();
      hide Settle, Lawful, Messages;
      while toRead == 0
        invariant d == View() && !dead && Messages(log) == Messages(old(log))
        invariant d == d0 || d0.need == 0
        invariant d0.need == 0 ==> Settle(m, d0) == if toRead == 0 then Settle(m, d) else d
        decreases if toRead == 0 then m.rank(next) + 1 else 0
      {
        SettleOnce(m, d);
        var r := m.step(next, got);
        MessagesNext(log, Event(next, got, r));
        log := log + [Event(next, got, r)];
        match r {
          case Fail =>
            dead := true;
            return -1;
          case Done(q, need, _) =>
            next, got, toRead := q, [], need;
            return 1;
          case Read(q, need) =>
            next, got, toRead := q, [], need;
        }
        d := View();
      }
      return 0;
    }

    /** Data that was put where the next step wants it is there already. */
    method DecodeInPlace(data: Bytes) returns (rc: int)
      requires Valid() && !dead && |data| <= toRead
      modifies this
      ensures Valid() && View() == Feed(m, old(View()), data) && Tells(rc, old(View()), View())
    {
      if |data| < toRead {
        FeedStores(m, View(), data);
      } else {
        FeedCompletes(m, View(), data);
      }
      hide Feed, Settle, Lawful;
      got, toRead := got + data, toRead - |data|;
      rc := RunSteps();
    }

    /** Copy some bytes and run the machine if nothing more is to be read. */
    method Copy(data: Bytes, used: nat, toCopy: nat, ghost d0: Decoder<S, M>) returns (rc: int)
      requires Valid() && !dead && Ready(d0) && used + toCopy <= |data| && toCopy <= toRead && View() == Feed(m, d0, data[..used])
      modifies this
      ensures Valid() && View() == Feed(m, d0, data[..used + toCopy]) && Tells(rc, old(View()), View())
    {
      hide Feed, Settle, Lawful, Messages;
      Piece(m, d0, data, used, toCopy);
      got, toRead := got + data[used..used + toCopy], toRead - toCopy;
      rc := RunSteps();
    }

    /** Decode the data up to the end of a message, or all of it. */
    method Decode(data: Bytes, zeroCopy: bool) returns (rc: int, used: nat)
      requires Valid() && !dead && (zeroCopy ==> |data| <= toRead)
      modifies this
      ensures Valid() && used <= |data| && View() == Feed(m, old(View()), data[..used])
      ensures Tells(rc, old(View()), View()) && (rc == 0 || zeroCopy ==> used == |data|) && (rc == 1 && data != [] ==> used > 0)
    {
      used := 0;
      assert data[..0] == [] && data[..|data|] == data;
      if zeroCopy {
        rc := DecodeInPlace(data);
        used := |data|;
        return;
      }
      rc := 0;
      assert View() == Feed(m, View(), []);
      hide Feed, Settle, Lawful, Messages;
      while used < |data|
        invariant used <= |data| && Valid() && !dead && View() == Feed(m, old(View()), data[..used])
        invariant Tells(0, old(View()), View())
      {
        var toCopy := if toRead < |data| - used then toRead else |data| - used;
        rc := Copy(data, used, toCopy, old(View()));
        used := used + toCopy;
        if rc != 0 {
          return;
        }
      }
    }

    /** All pieces of a stream, as the engine passes them on: as much at a time as the buffer takes, until an
        error. Messages are taken out between the calls. */
    method Receive(pieces: seq<Bytes>)
      requires Valid() && bufsize > 0
      modifies this
      ensures Valid() && View() == Feed(m, old(View()), Concat(pieces))
    {
      for i := 0 to |pieces|
        invariant Valid() && View() == Feed(m, old(View()), Concat(pieces[..i]))
      {
        ConcatNext(pieces, i);
        FeedJoin(m, old(View()), Concat(pieces[..i]), pieces[i]);
        ReceivePiece(pieces[i]);
      }
      assert pieces[..|pieces|] == pieces;
    }

    method ReceivePiece(data: Bytes)
      requires Valid() && bufsize > 0
      modifies this
      ensures Valid() && View() == Feed(m, old(View()), data)
    {
      var used := 0;
      ghost var d0 := View();
      assert data[..0] == [] && d0 == Feed(m, d0, []);
      hide Feed, Settle, Lawful;
      while used < |data| && !dead
        invariant used <= |data| && Valid() && View() == Feed(m, d0, data[..used])
        decreases |data| - used
      {
        var zeroCopy, size := GetBuffer();
        var k := if size < |data| - used then size else |data| - used;
        var rc, n := Decode(data[used..used + k], zeroCopy);
        Glue(data, used, k, n);
        FeedJoin(m, d0, data[..used], data[used..used + n]);
        used := used + n;
      }
      FeedRest(m, d0, data, used);
    }
  }

  lemma Glue(data: Bytes, used: nat, k: nat, n: nat)
    requires n <= k && used + k <= |data|
    ensures data[used..used + k][..n] == data[used..used + n] && data[..used + n] == data[..used] + data[used..used + n]
  {
  }

  /** All is used, or the stream is dead. */
  lemma FeedRest<S(!new), M(!new)>(m: Machine<S, M>, d: Decoder<S, M>, data: Bytes, used: nat)
    requires Lawful(m) && Ready(d) && used <= |data| && (used == |data| || Feed(m, d, data[..used]).dead)
    ensures Feed(m, d, data) == Feed(m, d, data[..used])
  {
    assert data == data[..used] + data[used..];
    FeedJoin(m, d, data[..used], data[used..]);
  }

  function Concat(pieces: seq<Bytes>): Bytes {
    if pieces == [] then [] else Concat(pieces[..|pieces| - 1]) + pieces[|pieces| - 1]
  }

  lemma ConcatNext(pieces: seq<Bytes>, i: nat)
    requires i < |pieces|
    ensures Concat(pieces[..i + 1]) == Concat(pieces[..i]) + pieces[i]
  {
    assert pieces[..i + 1][..i] == pieces[..i];
  }

  /** One turn of the copying loop. */
  lemma Piece<S(!new), M(!new)>(m: Machine<S, M>, d0: Decoder<S, M>, data: Bytes, used: nat, toCopy: nat)
    requires Lawful(m) && Ready(d0) && used + toCopy <= |data|
    requires var d := Feed(m, d0, data[..used]); !d.dead && toCopy <= d.need
    ensures var d, s := Feed(m, d0, data[..used]), data[used..used + toCopy];
      Feed(m, d0, data[..used + toCopy]) == if toCopy == d.need then Settle(m, Store(d, s)) else Store(d, s)
  {
    var d, s := Feed(m, d0, data[..used]), data[used..used + toCopy];
    assert data[..used + toCopy] == data[..used] + s;
    FeedJoin(m, d0, data[..used], s);
    if toCopy == d.need {
      FeedCompletes(m, d, s);
    } else {
      FeedStores(m, d, s);
    }
  }

  /** Fragmentation does not matter: streams with the same bytes lead to the same steps, the same stored bytes and
      the same messages, however they are cut. */
  lemma FragmentationIndependence<S(!new), M(!new)>(m: Machine<S, M>, d: Decoder<S, M>, a: seq<Bytes>, b: seq<Bytes>)
    requires Lawful(m) && Ready(d) && Concat(a) == Concat(b)
    ensures FeedAll(m, d, a) == FeedAll(m, d, b)
  {
    FeedAllIs(m, d, a);
    FeedAllIs(m, d, b);
  }

  function FeedAll<S(!new), M(!new)>(m: Machine<S, M>, d: Decoder<S, M>, pieces: seq<Bytes>): (d': Decoder<S, M>)
    requires Lawful(m) && Ready(d)
    ensures Ready(d')
  {
    if pieces == [] then d else Feed(m, FeedAll(m, d, pieces[..|pieces| - 1]), pieces[|pieces| - 1])
  }

  lemma {:induction false} FeedAllIs<S(!new), M(!new)>(m: Machine<S, M>, d: Decoder<S, M>, pieces: seq<Bytes>)
    requires Lawful(m) && Ready(d)
    ensures FeedAll(m, d, pieces) == Feed(m, d, Concat(pieces))
  {
    if pieces != [] {
      var k := |pieces| - 1;
      FeedAllIs(m, d, pieces[..k]);
      FeedJoin(m, d, Concat(pieces[..k]), pieces[k]);
    }
  }
}
