/** The single-reader single-writer queue that carries commands and messages.

    `Queue` is the abstract value of such a queue; `YPipe` is the pointer-level
    object, whose every operation is proved to act on the abstract value. */
module YPipes {

  datatype Option<+T> = None | Some(value: T)

  /** `ready` is visible to the reader, `pending` is complete but not yet flushed,
      `partial` is the unfinished tail that `unwrite` may still take back. */
  datatype Queue<T> = Queue(ready: seq<T>, pending: seq<T>, partial: seq<T>, asleep: bool) {

    function Write(x: T, incomplete: bool): Queue<T> {
      if incomplete then this.(partial := partial + [x])
      else this.(pending := pending + (partial + [x]), partial := [])
    }

    function DropPartial(): Queue<T> {
      this.(partial := [])
    }

    /** Publishing wakes a sleeping reader; with nothing to publish the sleep goes on. */
    function Flush(): Queue<T> {
      if pending == [] then this
      else this.(ready := ready + pending, pending := [], asleep := false)
    }

    /** The answer of `flush`: false exactly when a sleeping reader has to be woken. */
    predicate FlushAnswer() {
      pending == [] || !asleep
    }

    /** A failed probe puts the reader to sleep. */
    function Probe(): Queue<T> {
      if ready == [] then this.(asleep := true) else this
    }

    function Pop(): Queue<T>
      requires ready != []
    {
      this.(ready := ready[1..])
    }

    /** Everything complete that the reader has not taken yet. */
    function Complete(): seq<T> {
      ready + pending
    }
  }

  function EmptyQueue<T>(): Queue<T> {
    Queue([], [], [], false)
  }

  /** Cutting off the last item leaves the earlier parts of a queue alone. */
  lemma Shorten<T>(s: seq<T>, n: nat, i: nat, j: nat)
    requires i <= j <= n <= |s|
    ensures s[..n][..i] == s[..i] && s[..n][i..j] == s[i..j] && s[..n][j..] == s[j..n] == s[j..][..n - j]
  {
  }

  /** The abstract value of a buffer cut at `i` and `j`. */
  function Cut<T>(s: seq<T>, i: nat, j: nat, asleep: bool): Queue<T>
    requires i <= j <= |s|
  {
    Queue(s[..i], s[i..j], s[j..], asleep)
  }

  lemma CutWrite<T>(s: seq<T>, x: T, i: nat, j: nat, asleep: bool)
    requires i <= j <= |s|
    ensures Cut(s + [x], i, j, asleep) == Cut(s, i, j, asleep).Write(x, true)
    ensures Cut(s + [x], i, |s| + 1, asleep) == Cut(s, i, j, asleep).Write(x, false)
  {
    var t := s + [x];
    assert t[..i] == s[..i];
    assert t[i..j] == s[i..j] && t[j..] == s[j..] + [x];
    assert t[i..|t|] == t[i..j] + t[j..];
  }

  /** Positions are absolute: `front` is the next item to read, `w` the first unflushed item,
      `f` the first item not to be flushed yet, `r` the first item not prefetched,
      and `c` the shared pointer, empty while the reader sleeps. */
  class YPipe<T(==)> {
    var queue: seq<T>
    var front: nat
    var r: Option<nat>
    var w: nat
    var f: nat
    var c: Option<nat>

    ghost predicate Valid()
      reads this
    {
      && front <= w <= f <= front + |queue|
      && (r.Some? ==> front <= r.value <= w)
      && (c.Some? ==> c.value == w)
      && (c.None? ==> front == w)
    }

    ghost function Value(): Queue<T>
      reads this
      requires Valid()
    {
      Cut(queue, w - front, f - front, c.None?)
    }

    constructor ()
      ensures Valid() && Value() == EmptyQueue()
    {
      queue, front, w, f := [], 0, 0, 0;
      r, c := Some(0), Some(0);
    }

    method Write(x: T, incomplete: bool)
      requires Valid()
      modifies this
      ensures Valid() && Value() == old(Value()).Write(x, incomplete)
    {
      ghost var all := queue;
      queue := queue + [x];
      CutWrite(all, x, w - front, f - front, c.None?);
      hide Queue<T>.Write;
      if !incomplete {
        f := front + |queue|;
      }
    }

    method Unwrite() returns (x: Option<T>)
      requires Valid()
      modifies this
      ensures Valid()
      ensures x.None? <==> old(Value()).partial == []
      ensures x.None? ==> Value() == old(Value())
      ensures x.Some? ==>
        var was := old(Value());
        var n := |was.partial| - 1;
        x.value == was.partial[n] && Value() == was.(partial := was.partial[..n])
    {
      if f == front + |queue| {
        return None;
      }
      ghost var all := queue;
      var n := |queue| - 1;
      x := Some(queue[n]);
      queue := queue[..n];
      Shorten(all, n, w - front, f - front);
    }

    method Flush() returns (awake: bool)
      requires Valid()
      modifies this
      ensures Valid() && Value() == old(Value()).Flush()
      ensures awake == old(Value()).FlushAnswer()
    {
      if w == f {
        return true;
      }
      // compare-and-swap of c from w to f; it fails only on an empty c
      awake := c == Some(w);
      c := Some(f);
      w := f;
    }

    method CheckRead() returns (ok: bool)
      requires Valid()
      modifies this
      ensures Valid() && Value() == old(Value()).Probe()
      ensures ok <==> Value().ready != []
      ensures queue == old(queue) && front == old(front)
      ensures ok ==> |queue| > 0 && queue[0] == Value().ready[0] && r.Some? && front < r.value
    {
      if r.Some? && r.value != front {
        return true;
      }
      // compare-and-swap of c from front to empty, keeping what c held
      r := c;
      if c == Some(front) {
        c := None;
      }
      ok := r.Some? && r.value != front;
    }

    method Read() returns (x: Option<T>)
      requires Valid()
      modifies this
      ensures Valid()
      ensures x.Some? <==> old(Value()).ready != []
      ensures x.None? ==> Value() == old(Value()).Probe()
      ensures x.Some? ==> x.value == old(Value()).ready[0] && Value() == old(Value()).Pop()
    {
      var ok := CheckRead();
      if !ok {
        return None;
      }
      x := Some(queue[0]);
      queue, front := queue[1..], front + 1;
    }
  }
}
