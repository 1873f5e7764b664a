/** The mailbox: many senders, one receiver, and a signal to wake it.

    `Mail` is a state machine whose every step is one access to a shared variable, so that all
    interleavings of sending threads with the receiver are covered; `Mailbox` is the object. */
module Mailboxes {
  import opened YPipes

  /** Where the sender that holds the lock is: it has the lock, it has written its command, it has
      found the shared pointer empty, or it has flushed with the given answer. */
  datatype Critical = Free | Locked | Wrote | CasFailed | Flushed(awake: bool)

  /** Where the receiver is: outside recv, waiting for a signal, or just woken and about to read. */
  datatype Receiver = Outside | Waiting | Woken

  /** `log` holds every command in the order of the lock; positions count from its start.
      `owing` counts the senders that have left the lock and still have to signal. */
  datatype Mail<T> = Mail(
    log: seq<T>, front: nat, r: Option<nat>, w: nat, f: nat, c: Option<nat>,
    crit: Critical, owing: nat, signals: nat,
    active: bool, recv: Receiver, received: seq<T>, failed: bool)

  datatype Step<T> =
    | Lock | Write(cmd: T) | Cas | Set | Unlock | Signal
    | Recv | Timeout | TakeSignal | ReadWoken

  function Init<T>(): Mail<T> {
    Mail([], 0, Some(0), 0, 0, None, Free, 0, 0, false, Outside, [], false)
  }

  predicate Enabled<T>(m: Mail<T>, s: Step<T>) {
    match s
    case Lock => m.crit == Free
    case Write(_) => m.crit == Locked
    case Cas => m.crit == Wrote
    case Set => m.crit == CasFailed
    case Unlock => m.crit.Flushed?
    case Signal => m.owing > 0
    case Recv => m.recv == Outside
    case Timeout => m.recv == Waiting
    case TakeSignal => m.recv == Waiting && m.signals > 0
    case ReadWoken => m.recv == Woken
  }

  /** The reader looks for a command: the local prefetch first, then one atomic exchange on c. */
  function Prefetch<T>(m: Mail<T>): Mail<T> {
    if m.r.Some? && m.r.value != m.front then m
    else m.(r := m.c, c := if m.c == Some(m.front) then None else m.c)
  }

  predicate Fetched<T>(m: Mail<T>) {
    m.r.Some? && m.r.value != m.front && m.front < |m.log|
  }

  function Pop<T>(m: Mail<T>): Mail<T>
    requires m.front < |m.log|
  {
    m.(received := m.received + [m.log[m.front]], front := m.front + 1)
  }

  function Next<T>(m: Mail<T>, s: Step<T>): Mail<T>
    requires Enabled(m, s)
  {
    match s
    case Lock => m.(crit := Locked)
    case Write(x) => m.(log := m.log + [x], f := |m.log| + 1, crit := Wrote)
    case Cas =>
      if m.w == m.f then m.(crit := Flushed(true))
      else if m.c == Some(m.w) then m.(c := Some(m.f), w := m.f, crit := Flushed(true))
      else m.(crit := CasFailed)
    case Set => m.(c := Some(m.f), w := m.f, crit := Flushed(false))
    case Unlock => m.(crit := Free, owing := m.owing + if m.crit.awake then 0 else 1)
    case Signal => m.(owing := m.owing - 1, signals := m.signals + 1)
    case Recv =>
      if !m.active then m.(recv := Waiting)
      else
        var p := Prefetch(m);
        if Fetched(p) then Pop(p) else p.(active := false, recv := Waiting)
    case Timeout => m.(recv := Outside)
    case TakeSignal => m.(signals := m.signals - 1, active := true, recv := Woken)
    case ReadWoken =>
      var p := Prefetch(m).(recv := Outside);
      if Fetched(p) then Pop(p) else p.(failed := true)
  }

  /** Signals sent or bound to be sent. */
  function Tokens<T>(m: Mail<T>): nat {
    m.signals + m.owing + if m.crit == Flushed(false) then 1 else 0
  }

  ghost predicate Inv<T>(m: Mail<T>) {
    && m.front <= m.w <= m.f == |m.log|
    && !m.failed && m.received == m.log[..m.front]
    && (m.crit == Wrote || m.crit == CasFailed ==> m.w + 1 == m.f)
    && (m.crit != Wrote && m.crit != CasFailed ==> m.w == m.f)
    && (m.crit == CasFailed ==> m.c.None?)
    && (m.r.Some? ==> m.front <= m.r.value <= m.w)
    && (m.c.Some? ==> m.c.value == m.w) && (m.c.None? ==> m.front == m.w)
    && (m.recv == Woken ==> m.active && m.front < m.w)
    && (m.recv == Waiting ==> !m.active)
    && (m.active ==> m.c.Some? && Tokens(m) == 0)
    && (!m.active && m.c.None? ==> Tokens(m) == 0)
    && (!m.active && m.c.Some? ==> Tokens(m) == 1 && m.front < m.w)
  }

  lemma SenderInv<T>(m: Mail<T>, s: Step<T>)
    requires Inv(m) && Enabled(m, s) && (s == Lock || s.Write? || s == Cas || s == Set || s == Unlock || s == Signal)
    ensures Inv(Next(m, s))
  {
    if s.Write? {
      assert (m.log + [s.cmd])[..m.front] == m.log[..m.front];
    }
  }

  lemma PopInv<T>(m: Mail<T>)
    requires m.front < |m.log| && m.received == m.log[..m.front]
    ensures Pop(m).received == m.log[..m.front + 1]
  {
    assert m.log[..m.front + 1] == m.log[..m.front] + [m.log[m.front]];
  }

  lemma ReceiverInv<T>(m: Mail<T>, s: Step<T>)
    requires Inv(m) && Enabled(m, s) && (s == Recv || s == Timeout || s == TakeSignal || s == ReadWoken)
    ensures Inv(Next(m, s))
  {
    if s == Recv && m.active && Fetched(Prefetch(m)) {
      PopInv(Prefetch(m));
    } else if s == ReadWoken {
      assert Fetched(Prefetch(m));
      PopInv(Prefetch(m).(recv := Outside));
    }
  }

  lemma StepInv<T>(m: Mail<T>, s: Step<T>)
    requires Inv(m) && Enabled(m, s)
    ensures Inv(Next(m, s))
  {
    if s == Recv || s == Timeout || s == TakeSignal || s == ReadWoken {
      ReceiverInv(m, s);
    } else {
      SenderInv(m, s);
    }
    hide Inv, Next;
  }

  /** A step that is not enabled leaves the mailbox as it is. */
  function Exec<T>(run: seq<Step<T>>): Mail<T>
    decreases |run|
  {
    if run == [] then Init()
    else
      var m := Exec(run[..|run| - 1]);
      if Enabled(m, run[|run| - 1]) then Next(m, run[|run| - 1]) else m
  }

  lemma {:induction false} RunInv<T>(run: seq<Step<T>>)
    ensures Inv(Exec(run))
    decreases |run|
  {
    if run != [] {
      RunInv(run[..|run| - 1]);
      var m := Exec(run[..|run| - 1]);
      if Enabled(m, run[|run| - 1]) {
        StepInv(m, run[|run| - 1]);
      }
    }
  }

  /** In every interleaving the read after a signal succeeds, and the receiver has obtained the
      commands in the order of the lock, none lost and none twice. */
  lemma InOrder<T>(run: seq<Step<T>>)
    ensures var m := Exec(run); !m.failed && m.received <= m.log && |m.received| == m.front
  {
    RunInv(run);
  }

  /** A passive receiver with flushed commands has exactly one signal pending or about to be sent;
      in no state are there two. */
  lemma OneSignal<T>(run: seq<Step<T>>)
    ensures var m := Exec(run);
            Tokens(m) <= 1 && (!m.active && m.front < m.w ==> Tokens(m) == 1) && (Tokens(m) == 1 ==> m.front < m.w)
  {
    RunInv(run);
  }

  /** At rest nothing is stuck: with every sender done and the receiver unable to move except by a
      timeout, every command sent has been received. */
  lemma NothingStuck<T>(run: seq<Step<T>>)
    requires var m := Exec(run); m.crit == Free && m.owing == 0 && m.recv == Waiting && m.signals == 0
    ensures Exec(run).received == Exec(run).log
  {
    RunInv(run);
  }

  class Mailbox<T(==)> {
    var cpipe: YPipe<T>
    var signals: nat
    var active: bool

    ghost predicate Valid()
      reads this, cpipe
    {
      && cpipe.Valid()
      && var q := cpipe.Value();
         && q.pending == [] && q.partial == []
         && (active ==> !q.asleep && signals == 0)
         && (!active && q.asleep ==> signals == 0 && q.ready == [])
         && (!active && !q.asleep ==> signals == 1 && q.ready != [])
    }

    ghost function Contents(): seq<T>
      reads this, cpipe
      requires Valid()
    {
      cpipe.Value().ready
    }

    constructor ()
      ensures Valid() && Contents() == [] && fresh(cpipe)
    {
      var pipe := Primed();
      hide YPipe<T>.Value, YPipe<T>.Valid;
      cpipe, signals, active := pipe, 0, false;
    }

    /** An empty pipe whose reader has been put to sleep. */
    static method Primed() returns (pipe: YPipe<T>)
      ensures fresh(pipe) && pipe.Valid() && pipe.Value() == Queue([], [], [], true)
    {
      pipe := new YPipe<T>();
      hide YPipe<T>.Value, YPipe<T>.Valid;
      var first := pipe.Read();
    }

    method Send(cmd: T)
      requires Valid()
      modifies this`signals, cpipe
      ensures Valid() && Contents() == old(Contents()) + [cmd]
    {
      ghost var q := cpipe.Value();
      cpipe.Write(cmd, false);
      assert cpipe.Value() == Queue(q.ready, [cmd], [], q.asleep);
      var ok := cpipe.Flush();
      assert cpipe.Value() == Queue(q.ready + [cmd], [], [], false);
      if !ok {
        signals := signals + 1;
      }
    }

    /** The answer is empty exactly when there is no command; the wait then times out. */
    method Recv() returns (cmd: Option<T>)
      requires Valid()
      modifies this`signals, this`active, cpipe
      ensures Valid()
      ensures old(Contents()) == [] ==> cmd == None && Contents() == []
      ensures old(Contents()) != [] ==> cmd == Some(old(Contents())[0]) && Contents() == old(Contents())[1..]
    {
      if active {
        cmd := cpipe.Read();
        if cmd.Some? {
          return;
        }
        active := false;
      }
      if signals == 0 {
        return None;
      }
      signals := signals - 1;
      active := true;
      cmd := cpipe.Read();
      assert cmd.Some?;
    }
  }
}
