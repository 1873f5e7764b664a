/** Asynchronous shutdown of a tree of owning objects that talk by commands only.

    Objects are numbered in order of creation, the root first. Each has a mailbox of its own, a
    FIFO to which senders append; commands for different objects overtake each other freely. */
module OwnTree {

  type Id = nat

  /** `SeqCmd` stands for any command whose sender called inc_seqnum beforehand (attach, bind and
      the like). `TermAck` names its sender only so that the proofs can. */
  datatype Cmd = Plug | Own(c: Id) | TermReq(c: Id) | Term | TermAck(c: Id) | SeqCmd

  /** How far an object has come, for the record: it is plugged in and `own` is not sent yet; its owner
      has not heard of it yet, owns it, has told it to terminate; it is terminating; it is destroyed and
      its ack is under way, or seen. */
  datatype Life = Plugged | Launching | Owned | Told | Ending | Acked | Done

  /** `reserved` counts inc_seqnum calls whose command is not sent yet, `events` the acks that the
      object registered for reasons of its own. `plugged` is the child that the object is launching, between
      its plug and own commands. `asked` records that the object asked its owner to terminate it when
      `own` had been sent. The root is the object without an owner. */
  datatype Obj = Obj(
    owner: int, owned: set<Id>, termAcks: int, terminating: bool, sentSeq: nat, processed: nat,
    reserved: nat, events: nat, alive: bool, inbox: seq<Cmd>, life: Life, plugged: int, asked: bool)

  datatype Tree = Tree(t: seq<Obj>, failed: bool)

  const NOBODY: int := -1

  // ---- the handlers ----

  function Set(s: Tree, i: Id, o: Obj): Tree
    requires i < |s.t|
  {
    s.(t := s.t[i := o])
  }

  function Put(o: Obj, x: Cmd): Obj {
    o.(inbox := o.inbox + [x])
  }

  predicate HasOwner(s: Tree, i: Id)
    requires i < |s.t|
  {
    0 <= s.t[i].owner < |s.t|
  }

  function SendTerm(s: Tree, c: Id): Tree
    requires c < |s.t|
  {
    Set(s, c, Put(s.t[c], Term).(life := Told))
  }

  predicate Finished(o: Obj) {
    o.terminating && o.processed == o.sentSeq && o.termAcks == 0
  }

  /** Destroy the object once nothing more can come to it, and confirm to the owner. */
  function CheckTermAcks(s: Tree, i: Id): Tree
    requires i < |s.t|
  {
    var o := s.t[i];
    if !Finished(o) then s
    else
      var f := s.(failed := s.failed || o.owned != {});
      if !HasOwner(s, i) then Set(f, i, o.(alive := false, life := Done))
      else
        var g := Set(f, i, o.(alive := false, life := Acked));
        Set(g, o.owner, Put(g.t[o.owner], TermAck(i)))
  }

  function ProcessSeqnum(s: Tree, i: Id): Tree
    requires i < |s.t|
  {
    CheckTermAcks(Set(s, i, s.t[i].(processed := s.t[i].processed + 1)), i)
  }

  function ProcessOwn(s: Tree, i: Id, c: Id): Tree
    requires i < |s.t| && c < |s.t|
  {
    var o := s.t[i];
    if o.terminating then SendTerm(Set(s, i, o.(termAcks := o.termAcks + 1)), c)
    else
      var u := Set(s, c, s.t[c].(life := Owned));
      Set(u, i, u.t[i].(owned := o.owned + {c}))
  }

  function ProcessTermReq(s: Tree, i: Id, c: Id): Tree
    requires i < |s.t| && c < |s.t|
  {
    var o := s.t[i];
    if o.terminating || c !in o.owned then s
    else SendTerm(Set(s, i, o.(owned := o.owned - {c}, termAcks := o.termAcks + 1)), c)
  }

  /** Send the termination command to every object of `cs`. */
  function TellAll(t: seq<Obj>, cs: set<Id>): (r: seq<Obj>)
    ensures |r| == |t|
    ensures forall k :: 0 <= k < |t| ==> r[k] == if k in cs then Put(t[k], Term).(life := Told) else t[k]
  {
    seq(|t|, i requires 0 <= i < |t| => if i in cs then Put(t[i], Term).(life := Told) else t[i])
  }

  /** The object that starts to terminate: it waits for every object it owned. */
  function Begun(o: Obj): Obj {
    o.(owned := {}, termAcks := o.termAcks + |o.owned|, terminating := true, life := Ending)
  }

  function ProcessTerm(s: Tree, i: Id): Tree
    requires i < |s.t|
  {
    var o := s.t[i];
    if o.terminating then s.(failed := true)
    else
      var u := Set(s, i, Begun(o));
      CheckTermAcks(u.(t := TellAll(u.t, o.owned)), i)
  }

  function UnregisterTermAck(s: Tree, i: Id): Tree
    requires i < |s.t|
  {
    var o := s.t[i];
    if o.termAcks <= 0 then s.(failed := true)
    else CheckTermAcks(Set(s, i, o.(termAcks := o.termAcks - 1)), i)
  }

  function ProcessTermAck(s: Tree, i: Id, c: Id): Tree
    requires i < |s.t| && c < |s.t|
  {
    UnregisterTermAck(Set(s, c, s.t[c].(life := Done)), i)
  }

  predicate Names(x: Cmd) {
    x.Own? || x.TermReq? || x.TermAck?
  }

  /** A command that meets a destroyed object, or that speaks of one never made, is a failure. */
  function Handle(s: Tree, i: Id, x: Cmd): Tree
    requires i < |s.t|
  {
    if !s.t[i].alive || (Names(x) && x.c >= |s.t|) then s.(failed := true)
    else
      match x
      case Plug => ProcessSeqnum(s, i)
      case SeqCmd => ProcessSeqnum(s, i)
      case Own(c) => ProcessSeqnum(ProcessOwn(s, i, c), i)
      case TermReq(c) => ProcessTermReq(s, i, c)
      case Term => ProcessTerm(s, i)
      case TermAck(c) => ProcessTermAck(s, i, c)
  }

  // ---- the moves ----

  datatype Move =
    | Launch(i: Id) | SendOwn(i: Id) | Terminate(i: Id) | TermChild(i: Id, c: Id)
    | IncSeqnum(i: Id) | SendSeq(i: Id) | RegisterAck(i: Id) | UnregisterAck(i: Id)
    | Deliver(i: Id)

  /** Users call only objects that still exist; that a command, promised or in flight, meets an
      object that still exists is not assumed. An object in the middle of launching a child does nothing
      else; only others can promise and send commands to it meanwhile. */
  predicate Enabled(s: Tree, m: Move) {
    && m.i < |s.t|
    && (m.IncSeqnum? || m.SendSeq? || m.SendOwn? || s.t[m.i].plugged == NOBODY)
    && match m
       case SendOwn(i) => 0 <= s.t[i].plugged < |s.t|
       case TermChild(i, c) => s.t[i].alive && c < |s.t|
       case SendSeq(i) => s.t[i].reserved > 0
       case UnregisterAck(i) => s.t[i].alive && s.t[i].events > 0
       case Deliver(i) => s.t[i].inbox != []
       case _ => s.t[m.i].alive
  }

  /** A new child of i, with its `plug` under way. */
  function Child(i: Id): Obj {
    Obj(i, {}, 0, false, 1, 0, 0, 0, true, [Plug], Plugged, NOBODY, false)
  }

  function Step(s: Tree, m: Move): Tree
    requires Enabled(s, m)
  {
    var o := s.t[m.i];
    match m
    case Launch(i) => s.(t := s.t[i := o.(plugged := |s.t|)] + [Child(i)])
    case SendOwn(i) =>
      var c := o.plugged;
      var u := Set(s, i, Put(o, Own(c)).(sentSeq := o.sentSeq + 1, plugged := NOBODY));
      Set(u, c, u.t[c].(life := Launching))
    case Terminate(i) =>
      if o.terminating then s
      else if !HasOwner(s, i) then ProcessTerm(s, i)
      else
        var u := Set(s, i, o.(asked := o.asked || o.life != Plugged));
        Set(u, o.owner, Put(u.t[o.owner], TermReq(i)))
    case TermChild(i, c) => ProcessTermReq(s, i, c)
    case IncSeqnum(i) => Set(s, i, o.(sentSeq := o.sentSeq + 1, reserved := o.reserved + 1))
    case SendSeq(i) => Set(s, i, Put(o, SeqCmd).(reserved := o.reserved - 1))
    case RegisterAck(i) => Set(s, i, o.(termAcks := o.termAcks + 1, events := o.events + 1))
    case UnregisterAck(i) => UnregisterTermAck(Set(s, i, o.(events := o.events - 1)), i)
    case Deliver(i) => Handle(Set(s, i, o.(inbox := o.inbox[1..])), i, o.inbox[0])
  }

  function Start(): Tree {
    Tree([Obj(NOBODY, {}, 0, false, 0, 0, 0, 0, true, [], Owned, NOBODY, false)], false)
  }

  function Exec(run: seq<Move>): Tree
    decreases |run|
  {
    if run == [] then Start()
    else
      var s := Exec(run[..|run| - 1]);
      if Enabled(s, run[|run| - 1]) then Step(s, run[|run| - 1]) else s
  }
}
