/** The owning objects as the program has them: handlers that update the objects' fields in place
    and post commands. The table `t` is the heap the objects live in. */
module OwnObject {
  import opened OwnTree

  lemma TellOneMore(t: seq<Obj>, done: set<Id>, c: Id)
    requires c < |t| && c !in done
    ensures var u := TellAll(t, done); u[c := Put(u[c], Term).(life := Told)] == TellAll(t, done + {c})
  {
  }

  lemma TellNobody(t: seq<Obj>)
    ensures TellAll(t, {}) == t
  {
  }

  lemma TermIsSpread(s: Tree, i: Id)
    requires i < |s.t| && !s.t[i].terminating
    ensures |TellAll(s.t[i := Begun(s.t[i])], s.t[i].owned)| == |s.t|
    ensures ProcessTerm(s, i)
         == CheckTermAcks(Tree(TellAll(s.t[i := Begun(s.t[i])], s.t[i].owned), s.failed), i)
  {
    hide CheckTermAcks, TellAll;
  }

  class Objects {
    var t: seq<Obj>
    var failed: bool

    ghost function View(): Tree
      reads this
    {
      Tree(t, failed)
    }

    constructor ()
      ensures View() == Start()
    {
      t := [Obj(NOBODY, {}, 0, false, 0, 0, 0, 0, true, [], Owned, NOBODY, false)];
      failed := false;
    }

    method Post(i: Id, x: Cmd)
      requires i < |t|
      modifies this`t
      ensures t == old(t)[i := Put(old(t)[i], x)]
    {
      t := t[i := t[i].(inbox := t[i].inbox + [x])];
    }

    method PostTerm(c: Id)
      requires c < |t|
      modifies this`t
      ensures View() == SendTerm(old(View()), c)
    {
      Post(c, Term);
      t := t[c := t[c].(life := Told)];
    }

    method CheckAcks(i: Id)
      requires i < |t|
      modifies this
      ensures View() == CheckTermAcks(old(View()), i)
    {
      var o := t[i];
      if o.terminating && o.processed == o.sentSeq && o.termAcks == 0 {
        if o.owned != {} {
          failed := true;
        }
        var has := 0 <= o.owner < |t|;
        t := t[i := o.(alive := false, life := if has then Acked else Done)];
        if has {
          Post(o.owner, TermAck(i));
        }
      }
    }

    method OnSeqnum(i: Id)
      requires i < |t|
      modifies this
      ensures View() == ProcessSeqnum(old(View()), i)
    {
      t := t[i := t[i].(processed := t[i].processed + 1)];
      CheckAcks(i);
    }

    method OnOwn(i: Id, c: Id)
      requires i < |t| && c < |t|
      modifies this
      ensures View() == ProcessOwn(old(View()), i, c)
    {
      if t[i].terminating {
        t := t[i := t[i].(termAcks := t[i].termAcks + 1)];
        PostTerm(c);
        return;
      }
      t := t[c := t[c].(life := Owned)];
      t := t[i := t[i].(owned := t[i].owned + {c})];
    }

    method OnTermReq(i: Id, c: Id)
      requires i < |t| && c < |t|
      modifies this
      ensures View() == ProcessTermReq(old(View()), i, c)
    {
      if t[i].terminating || c !in t[i].owned {
        return;
      }
      t := t[i := t[i].(owned := t[i].owned - {c}, termAcks := t[i].termAcks + 1)];
      PostTerm(c);
    }

    /** The loop over the owned objects tells each of them exactly once, in whatever order. */
    method PostTermToAll(cs: set<Id>)
      requires forall c :: c in cs ==> c < |t|
      modifies this`t
      ensures t == TellAll(old(t), cs)
    {
      ghost var t0 := t;
      var rest := cs;
      hide TellAll;
      TellNobody(t0);
      assert cs - rest == {};
      while rest != {}
        invariant rest <= cs && |t| == |t0| && t == TellAll(t0, cs - rest)
        decreases |rest|
      {
        var c :| c in rest;
        TellOneMore(t0, cs - rest, c);
        PostTerm(c);
        assert cs - (rest - {c}) == (cs - rest) + {c};
        rest := rest - {c};
      }
      assert cs - {} == cs;
    }

    method Begin(i: Id)
      requires i < |t|
      modifies this`t
      ensures t == old(t)[i := Begun(old(t)[i])]
    {
      var o := t[i];
      t := t[i := o.(termAcks := o.termAcks + |o.owned|)];
      t := t[i := t[i].(owned := {}, terminating := true, life := Ending)];
    }

    method OnTerm(i: Id)
      requires i < |t| && i !in t[i].owned && forall c :: c in t[i].owned ==> c < |t|
      modifies this
      ensures View() == ProcessTerm(old(View()), i)
    {
      var o := t[i];
      if o.terminating {
        failed := true;
        return;
      }
      TermIsSpread(View(), i);
      hide ProcessTerm, TellAll, CheckTermAcks;
      Begin(i);
      PostTermToAll(o.owned);
      CheckAcks(i);
    }

    method Unregister(i: Id)
      requires i < |t|
      modifies this
      ensures View() == UnregisterTermAck(old(View()), i)
    {
      if t[i].termAcks <= 0 {
        failed := true;
        return;
      }
      t := t[i := t[i].(termAcks := t[i].termAcks - 1)];
      CheckAcks(i);
    }

    /** The first half of a launch: the child gets its owner and its `plug`. */
    method PlugChild(i: Id)
      requires Enabled(View(), Launch(i))
      modifies this
      ensures View() == Step(old(View()), Launch(i))
    {
      t := t[i := t[i].(plugged := |t|)] + [Obj(i, {}, 0, false, 1, 0, 0, 0, true, [Plug], Plugged, NOBODY, false)];
    }

    /** The second half: the owner sends `own` to itself. Others may have acted in between. */
    method TakeOwnership(i: Id)
      requires Enabled(View(), SendOwn(i))
      modifies this
      ensures View() == Step(old(View()), SendOwn(i))
    {
      var c := t[i].plugged;
      t := t[i := t[i].(sentSeq := t[i].sentSeq + 1, plugged := NOBODY)];
      Post(i, Own(c));
      t := t[c := t[c].(life := Launching)];
    }

    method TerminateSelf(i: Id)
      requires Enabled(View(), Terminate(i)) && i !in t[i].owned && forall c :: c in t[i].owned ==> c < |t|
      modifies this
      ensures View() == Step(old(View()), Terminate(i))
    {
      if t[i].terminating {
        return;
      }
      if !(0 <= t[i].owner < |t|) {
        OnTerm(i);
        return;
      }
      t := t[i := t[i].(asked := t[i].asked || t[i].life != Plugged)];
      Post(t[i].owner, TermReq(i));
    }
  }
}
