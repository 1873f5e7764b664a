/** Requests of children, and shutdown that comes to rest. */
module OwnRuns {
  import opened OwnTree
  import opened OwnSafety

  // ---- what handlers do to lives and mailboxes ----

  predicate Late(l: Life) {
    l == Told || l == Ending || l == Acked || l == Done
  }

  /** Objects stay as they are or come to their end, and mailboxes only get more. */
  ghost predicate Grows(t: seq<Obj>, t': seq<Obj>) {
    && |t'| == |t|
    && forall k: Id :: k < |t| ==>
      && t'[k].owner == t[k].owner && t'[k].asked == t[k].asked
      && (t'[k].life == t[k].life || Late(t'[k].life)) && t[k].inbox <= t'[k].inbox
  }

  lemma GrowsThen(t: seq<Obj>, u: seq<Obj>, v: seq<Obj>)
    requires Grows(t, u) && Grows(u, v)
    ensures Grows(t, v)
  {
  }

  lemma CheckGrows(s: Tree, i: Id)
    requires i < |s.t|
    ensures Grows(s.t, CheckTermAcks(s, i).t)
  {
  }

  lemma SeqnumGrows(s: Tree, i: Id)
    requires i < |s.t|
    ensures Grows(s.t, ProcessSeqnum(s, i).t)
  {
    var u := Set(s, i, s.t[i].(processed := s.t[i].processed + 1));
    assert Grows(s.t, u.t);
    CheckGrows(u, i);
    hide CheckTermAcks, Grows;
    GrowsThen(s.t, u.t, CheckTermAcks(u, i).t);
  }

  lemma TermReqGrows(s: Tree, i: Id, c: Id)
    requires i < |s.t| && c < |s.t|
    ensures Grows(s.t, ProcessTermReq(s, i, c).t)
  {
  }

  lemma UnregisterGrows(s: Tree, i: Id)
    requires i < |s.t|
    ensures Grows(s.t, UnregisterTermAck(s, i).t)
  {
    if s.t[i].termAcks > 0 {
      var u := Set(s, i, s.t[i].(termAcks := s.t[i].termAcks - 1));
      assert Grows(s.t, u.t);
      CheckGrows(u, i);
      hide CheckTermAcks, Grows;
      GrowsThen(s.t, u.t, CheckTermAcks(u, i).t);
    }
  }

  lemma TermAckGrows(s: Tree, i: Id, c: Id)
    requires i < |s.t| && c < |s.t|
    ensures Grows(s.t, ProcessTermAck(s, i, c).t)
  {
    var u := Set(s, c, s.t[c].(life := Done));
    assert Grows(s.t, u.t);
    UnregisterGrows(u, i);
    hide UnregisterTermAck, Grows;
    GrowsThen(s.t, u.t, UnregisterTermAck(u, i).t);
  }

  lemma TermGrows(s: Tree, i: Id)
    requires i < |s.t|
    ensures Grows(s.t, ProcessTerm(s, i).t)
  {
    if !s.t[i].terminating {
      var u := s.t[i := Begun(s.t[i])];
      var v := TellAll(u, s.t[i].owned);
      assert Grows(s.t, v);
      CheckGrows(s.(t := v), i);
      hide CheckTermAcks, Grows, TellAll;
      GrowsThen(s.t, v, CheckTermAcks(s.(t := v), i).t);
    }
  }

  // ---- requests ----

  /** A request of c behind the command that makes c known. */
  predicate AfterOwn(s: seq<Cmd>, c: Id) {
    s != [] && ((s[0] == Own(c) && TermReq(c) in s[1..]) || AfterOwn(s[1..], c))
  }

  lemma {:induction false} AfterOwnMore(s: seq<Cmd>, s': seq<Cmd>, c: Id)
    requires AfterOwn(s, c) && s <= s'
    ensures AfterOwn(s', c)
  {
    assert s'[0] == s[0] && s[1..] <= s'[1..];
    if AfterOwn(s[1..], c) {
      AfterOwnMore(s[1..], s'[1..], c);
    }
  }

  lemma {:induction false} AfterOwnSnoc(s: seq<Cmd>, c: Id)
    requires Own(c) in s
    ensures AfterOwn(s + [TermReq(c)], c)
  {
    assert (s + [TermReq(c)])[1..] == s[1..] + [TermReq(c)];
    if s[0] != Own(c) {
      AfterOwnSnoc(s[1..], c);
    }
  }

  lemma {:induction false} AfterOwnHas(s: seq<Cmd>, c: Id)
    requires AfterOwn(s, c)
    ensures TermReq(c) in s
  {
    if AfterOwn(s[1..], c) {
      AfterOwnHas(s[1..], c);
    }
  }

  /** A request that was made once `own` had been sent is still to be processed, or has been heeded. */
  predicate Heard(t: seq<Obj>, c: Id)
    requires c < |t| && 0 <= t[c].owner < |t|
  {
    var p := t[t[c].owner];
    t[c].asked ==>
      match t[c].life
      case Plugged => false
      case Launching => AfterOwn(p.inbox, c)
      case Owned => TermReq(c) in p.inbox
      case _ => true
  }

  predicate AllHeard(t: seq<Obj>) {
    forall c: Id :: 0 < c < |t| ==> 0 <= t[c].owner < |t| && Heard(t, c)
  }

  lemma HeardGrows(t: seq<Obj>, t': seq<Obj>)
    requires AllHeard(t) && Grows(t, t')
    ensures AllHeard(t')
  {
    forall c: Id | 0 < c < |t'| ensures 0 <= t'[c].owner < |t'| && Heard(t', c) {
      assert Heard(t, c);
      var p, p' := t[t[c].owner], t'[t[c].owner];
      if t[c].asked && t'[c].life == t[c].life == Launching {
        AfterOwnMore(p.inbox, p'.inbox, c);
      }
    }
  }

  /** Taking a command off a mailbox that is not about a child's standing. */
  lemma HeardPop(t: seq<Obj>, i: Id)
    requires AllHeard(t) && i < |t| && t[i].inbox != []
    ensures var t' := t[i := Popped(t[i])];
      forall c: Id :: 0 < c < |t| && !(t[c].owner == i && ((t[i].inbox[0] == TermReq(c) && t[c].life == Owned) || t[i].inbox[0] == Own(c))) ==>
        0 <= t'[c].owner < |t'| && Heard(t', c)
  {
    var t' := t[i := Popped(t[i])];
    forall c: Id | 0 < c < |t| && !(t[c].owner == i && ((t[i].inbox[0] == TermReq(c) && t[c].life == Owned) || t[i].inbox[0] == Own(c)))
      ensures 0 <= t'[c].owner < |t'| && Heard(t', c)
    {
      assert Heard(t, c);
    }
  }

  lemma HeardOwn(s: Tree, i: Id, c: Id)
    requires Inv(s, NOBODY) && AllHeard(s.t) && i < |s.t| && s.t[i].inbox != [] && s.t[i].inbox[0] == Own(c) && s.t[i].plugged == NOBODY
    ensures AllHeard(Step(s, Deliver(i)).t)
  {
    var t, o := s.t, s.t[i];
    assert Node(t, i, NOBODY) && Own(c) in o.inbox;
    assert IsChild(t, c, i) && Edge(t, c);
    CntIn(o.inbox, Own(c));
    assert Heard(t, c);
    var u := Set(s, i, Popped(o));
    var v := ProcessOwn(u, i, c);
    HeardPop(t, i);
    hide Inv;
    OwnHeard(u, i, c, t);
    SeqnumGrows(v, i);
    HeardGrows(v.t, ProcessSeqnum(v, i).t);
  }

  lemma OwnHeard(u: Tree, i: Id, c: Id, t: seq<Obj>)
    requires i < c < |t| == |u.t| && u.t == t[i := u.t[i]] && t[c].owner == i && t[c].life == Launching
    requires t[i].inbox != [] && t[i].inbox[0] == Own(c) && u.t[i] == Popped(t[i]) && Heard(t, c)
    requires forall k: Id :: 0 < k < |t| && k != c ==> 0 <= u.t[k].owner < |u.t| && Heard(u.t, k)
    ensures AllHeard(ProcessOwn(u, i, c).t)
  {
    var v := ProcessOwn(u, i, c).t;
    assert |v| == |t| && v[c].owner == i && v[c].asked == t[c].asked && v[i].inbox == t[i].inbox[1..];
    assert v[c].life == Owned || v[c].life == Told;
    assert forall k: Id :: k < |t| && k != c ==> v[k].owner == u.t[k].owner && v[k].asked == u.t[k].asked && v[k].life == u.t[k].life;
    assert forall k: Id :: k < |t| ==> u.t[k].inbox <= v[k].inbox;
    if t[c].asked && AfterOwn(t[i].inbox[1..], c) {
      AfterOwnHas(t[i].inbox[1..], c);
    }
    assert Heard(v, c);
    hide ProcessOwn;
    forall k: Id | 0 < k < |v| ensures 0 <= v[k].owner < |v| && Heard(v, k) {
      if k != c {
        assert Heard(u.t, k);
        if u.t[k].asked && u.t[k].life == Launching {
          AfterOwnMore(u.t[u.t[k].owner].inbox, v[u.t[k].owner].inbox, k);
        }
      }
    }
  }

  lemma HeardReq(s: Tree, i: Id, c: Id)
    requires Inv(s, NOBODY) && AllHeard(s.t) && i < |s.t| && s.t[i].inbox != [] && s.t[i].inbox[0] == TermReq(c) && s.t[i].plugged == NOBODY
    ensures AllHeard(Step(s, Deliver(i)).t)
  {
    var t, o := s.t, s.t[i];
    assert Node(t, i, NOBODY) && TermReq(c) in o.inbox;
    assert IsChild(t, c, i) && Edge(t, c);
    assert i < c < |t| && (t[c].life == Owned ==> c in o.owned && !o.terminating) && o.alive;
    hide Inv;
    HeardPop(t, i);
    var u := Set(s, i, Popped(o));
    ReqHeard(u, i, c);
  }

  lemma ReqHeard(u: Tree, i: Id, c: Id)
    requires i < c < |u.t| && (u.t[c].life == Owned ==> c in u.t[i].owned && !u.t[i].terminating) && u.t[c].owner == i
    requires forall k: Id :: 0 < k < |u.t| && !(k == c && u.t[c].life == Owned) ==> 0 <= u.t[k].owner < |u.t| && Heard(u.t, k)
    ensures AllHeard(ProcessTermReq(u, i, c).t)
  {
    var v := ProcessTermReq(u, i, c).t;
    TermReqGrows(u, i, c);
    assert u.t[c].life == Owned ==> v[c].life == Told;
    hide ProcessTermReq;
    forall k: Id | 0 < k < |v| ensures 0 <= v[k].owner < |v| && Heard(v, k) {
      if !(k == c && u.t[c].life == Owned) {
        assert Heard(u.t, k);
        if u.t[k].asked && v[k].life == u.t[k].life == Launching {
          AfterOwnMore(u.t[u.t[k].owner].inbox, v[u.t[k].owner].inbox, k);
        }
      }
    }
  }

  lemma HeardDeliver(s: Tree, i: Id)
    requires Inv(s, NOBODY) && AllHeard(s.t) && i < |s.t| && s.t[i].inbox != [] && s.t[i].plugged == NOBODY
    ensures AllHeard(Step(s, Deliver(i)).t)
  {
    var x := s.t[i].inbox[0];
    var u := Set(s, i, Popped(s.t[i]));
    if x.Own? {
      HeardOwn(s, i, x.c);
    } else if x.TermReq? {
      HeardReq(s, i, x.c);
    } else {
      HeardPop(s.t, i);
      assert AllHeard(u.t);
      hide AllHeard, Inv, Handle, Grows;
      HandleGrows(u, i, x);
      HeardGrows(u.t, Handle(u, i, x).t);
    }
  }

  lemma HandleGrows(u: Tree, i: Id, x: Cmd)
    requires i < |u.t| && !x.Own? && !x.TermReq?
    ensures Grows(u.t, Handle(u, i, x).t)
  {
    hide ProcessSeqnum, ProcessTerm, ProcessTermAck, ProcessTermReq, ProcessOwn, Grows;
    if !u.t[i].alive || (Names(x) && x.c >= |u.t|) {
      GrowsSame(u.t);
    } else if x.Term? {
      TermGrows(u, i);
    } else if x.TermAck? {
      TermAckGrows(u, i, x.c);
    } else {
      SeqnumGrows(u, i);
    }
  }

  lemma GrowsSame(t: seq<Obj>)
    ensures Grows(t, t)
  {
  }

  lemma HeardTerminate(s: Tree, i: Id)
    requires Inv(s, NOBODY) && AllHeard(s.t) && Enabled(s, Terminate(i))
    ensures AllHeard(Step(s, Terminate(i)).t)
  {
    var t, o := s.t, s.t[i];
    if !o.terminating {
      if !HasOwner(s, i) {
        TermGrows(s, i);
        HeardGrows(t, ProcessTerm(s, i).t);
      } else {
        assert i > 0 by {
          assert RootOk(t[0]);
        }
        assert Edge(t, i);
        CntIn(t[o.owner].inbox, Own(i));
        AskHeard(s, i);
      }
    }
  }

  lemma AskHeard(s: Tree, i: Id)
    requires AllHeard(s.t) && 0 < i < |s.t| && HasOwner(s, i) && s.t[i].owner != i
    requires s.t[i].life == Launching ==> Own(i) in s.t[s.t[i].owner].inbox
    ensures var o := s.t[i];
      var u := Set(s, i, o.(asked := o.asked || o.life != Plugged));
      AllHeard(Set(u, o.owner, Put(u.t[o.owner], TermReq(i))).t)
  {
    var t, o := s.t, s.t[i];
    var u := Set(s, i, o.(asked := o.asked || o.life != Plugged));
    var v := Set(u, o.owner, Put(u.t[o.owner], TermReq(i))).t;
    forall k: Id | 0 < k < |v| ensures 0 <= v[k].owner < |v| && Heard(v, k) {
      assert Heard(t, k);
      var p, p' := t[t[k].owner], v[t[k].owner];
      assert p.inbox <= p'.inbox;
      if k == i && o.life == Launching {
        AfterOwnSnoc(p.inbox, i);
      } else if t[k].asked && t[k].life == Launching {
        AfterOwnMore(p.inbox, p'.inbox, k);
      }
    }
  }

  lemma HeardSendOwn(s: Tree, i: Id)
    requires Inv(s, NOBODY) && AllHeard(s.t) && Enabled(s, SendOwn(i))
    ensures AllHeard(Step(s, SendOwn(i)).t)
  {
    var t, o, v := s.t, s.t[i], Step(s, SendOwn(i)).t;
    var c: Id := o.plugged;
    assert Node(t, i, NOBODY) && IsChild(t, c, i);
    assert Edge(t, c);
    hide Inv;
    forall k: Id | 0 < k < |v| ensures 0 <= v[k].owner < |v| && Heard(v, k) {
      assert Heard(t, k);
      var p, p' := t[t[k].owner], v[t[k].owner];
      if k != c && t[k].asked && t[k].life == Launching {
        AfterOwnMore(p.inbox, p'.inbox, k);
      }
    }
  }

  lemma HeardLaunch(s: Tree, i: Id)
    requires AllHeard(s.t) && Enabled(s, Launch(i))
    ensures AllHeard(Step(s, Launch(i)).t)
  {
    var t, v := s.t, Step(s, Launch(i)).t;
    forall k: Id | 0 < k < |v| ensures 0 <= v[k].owner < |v| && Heard(v, k) {
      if k < |t| {
        assert Heard(t, k);
      }
    }
  }

  lemma HeardStep(s: Tree, m: Move)
    requires Inv(s, NOBODY) && AllHeard(s.t) && Enabled(s, m)
    ensures AllHeard(Step(s, m).t)
  {
    hide Inv, AllHeard;
    match m
    case Launch(i) => HeardLaunch(s, i);
    case SendOwn(i) => HeardSendOwn(s, i);
    case Terminate(i) => HeardTerminate(s, i);
    case Deliver(i) => HeardDeliver(s, i);
    case _ => OtherGrows(s, m); HeardGrows(s.t, Step(s, m).t);
  }

  lemma OtherGrows(s: Tree, m: Move)
    requires Enabled(s, m) && (m.TermChild? || m.IncSeqnum? || m.SendSeq? || m.RegisterAck? || m.UnregisterAck?)
    ensures Grows(s.t, Step(s, m).t)
  {
    var t := s.t;
    if m.TermChild? {
      TermReqGrows(s, m.i, m.c);
      hide Grows;
    } else if m.UnregisterAck? {
      var u := Set(s, m.i, t[m.i].(events := t[m.i].events - 1));
      assert Grows(t, u.t);
      hide Grows, UnregisterTermAck;
      UnregisterGrows(u, m.i);
      GrowsThen(t, u.t, Step(s, m).t);
    }
  }

  lemma {:induction false} RunHeard(run: seq<Move>)
    ensures AllHeard(Exec(run).t)
    decreases |run|
  {
    if run != [] {
      var s := Exec(run[..|run| - 1]);
      RunHeard(run[..|run| - 1]);
      RunInv(run[..|run| - 1]);
      hide Inv, AllHeard;
      if Enabled(s, run[|run| - 1]) {
        HeardStep(s, run[|run| - 1]);
      }
    }
  }

  /** A request is honoured: at rest, a child that asked for its termination once `own` had been sent is gone. */
  lemma RequestHonoured(run: seq<Move>, c: Id)
    requires AtRest(Exec(run)) && 0 < c < |Exec(run).t| && Exec(run).t[c].asked
    ensures !Exec(run).t[c].alive
  {
    RunInv(run);
    RunHeard(run);
    var s := Exec(run);
    hide Exec;
    var o := s.t[c];
    assert Edge(s.t, c) && Node(s.t, c, NOBODY) && Heard(s.t, c);
    assert s.t[o.owner].inbox == [] && o.inbox == [];
    NoneHalfway(s, c);
  }

  /** A request that overtakes `own` is dropped: it finds the child unknown and changes nothing. Exactly the requests of
      children that are owned are heeded. */
  lemma RequestHeeded(run: seq<Move>, i: Id, c: Id)
    requires var s := Exec(run); Enabled(s, Deliver(i)) && s.t[i].inbox[0] == TermReq(c)
    ensures var s := Exec(run); c < |s.t| && (Step(s, Deliver(i)).t[c].life != s.t[c].life <==> s.t[c].life == Owned)
    ensures var s := Exec(run); s.t[c].life != Owned ==> Step(s, Deliver(i)) == Set(s, i, Popped(s.t[i]))
  {
    RunInv(run);
    var s := Exec(run);
    hide Exec;
    assert Node(s.t, i, NOBODY) && TermReq(c) in s.t[i].inbox;
    assert IsChild(s.t, c, i) && Edge(s.t, c);
    hide Inv;
  }

  // ---- a request that is lost ----

  /** The root and its child 1 after: the child is plugged in, asks to be terminated, and then `own` is sent. */
  function Raced(i: nat): Tree {
    var root := Obj(NOBODY, {}, 0, false, 0, 0, 0, 0, true, [], Owned, NOBODY, false);
    var child := Child(0);
    if i == 0 then Tree([root], false)
    else if i == 1 then Tree([root.(plugged := 1), child], false)
    else if i == 2 then Tree([root.(plugged := 1, inbox := [TermReq(1)]), child], false)
    else if i == 3 then Tree([root.(inbox := [TermReq(1), Own(1)], sentSeq := 1), child.(life := Launching)], false)
    else if i == 4 then Tree([root.(inbox := [Own(1)], sentSeq := 1), child.(life := Launching)], false)
    else if i == 5 then Tree([root.(owned := {1}, sentSeq := 1, processed := 1), child.(life := Owned)], false)
    else Tree([root.(owned := {1}, sentSeq := 1, processed := 1), child.(life := Owned, inbox := [], processed := 1)], false)
  }

  const RACE: seq<Move> := [Launch(0), Terminate(1), SendOwn(0), Deliver(0), Deliver(0), Deliver(1)]

  lemma RacedSends(i: nat)
    requires i < 3
    ensures Enabled(Raced(i), RACE[i]) && Step(Raced(i), RACE[i]) == Raced(i + 1)
  {
    var none: seq<Cmd> := [];
    assert none + [TermReq(1)] == [TermReq(1)] && [TermReq(1)] + [Own(1)] == [TermReq(1), Own(1)];
    var u, v := Step(Raced(i), RACE[i]), Raced(i + 1);
    assert |u.t| == |v.t| == 2 && u.t[0] == v.t[0] && u.t[1] == v.t[1];
  }

  lemma RacedDelivers(i: nat)
    requires 3 <= i < 6
    ensures Enabled(Raced(i), RACE[i]) && Step(Raced(i), RACE[i]) == Raced(i + 1)
  {
    var none: set<Id>, own: seq<Cmd>, both: seq<Cmd> := {}, [Own(1)], [TermReq(1), Own(1)];
    assert none + {1} == {1} && own[1..] == [] && both[1..] == own && [Plug][1..] == [];
    var u, v := Step(Raced(i), RACE[i]), Raced(i + 1);
    assert |u.t| == |v.t| == 2 && u.t[0] == v.t[0] && u.t[1] == v.t[1];
  }

  lemma {:induction false} RacedExec(i: nat)
    requires i <= |RACE|
    ensures Exec(RACE[..i]) == Raced(i)
  {
    if i > 0 {
      assert RACE[..i][..i - 1] == RACE[..i - 1];
      RacedExec(i - 1);
      if i <= 3 {
        RacedSends(i - 1);
      } else {
        RacedDelivers(i - 1);
      }
      hide Raced, Step, Enabled;
    }
  }

  /** The child has asked, all is at rest, and the child lives on. */
  lemma RequestLost()
    ensures RACE[1] == Terminate(1) && AtRest(Exec(RACE)) && |Exec(RACE).t| == 2 && Exec(RACE).t[1].alive
  {
    RacedExec(6);
    assert RACE[..6] == RACE;
    hide Exec;
  }

  // ---- coming to rest ----

  function Rank(l: Life): nat {
    match l
    case Plugged => 6
    case Launching => 5
    case Owned => 4
    case Told => 3
    case Ending => 2
    case Acked => 1
    case Done => 0
  }

  /** What is left to do for and to an object. */
  function Weight(o: Obj): nat {
    2 * Rank(o.life) + |o.inbox| + 2 * o.reserved + o.events
  }

  function Sum(t: seq<Obj>): nat {
    if t == [] then 0 else Weight(t[0]) + Sum(t[1..])
  }

  lemma {:induction false} SumSet(t: seq<Obj>, i: nat, o: Obj)
    requires i < |t|
    ensures Sum(t[i := o]) + Weight(t[i]) == Sum(t) + Weight(o)
  {
    if i == 0 {
      assert t[i := o][1..] == t[1..];
    } else {
      assert t[i := o][1..] == t[1..][i - 1 := o];
      SumSet(t[1..], i - 1, o);
    }
  }

  lemma {:induction false} SumLess(t: seq<Obj>, t': seq<Obj>)
    requires |t| == |t'| && forall k: Id :: k < |t| ==> Weight(t'[k]) <= Weight(t[k])
    ensures Sum(t') <= Sum(t)
    ensures forall k: Id :: k < |t| && Weight(t'[k]) < Weight(t[k]) ==> Sum(t') < Sum(t)
  {
    if t != [] {
      SumLess(t[1..], t'[1..]);
      forall k: Id | k < |t| && Weight(t'[k]) < Weight(t[k]) ensures Sum(t') < Sum(t) {
        if k > 0 {
          assert t[1..][k - 1] == t[k] && t'[1..][k - 1] == t'[k];
        }
      }
    }
  }

  lemma SumTwo(t: seq<Obj>, i: nat, o: Obj, c: nat, d: Obj)
    requires i < |t| && c < |t| && i != c
    ensures Sum(t[i := o][c := d]) + Weight(t[i]) + Weight(t[c]) == Sum(t) + Weight(o) + Weight(d)
  {
    SumSet(t, i, o);
    SumSet(t[i := o], c, d);
    hide Sum, Weight;
  }

  /** Destroying an object and telling its owner. */
  lemma CheckSum(s: Tree, i: Id)
    requires i < |s.t| && LifeOk(s.t[i]) && s.t[i].alive && s.t[i].owner < |s.t| && s.t[i].owner != i
    ensures Sum(CheckTermAcks(s, i).t) <= Sum(s.t)
  {
    var o := s.t[i];
    if Finished(o) {
      assert o.life == Ending;
      if HasOwner(s, i) {
        SumTwo(s.t, i, o.(alive := false, life := Acked), o.owner, Put(s.t[o.owner], TermAck(i)));
      } else {
        SumSet(s.t, i, o.(alive := false, life := Done));
      }
    }
    hide Sum;
  }

  /** Moves that are not users' doing: commands are delivered, promised commands and `own` are sent, events come. */
  predicate System(m: Move) {
    m.Deliver? || m.SendSeq? || m.SendOwn? || m.UnregisterAck?
  }

  lemma Standing(s: Tree, i: Id)
    requires Inv(s, NOBODY) && i < |s.t|
    ensures LifeOk(s.t[i]) && s.t[i].owner < |s.t| && s.t[i].owner != i && (!s.t[i].alive ==> s.t[i].inbox == [])
  {
    assert Node(s.t, i, NOBODY) && (i > 0 ==> Edge(s.t, i)) && RootOk(s.t[0]);
  }

  lemma PlainSum(s: Tree, i: Id)
    requires Inv(s, NOBODY) && Enabled(s, Deliver(i)) && (s.t[i].inbox[0] == Plug || s.t[i].inbox[0] == SeqCmd)
    ensures Sum(Step(s, Deliver(i)).t) < Sum(s.t)
  {
    var o := s.t[i];
    var o' := Popped(o).(processed := o.processed + 1);
    Standing(s, i);
    assert Weight(o') == Weight(o) - 1 && LifeOk(o');
    hide Inv, Weight, LifeOk, Sum, CheckTermAcks;
    CheckedSum(s, i, o');
    assert s.t[i := Popped(o)][i := o'] == s.t[i := o'];
  }

  lemma OwnSum(s: Tree, i: Id, c: Id)
    requires Inv(s, NOBODY) && Enabled(s, Deliver(i)) && s.t[i].inbox[0] == Own(c)
    ensures Sum(Step(s, Deliver(i)).t) < Sum(s.t)
  {
    var t, o := s.t, s.t[i];
    Standing(s, i);
    assert Node(t, i, NOBODY) && Own(c) in o.inbox;
    assert IsChild(t, c, i) && Edge(t, c);
    CntIn(o.inbox, Own(c));
    assert i < c < |t| && t[c].life == Launching;
    hide Inv;
    var q := Popped(o).(processed := o.processed + 1);
    var o' := if o.terminating then q.(termAcks := o.termAcks + 1) else q.(owned := o.owned + {c});
    var d' := if o.terminating then Put(t[c], Term).(life := Told) else t[c].(life := Owned);
    assert Weight(o') == Weight(o) - 1 && Weight(d') < Weight(t[c]);
    OwnResult(s, i, c, o', d');
    SumTwo(t, i, o', c, d');
    CheckSum(s.(t := t[i := o'][c := d']), i);
    hide CheckTermAcks, Sum, Handle, Weight, LifeOk;
  }

  lemma TermAckSum(s: Tree, i: Id, c: Id)
    requires Inv(s, NOBODY) && Enabled(s, Deliver(i)) && s.t[i].inbox[0] == TermAck(c)
    ensures Sum(Step(s, Deliver(i)).t) < Sum(s.t)
  {
    var t, o := s.t, s.t[i];
    Standing(s, i);
    assert Node(t, i, NOBODY) && TermAck(c) in o.inbox;
    assert IsChild(t, c, i) && Edge(t, c);
    CntIn(o.inbox, TermAck(c));
    assert c in Waiting(t, i);
    assert i < c < |t| && t[c].life == Acked && o.termAcks > 0;
    hide Inv, Waiting, Step, Sum, LifeOk;
    AckedSum(s, i, c);
  }

  lemma AckedSum(s: Tree, i: Id, c: Id)
    requires Enabled(s, Deliver(i)) && s.t[i].inbox[0] == TermAck(c) && i < c < |s.t| && s.t[c].life == Acked
    requires s.t[i].termAcks > 0 && LifeOk(s.t[i]) && s.t[i].alive && s.t[i].owner < |s.t| && s.t[i].owner != i
    ensures Sum(Step(s, Deliver(i)).t) < Sum(s.t)
  {
    var t, o := s.t, s.t[i];
    var o' := Popped(o).(termAcks := o.termAcks - 1);
    var d' := t[c].(life := Done);
    assert Weight(o') == Weight(o) - 1 && Weight(d') < Weight(t[c]);
    AckResult(s, i, c);
    SumTwo(t, i, o', c, d');
    CheckSum(s.(t := t[i := o'][c := d']), i);
    hide CheckTermAcks, Sum, Handle, Weight, LifeOk;
  }

  lemma TermReqSum(s: Tree, i: Id, c: Id)
    requires Inv(s, NOBODY) && Enabled(s, Deliver(i)) && s.t[i].inbox[0] == TermReq(c)
    ensures Sum(Step(s, Deliver(i)).t) < Sum(s.t)
  {
    var t, o := s.t, s.t[i];
    Standing(s, i);
    assert Node(t, i, NOBODY) && TermReq(c) in o.inbox;
    assert IsChild(t, c, i) && Edge(t, c);
    assert i < c < |t| && (c in o.owned ==> t[c].life == Owned);
    hide Inv;
    SumSet(t, i, Popped(o));
    assert Weight(Popped(o)) == Weight(o) - 1;
    var u := Set(s, i, Popped(o));
    RequestSum(u, i, c);
    hide Sum, Weight, ProcessTermReq;
  }

  lemma RequestSum(s: Tree, i: Id, c: Id)
    requires i < c < |s.t| && (c in s.t[i].owned ==> s.t[c].life == Owned)
    ensures Sum(ProcessTermReq(s, i, c).t) <= Sum(s.t)
  {
    var o := s.t[i];
    var o', d' := o.(owned := o.owned - {c}, termAcks := o.termAcks + 1), Put(s.t[c], Term).(life := Told);
    SumTwo(s.t, i, o', c, d');
    assert Weight(o') == Weight(o) && (s.t[c].life == Owned ==> Weight(d') < Weight(s.t[c]));
    hide Sum, Weight;
  }

  lemma ToldWeight(s: Tree, i: Id, t': seq<Obj>, b: seq<Cmd>, k: Id)
    requires Inv(s, NOBODY) && i < |s.t| && k < |s.t| && Spread(s.t, t', i, b)
    requires s.t[i].life == Told && |b| < |s.t[i].inbox|
    ensures Weight(t'[k]) <= Weight(s.t[k]) && Weight(t'[i]) < Weight(s.t[i])
  {
    if k in s.t[i].owned {
      OwnedLife(s, i, k);
    }
    hide Inv;
  }

  /** Who gets `term` was told to, and is not its own child. */
  lemma TermFacts(s: Tree, i: Id)
    requires Inv(s, NOBODY) && Enabled(s, Deliver(i)) && s.t[i].inbox[0] == Term
    ensures var o := s.t[i]; i > 0 && o.life == Told && !o.terminating && o.alive && o.owner < i && i !in o.owned
  {
    var o := s.t[i];
    Standing(s, i);
    CntIn(o.inbox, Term);
    assert i > 0 ==> Edge(s.t, i);
    assert RootOk(s.t[0]);
    if i in o.owned {
      OwnedLife(s, i, i);
    }
  }

  lemma ToldSum(s: Tree, i: Id, b: seq<Cmd>)
    requires Inv(s, NOBODY) && i < |s.t| && s.t[i].life == Told && |b| < |s.t[i].inbox| && i !in s.t[i].owned
    ensures |Told'(s.t, i, b)| == |s.t| && Sum(Told'(s.t, i, b)) < Sum(s.t)
  {
    var t, t' := s.t, Told'(s.t, i, b);
    TellAllSpreads(t, i, b);
    hide Inv, Told', Spread, Sum, Weight;
    forall k: Id | k < |t| ensures Weight(t'[k]) <= Weight(t[k]) {
      ToldWeight(s, i, t', b, k);
    }
    ToldWeight(s, i, t', b, i);
    SumLess(t, t');
  }

  lemma TermSum(s: Tree, i: Id)
    requires Inv(s, NOBODY) && Enabled(s, Deliver(i)) && s.t[i].inbox[0] == Term
    ensures Sum(Step(s, Deliver(i)).t) < Sum(s.t)
  {
    TermFacts(s, i);
    var b := s.t[i].inbox[1..];
    ToldSum(s, i, b);
    hide Inv, Step, Told', Sum;
    TermDelivered(s, i, b);
    BegunSum(s, i, b);
  }

  lemma TermDelivered(s: Tree, i: Id, b: seq<Cmd>)
    requires Enabled(s, Deliver(i)) && s.t[i].inbox[0] == Term && b == s.t[i].inbox[1..] && s.t[i].alive && !s.t[i].terminating
    ensures |Told'(s.t, i, b)| == |s.t| && Step(s, Deliver(i)) == CheckTermAcks(s.(t := Told'(s.t, i, b)), i)
  {
    hide ProcessTerm, CheckTermAcks, Told', ProcessSeqnum, ProcessOwn, ProcessTermReq, ProcessTermAck;
    TermResult(s, i, b);
    var u := Set(s, i, s.t[i].(inbox := b));
    assert Handle(u, i, Term) == ProcessTerm(u, i);
    hide Handle;
    assert Step(s, Deliver(i)) == Handle(u, i, Term);
  }

  lemma BegunSum(s: Tree, i: Id, b: seq<Cmd>)
    requires i < |s.t| && s.t[i].alive && s.t[i].owner < i && i !in s.t[i].owned && |Told'(s.t, i, b)| == |s.t|
    ensures Sum(CheckTermAcks(s.(t := Told'(s.t, i, b)), i).t) <= Sum(Told'(s.t, i, b))
  {
    TellAllSpreads(s.t, i, b);
    hide Told', Spread, CheckTermAcks, Sum;
    CheckSum(s.(t := Told'(s.t, i, b)), i);
  }

  /** Every such move leaves less to do. */
  lemma SystemStep(s: Tree, m: Move)
    requires Inv(s, NOBODY) && Enabled(s, m) && System(m)
    ensures Sum(Step(s, m).t) < Sum(s.t)
  {
    var t, o := s.t, s.t[m.i];
    match m
    case Deliver(i) =>
      hide Step, Inv;
      match o.inbox[0] {
        case Plug => PlainSum(s, i);
        case SeqCmd => PlainSum(s, i);
        case Own(c) => OwnSum(s, i, c);
        case TermReq(c) => TermReqSum(s, i, c);
        case Term => TermSum(s, i);
        case TermAck(c) => TermAckSum(s, i, c);
      }
    case SendSeq(i) => SumSet(t, i, Put(o, SeqCmd).(reserved := o.reserved - 1));
    case SendOwn(i) => SendOwnSum(s, i);
    case UnregisterAck(i) => UnregisterSum(s, i);
  }

  lemma SendOwnSum(s: Tree, i: Id)
    requires Inv(s, NOBODY) && Enabled(s, SendOwn(i))
    ensures Sum(Step(s, SendOwn(i)).t) < Sum(s.t)
  {
    var t, o := s.t, s.t[i];
    var c: Id := o.plugged;
    assert Node(t, i, NOBODY) && IsChild(t, c, i);
    assert Edge(t, c);
    SumTwo(t, i, Put(o, Own(c)).(sentSeq := o.sentSeq + 1, plugged := NOBODY), c, t[c].(life := Launching));
    hide Inv, Sum;
  }

  lemma UnregisterSum(s: Tree, i: Id)
    requires Inv(s, NOBODY) && Enabled(s, UnregisterAck(i))
    ensures Sum(Step(s, UnregisterAck(i)).t) < Sum(s.t)
  {
    Standing(s, i);
    assert Node(s.t, i, NOBODY);
    assert s.t[i].termAcks > 0;
    hide Inv, Step, Sum, LifeOk;
    EventSum(s, i);
  }

  lemma EventSum(s: Tree, i: Id)
    requires Enabled(s, UnregisterAck(i)) && s.t[i].termAcks > 0 && LifeOk(s.t[i]) && s.t[i].owner < |s.t| && s.t[i].owner != i
    ensures Sum(Step(s, UnregisterAck(i)).t) < Sum(s.t)
  {
    var o := s.t[i];
    var o' := o.(termAcks := o.termAcks - 1, events := o.events - 1);
    assert Weight(o') == Weight(o) - 1 && LifeOk(o');
    hide Weight, LifeOk, Sum, CheckTermAcks;
    CheckedSum(s, i, o');
    EventStep(s, i, o');
    hide Step;
  }

  lemma EventStep(s: Tree, i: Id, o': Obj)
    requires Enabled(s, UnregisterAck(i)) && s.t[i].termAcks > 0
    requires o' == s.t[i].(termAcks := s.t[i].termAcks - 1, events := s.t[i].events - 1)
    ensures Step(s, UnregisterAck(i)) == CheckTermAcks(Set(s, i, o'), i)
  {
    assert s.t[i := s.t[i].(events := s.t[i].events - 1)][i := o'] == s.t[i := o'];
    hide CheckTermAcks;
  }

  lemma CheckedSum(s: Tree, i: Id, o': Obj)
    requires i < |s.t| && LifeOk(o') && o'.alive && o'.owner < |s.t| && o'.owner != i && Weight(o') < Weight(s.t[i])
    ensures Sum(CheckTermAcks(Set(s, i, o'), i).t) < Sum(s.t)
  {
    SumSet(s.t, i, o');
    hide Sum, Weight, CheckTermAcks, LifeOk;
    CheckSum(Set(s, i, o'), i);
  }

  /** As long as the tree is not at rest, there is such a move. */
  lemma SomethingToDo(s: Tree) returns (m: Move)
    requires Inv(s, NOBODY) && !AtRest(s)
    ensures Enabled(s, m) && System(m)
  {
    var i: Id :| i < |s.t| && !(s.t[i].inbox == [] && s.t[i].reserved == 0 && s.t[i].events == 0 && s.t[i].plugged == NOBODY);
    assert Node(s.t, i, NOBODY);
    if s.t[i].plugged != NOBODY {
      m := SendOwn(i);
    } else if s.t[i].inbox != [] {
      m := Deliver(i);
    } else if s.t[i].reserved > 0 {
      m := SendSeq(i);
    } else {
      m := UnregisterAck(i);
    }
  }

  function After(s: Tree, more: seq<Move>): Tree
    decreases |more|
  {
    if more == [] then s else After(if Enabled(s, more[0]) then Step(s, more[0]) else s, more[1..])
  }

  /** Only such moves, each of them possible. */
  predicate Draining(s: Tree, more: seq<Move>)
    decreases |more|
  {
    more == [] || (Enabled(s, more[0]) && System(more[0]) && Draining(Step(s, more[0]), more[1..]))
  }

  lemma {:induction false} DrainIsBounded(s: Tree, more: seq<Move>)
    requires Inv(s, NOBODY) && Draining(s, more)
    ensures |more| + Sum(After(s, more).t) <= Sum(s.t)
    decreases |more|
  {
    hide Inv, Sum, Step, Enabled;
    if more != [] {
      StepInv(s, more[0]);
      SystemStep(s, more[0]);
      DrainIsBounded(Step(s, more[0]), more[1..]);
    }
  }

  /** The root goes on terminating. */
  lemma RootStays(s: Tree, m: Move)
    requires Inv(s, NOBODY) && Enabled(s, m) && System(m) && s.t[0].terminating
    ensures |Step(s, m).t| > 0 && Step(s, m).t[0].terminating
  {
    var s' := Step(s, m);
    StepInv(s, m);
    assert Node(s.t, 0, NOBODY) && RootOk(s.t[0]) && Node(s'.t, 0, NOBODY) && RootOk(s'.t[0]);
    if s'.t[0].life == Owned {
      RootLife(s, m);
    }
    hide Step;
  }

  /** What a handler does to the lives of others. */
  lemma HandleLife(u: Tree, i: Id, x: Cmd)
    requires i < |u.t|
    ensures var v := Handle(u, i, x);
      |v.t| == |u.t| && forall k: Id :: k < |u.t| ==> v.t[k].life == u.t[k].life || Late(v.t[k].life) || x == Own(k)
  {
    GrowsSame(u.t);
    if !(!u.t[i].alive || (Names(x) && x.c >= |u.t|)) {
      match x
      case Plug => SeqnumGrows(u, i);
      case SeqCmd => SeqnumGrows(u, i);
      case Own(c) => OwnLife(u, i, c);
      case TermReq(c) => TermReqGrows(u, i, c);
      case Term => TermGrows(u, i);
      case TermAck(c) => TermAckGrows(u, i, c);
    }
    hide ProcessSeqnum, ProcessTerm, ProcessTermAck, ProcessTermReq, ProcessOwn;
  }

  lemma OwnLife(u: Tree, i: Id, c: Id)
    requires i < |u.t| && c < |u.t|
    ensures var v := ProcessSeqnum(ProcessOwn(u, i, c), i);
      |v.t| == |u.t| && forall k: Id :: k < |u.t| && k != c ==> v.t[k].life == u.t[k].life || Late(v.t[k].life)
  {
    var w := ProcessOwn(u, i, c);
    assert |w.t| == |u.t| && forall k: Id :: k < |u.t| && k != c ==> w.t[k].life == u.t[k].life;
    SeqnumGrows(w, i);
    hide ProcessSeqnum, ProcessOwn;
  }

  /** The root, once it is terminating or gone, does not become owned again. */
  lemma RootLife(s: Tree, m: Move)
    requires Inv(s, NOBODY) && Enabled(s, m) && System(m) && Late(s.t[0].life)
    ensures |Step(s, m).t| > 0 && Step(s, m).t[0].life != Owned
  {
    var t := s.t;
    assert Node(t, m.i, NOBODY);
    if m.Deliver? {
      var x := t[m.i].inbox[0];
      assert x in t[m.i].inbox && (Names(x) ==> IsChild(t, x.c, m.i));
      hide Inv, Handle;
      HandleLife(Set(s, m.i, Popped(t[m.i])), m.i, x);
    } else if m.SendOwn? {
      assert IsChild(t, t[m.i].plugged, m.i);
      hide Inv;
    } else {
      OtherGrows(s, m);
      hide Inv, Step;
    }
  }

  lemma {:induction false} RestIsReached(s: Tree) returns (more: seq<Move>)
    requires Inv(s, NOBODY) && s.t[0].terminating
    ensures Draining(s, more)
    ensures var s' := After(s, more); Inv(s', NOBODY) && AtRest(s') && s'.t[0].terminating
    decreases Sum(s.t)
  {
    assert |s.t| > 0;
    hide Inv, Sum, Step, Enabled, AtRest;
    if AtRest(s) {
      more := [];
    } else {
      var m := SomethingToDo(s);
      StepInv(s, m);
      SystemStep(s, m);
      RootStays(s, m);
      var rest := RestIsReached(Step(s, m));
      more := [m] + rest;
      assert more[1..] == rest;
    }
  }

  /** Shutdown is reached: once the root terminates, commands, promises and events alone lead to a tree with every object
      destroyed, and no sequence of them is longer than the sum of what there was to do. */
  lemma ShutdownIsReached(run: seq<Move>) returns (more: seq<Move>)
    requires |Exec(run).t| > 0 && Exec(run).t[0].terminating
    ensures Draining(Exec(run), more)
    ensures var s' := After(Exec(run), more); forall i: Id :: i < |s'.t| ==> !s'.t[i].alive
    ensures forall other | Draining(Exec(run), other) :: |other| <= Sum(Exec(run).t)
  {
    RunInv(run);
    var s := Exec(run);
    hide Exec, Draining, After, Sum;
    more := RestIsReached(s);
    var s' := After(s, more);
    forall i: Id | i < |s'.t| ensures !s'.t[i].alive {
      AllGone(s', i);
    }
    forall other | Draining(s, other) ensures |other| <= Sum(s.t) {
      DrainIsBounded(s, other);
    }
  }
}
