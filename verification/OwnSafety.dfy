/** Safety and completion of tree shutdown over every interleaving. */
module OwnSafety {
  import opened OwnTree

  // ---- counting commands ----

  predicate Sequenced(x: Cmd) {
    x.Plug? || x.Own? || x.SeqCmd?
  }

  /** The commands in a mailbox that were announced by inc_seqnum. */
  function SeqCount(s: seq<Cmd>): nat {
    if s == [] then 0 else (if Sequenced(s[0]) then 1 else 0) + SeqCount(s[1..])
  }

  function Cnt(s: seq<Cmd>, x: Cmd): nat {
    if s == [] then 0 else (if s[0] == x then 1 else 0) + Cnt(s[1..], x)
  }

  /** An object sends no request after its ack. */
  predicate Orderly(s: seq<Cmd>) {
    s != [] ==> (s[0].TermAck? ==> TermReq(s[0].c) !in s[1..]) && Orderly(s[1..])
  }

  lemma {:induction false} SeqCountSnoc(s: seq<Cmd>, y: Cmd)
    ensures SeqCount(s + [y]) == SeqCount(s) + if Sequenced(y) then 1 else 0
  {
    if s == [] {
      assert s + [y] == [y];
    } else {
      assert (s + [y])[1..] == s[1..] + [y];
      SeqCountSnoc(s[1..], y);
    }
  }

  lemma {:induction false} CntSnoc(s: seq<Cmd>, y: Cmd, x: Cmd)
    ensures Cnt(s + [y], x) == Cnt(s, x) + if x == y then 1 else 0
  {
    if s == [] {
      assert s + [y] == [y];
    } else {
      assert (s + [y])[1..] == s[1..] + [y];
      CntSnoc(s[1..], y, x);
    }
  }

  lemma {:induction false} OrderlySnoc(s: seq<Cmd>, y: Cmd)
    requires Orderly(s) && (y.TermReq? ==> Cnt(s, TermAck(y.c)) == 0)
    ensures Orderly(s + [y])
  {
    if s != [] {
      assert (s + [y])[1..] == s[1..] + [y];
      OrderlySnoc(s[1..], y);
    }
  }

  lemma {:induction false} CntIn(s: seq<Cmd>, x: Cmd)
    ensures Cnt(s, x) > 0 <==> x in s
    ensures Sequenced(x) && x in s ==> SeqCount(s) > 0
  {
    if s != [] {
      CntIn(s[1..], x);
    }
  }

  // ---- the invariant ----

  predicate IsChild(t: seq<Obj>, c: Id, p: int) {
    0 < c < |t| && t[c].owner == p
  }

  predicate InWait(l: Life) {
    l == Told || l == Ending || l == Acked
  }

  /** The children of p that were told to terminate and whose ack p has not processed. */
  function Waiting(t: seq<Obj>, p: int): set<Id> {
    set c: Id | c < |t| && t[c].owner == p && InWait(t[c].life)
  }

  predicate LifeOk(o: Obj) {
    && (o.life == Plugged || o.life == Launching || o.life == Owned || o.life == Told ==> o.alive && !o.terminating)
    && (o.life == Ending ==> o.alive && o.terminating)
    && (o.life == Acked || o.life == Done ==> !o.alive && o.terminating)
  }

  /** What one object and its mailbox keep. `busy` is the object whose handler is under way. */
  predicate Node(t: seq<Obj>, i: Id, busy: int)
    requires i < |t|
  {
    var o := t[i];
    && LifeOk(o) && Orderly(o.inbox)
    && o.sentSeq == o.processed + SeqCount(o.inbox) + o.reserved
    && o.termAcks == |Waiting(t, i)| + o.events
    && (o.terminating ==> o.owned == {})
    && (o.alive && i != busy ==> !Finished(o))
    && (!o.alive ==> o.inbox == [] && o.reserved == 0 && o.events == 0)
    && (o.plugged == NOBODY || (o.alive && 0 <= o.plugged && IsChild(t, o.plugged, i)))
    && (forall c :: c in o.owned ==> IsChild(t, c, i))
    && (forall x :: x in o.inbox && Names(x) ==> IsChild(t, x.c, i))
  }

  /** What holds between an object and its owner: exactly one of the ways to have it at hand. */
  predicate Edge(t: seq<Obj>, c: Id)
    requires c < |t|
  {
    var o := t[c];
    && 0 <= o.owner < c
    && var p := t[o.owner];
       && (p.plugged == c <==> o.life == Plugged)
       && (c in p.owned <==> o.life == Owned)
       && Cnt(p.inbox, Own(c)) == (if o.life == Launching then 1 else 0)
       && Cnt(o.inbox, Term) == (if o.life == Told then 1 else 0)
       && Cnt(p.inbox, TermAck(c)) == (if o.life == Acked then 1 else 0)
       && (o.life != Done ==> p.alive)
       && (TermReq(c) in p.inbox ==> o.life != Done)
  }

  predicate RootOk(o: Obj) {
    o.owner < 0 && (o.life == Owned || o.life == Ending || o.life == Done) && Cnt(o.inbox, Term) == 0
  }

  predicate Inv(s: Tree, busy: int) {
    && !s.failed && |s.t| > 0 && RootOk(s.t[0])
    && (forall i: Id :: i < |s.t| ==> Node(s.t, i, busy))
    && (forall c: Id :: 0 < c < |s.t| ==> Edge(s.t, c))
  }

  // ---- changing one or two objects ----

  /** `o'` is as good as `o` to every object but itself. */
  ghost predicate SameOutside(o: Obj, o': Obj) {
    && o'.owner == o.owner && o'.owned == o.owned && o'.alive == o.alive && InWait(o'.life) == InWait(o.life)
    && o'.plugged == o.plugged
    && (forall x: Cmd :: x.Own? || x.TermAck? ==> Cnt(o'.inbox, x) == Cnt(o.inbox, x))
    && (forall x: Cmd :: x.TermReq? && x in o'.inbox ==> x in o.inbox)
  }

  lemma WaitingSame(t: seq<Obj>, t': seq<Obj>, p: int)
    requires |t| == |t'|
    requires forall c: Id :: c < |t| ==> t'[c].owner == t[c].owner
    requires forall c: Id :: c < |t| && t[c].owner == p ==> InWait(t'[c].life) == InWait(t[c].life)
    ensures Waiting(t', p) == Waiting(t, p)
  {
  }

  lemma OneChangedNode(t: seq<Obj>, i: Id, o': Obj, k: Id, busy: int, busy': int)
    requires i < |t| && k < |t| && k != i && SameOutside(t[i], o') && Node(t, k, busy)
    requires busy == busy' || busy == i || busy == NOBODY
    ensures Node(t[i := o'], k, busy')
  {
    WaitingSame(t, t[i := o'], k);
    hide Waiting, Orderly, SeqCount, Cnt;
  }

  lemma OneChangedEdge(t: seq<Obj>, i: Id, o': Obj, c: Id)
    requires i < |t| && 0 < c < |t| && SameOutside(t[i], o') && Edge(t, c)
    requires i > 0 ==> o'.life == t[i].life && Cnt(o'.inbox, Term) == Cnt(t[i].inbox, Term)
    ensures Edge(t[i := o'], c)
  {
    hide Cnt;
  }

  /** A change within one object. */
  lemma OneChanged(s: Tree, i: Id, o': Obj, busy: int, busy': int)
    requires Inv(s, busy) && i < |s.t| && SameOutside(s.t[i], o')
    requires busy == busy' || busy == i || busy == NOBODY
    requires Node(s.t[i := o'], i, busy')
    requires i > 0 ==> o'.life == s.t[i].life && Cnt(o'.inbox, Term) == Cnt(s.t[i].inbox, Term)
    requires i == 0 ==> RootOk(o')
    ensures Inv(Set(s, i, o'), busy')
  {
    var t, t' := s.t, s.t[i := o'];
    assert RootOk(t'[0]);
    forall k: Id | k < |t'| ensures Node(t', k, busy') {
      if k != i {
        assert Node(t, k, busy);
        OneChangedNode(t, i, o', k, busy, busy');
      }
    }
    forall c: Id | 0 < c < |t'| ensures Edge(t', c) {
      assert Edge(t, c);
      OneChangedEdge(t, i, o', c);
    }
    hide Node, Edge, RootOk, SameOutside;
  }

  /** Destroying a finished object. Nothing can be in its mailbox and its children are all gone. */
  lemma FinishedIsAlone(s: Tree, i: Id)
    requires Inv(s, i) && i < |s.t| && s.t[i].alive && Finished(s.t[i]) && s.t[i].plugged == NOBODY
    ensures s.t[i].inbox == [] && s.t[i].reserved == 0 && s.t[i].events == 0 && s.t[i].owned == {}
    ensures forall c: Id :: IsChild(s.t, c, i) ==> s.t[c].life == Done
  {
    var o := s.t[i];
    assert Node(s.t, i, i);
    forall c: Id | IsChild(s.t, c, i) ensures s.t[c].life == Done {
      assert Edge(s.t, c);
      CntIn(o.inbox, Own(c));
      assert c !in Waiting(s.t, i);
    }
    assert i > 0 ==> Edge(s.t, i);
    forall x ensures x !in o.inbox {
      CntIn(o.inbox, x);
      assert Names(x) && IsChild(s.t, x.c, i) ==> Edge(s.t, x.c);
    }
    if o.inbox != [] {
      HasFirst(o.inbox);
    }
  }

  lemma HasFirst(s: seq<Cmd>)
    requires s != []
    ensures exists x :: x in s
  {
    assert s[0] in s;
  }

  /** Appending a command changes the counts of that command only. */
  lemma PutCounts(o: Obj, y: Cmd)
    ensures forall x :: Cnt(Put(o, y).inbox, x) == Cnt(o.inbox, x) + if x == y then 1 else 0
    ensures SeqCount(Put(o, y).inbox) == SeqCount(o.inbox) + if Sequenced(y) then 1 else 0
  {
    forall x ensures Cnt(Put(o, y).inbox, x) == Cnt(o.inbox, x) + if x == y then 1 else 0 {
      CntSnoc(o.inbox, y, x);
    }
    SeqCountSnoc(o.inbox, y);
  }

  lemma CheckInv(s: Tree, i: Id)
    requires Inv(s, i) && i < |s.t| && s.t[i].alive && s.t[i].plugged == NOBODY
    ensures Inv(CheckTermAcks(s, i), NOBODY)
  {
    var t, o := s.t, s.t[i];
    assert Node(t, i, i);
    if !Finished(o) {
      forall k: Id | k < |t| ensures Node(t, k, NOBODY) {
        assert Node(t, k, i);
      }
    } else {
      FinishedIsAlone(s, i);
      if i == 0 {
        DestroyRoot(s);
      } else {
        DestroyChild(s, i);
      }
    }
  }

  lemma DestroyRoot(s: Tree)
    requires Inv(s, 0) && Finished(s.t[0]) && s.t[0].alive && s.t[0].inbox == [] && s.t[0].reserved == 0
    requires s.t[0].plugged == NOBODY && s.t[0].events == 0
    requires s.t[0].owned == {} && forall c: Id :: IsChild(s.t, c, 0) ==> s.t[c].life == Done
    ensures Inv(CheckTermAcks(s, 0), NOBODY)
  {
    var t, t' := s.t, CheckTermAcks(s, 0).t;
    assert Node(t, 0, 0);
    forall k: Id | k < |t'| ensures Node(t', k, NOBODY) {
      assert Node(t, k, 0);
      WaitingSame(t, t', k);
    }
    forall c: Id | 0 < c < |t'| ensures Edge(t', c) {
      assert Edge(t, c);
    }
  }

  lemma DestroyChild(s: Tree, i: Id)
    requires Inv(s, i) && 0 < i < |s.t| && Finished(s.t[i]) && s.t[i].alive && s.t[i].inbox == []
    requires s.t[i].reserved == 0 && s.t[i].owned == {} && s.t[i].plugged == NOBODY && s.t[i].events == 0
    requires forall c: Id :: IsChild(s.t, c, i) ==> s.t[c].life == Done
    ensures Inv(CheckTermAcks(s, i), NOBODY)
  {
    var t, t' := s.t, CheckTermAcks(s, i).t;
    assert Edge(t, i);
    assert Node(t, i, i);
    forall k: Id | k < |t'| ensures Node(t', k, NOBODY) {
      DestroyChildNode(s, i, k);
    }
    forall c: Id | 0 < c < |t'| ensures Edge(t', c) {
      DestroyChildEdge(s, i, c);
    }
    assert RootOk(t'[0]) by {
      if t[i].owner == 0 {
        CntSnoc(t[0].inbox, TermAck(i), Term);
      }
    }
  }

  lemma DestroyChildNode(s: Tree, i: Id, k: Id)
    requires Inv(s, i) && 0 < i < |s.t| && Finished(s.t[i]) && s.t[i].alive && s.t[i].inbox == []
    requires s.t[i].reserved == 0 && s.t[i].owned == {} && k < |s.t| && s.t[i].plugged == NOBODY && s.t[i].events == 0
    ensures Node(CheckTermAcks(s, i).t, k, NOBODY)
  {
    var t, t' := s.t, CheckTermAcks(s, i).t;
    var p := t[i].owner;
    assert Edge(t, i);
    assert Node(t, k, i) && Node(t, i, i);
    WaitingSame(t, t', k);
    if k == p {
      SeqCountSnoc(t[p].inbox, TermAck(i));
      OrderlySnoc(t[p].inbox, TermAck(i));
    }
    hide Orderly, SeqCount, Cnt, Waiting;
  }

  lemma DestroyChildEdge(s: Tree, i: Id, c: Id)
    requires Inv(s, i) && 0 < i < |s.t| && Finished(s.t[i]) && s.t[i].alive && s.t[i].inbox == []
    requires 0 < c < |s.t| && forall c: Id :: IsChild(s.t, c, i) ==> s.t[c].life == Done
    ensures Edge(CheckTermAcks(s, i).t, c)
  {
    var t := s.t;
    assert Edge(t, i) && Edge(t, c);
    assert Node(t, i, i);
    PutCounts(t[t[i].owner], TermAck(i));
    hide Node, Cnt, SeqCount;
  }

  // ---- one object and one of its children ----

  /** `o'` treats every child but c as `o` does. */
  ghost predicate SameButFor(o: Obj, o': Obj, c: Id) {
    && o'.owner == o.owner && o'.alive == o.alive && o'.life == o.life
    && (forall k: Id :: k != c ==> (k in o'.owned <==> k in o.owned) && (o'.plugged == k <==> o.plugged == k))
    && (forall x: Cmd :: (x.Own? || x.TermAck?) && x.c != c ==> Cnt(o'.inbox, x) == Cnt(o.inbox, x))
    && (forall x: Cmd :: x.TermReq? && x in o'.inbox ==> x in o.inbox)
    && Cnt(o'.inbox, Term) == Cnt(o.inbox, Term)
  }

  ghost predicate ChildStep(d: Obj, d': Obj) {
    d' == d.(life := d'.life, inbox := d'.inbox) && LifeOk(d') && (d'.inbox == d.inbox || d'.inbox == d.inbox + [Term])
  }

  lemma ChildMove(s: Tree, i: Id, c: Id, o': Obj, d': Obj)
    requires Inv(s, NOBODY) && i < |s.t| && IsChild(s.t, c, i) && i != c
    requires SameButFor(s.t[i], o', c) && ChildStep(s.t[c], d')
    requires d'.alive || d'.inbox == []
    requires var t' := s.t[i := o'][c := d']; Node(t', i, i) && Edge(t', c)
    ensures Inv(s.(t := s.t[i := o'][c := d']), i)
  {
    var t, t' := s.t, s.t[i := o'][c := d'];
    forall k: Id | k < |t'| ensures Node(t', k, i) {
      if k != i {
        ChildMoveNode(s, i, c, o', d', k);
      }
    }
    forall k: Id | 0 < k < |t'| ensures Edge(t', k) {
      if k != c {
        ChildMoveEdge(s, i, c, o', d', k);
      }
    }
  }

  lemma ChildMoveNode(s: Tree, i: Id, c: Id, o': Obj, d': Obj, k: Id)
    requires Inv(s, NOBODY) && i < |s.t| && IsChild(s.t, c, i) && i != c && k != i && k < |s.t|
    requires SameButFor(s.t[i], o', c) && ChildStep(s.t[c], d')
    requires d'.alive || d'.inbox == []
    ensures Node(s.t[i := o'][c := d'], k, i)
  {
    var t, t' := s.t, s.t[i := o'][c := d'];
    assert Node(t, k, NOBODY);
    WaitingSame(t, t', k);
    if k == c {
      OrderlySnoc(t[c].inbox, Term);
      SeqCountSnoc(t[c].inbox, Term);
    }
    hide Orderly, SeqCount, Cnt, Waiting, Edge;
  }

  lemma ChildMoveEdge(s: Tree, i: Id, c: Id, o': Obj, d': Obj, k: Id)
    requires Inv(s, NOBODY) && i < |s.t| && IsChild(s.t, c, i) && i != c && k != c && 0 < k < |s.t|
    requires SameButFor(s.t[i], o', c) && ChildStep(s.t[c], d')
    ensures Edge(s.t[i := o'][c := d'], k)
  {
    assert Edge(s.t, k);
    if s.t[k].owner == c {
      PutCounts(s.t[c], Term);
    }
    hide Node, Waiting, Orderly, SeqCount, Cnt;
  }

  /** A child changes between being waited for and not. */
  lemma WaitingAdd(t: seq<Obj>, t': seq<Obj>, p: Id, c: Id)
    requires |t| == |t'| && c < |t| && t[c].owner == p && InWait(t[c].life) != InWait(t'[c].life)
    requires forall k: Id :: k < |t| ==> t'[k].owner == t[k].owner
    requires forall k: Id :: k < |t| && k != c && t[k].owner == p ==> InWait(t'[k].life) == InWait(t[k].life)
    ensures InWait(t'[c].life) ==> |Waiting(t', p)| == |Waiting(t, p)| + 1
    ensures InWait(t[c].life) ==> |Waiting(t', p)| == |Waiting(t, p)| - 1
  {
    if InWait(t'[c].life) {
      assert Waiting(t', p) == Waiting(t, p) + {c};
    } else {
      assert Waiting(t, p) == Waiting(t', p) + {c};
    }
  }

  /** Telling an owned child to terminate. */
  lemma TermReqInv(s: Tree, i: Id, c: Id)
    requires Inv(s, NOBODY) && i < |s.t| && c < |s.t| && s.t[i].alive && s.t[i].plugged == NOBODY
    ensures Inv(ProcessTermReq(s, i, c), NOBODY)
  {
    var t, o := s.t, s.t[i];
    assert Node(t, i, NOBODY);
    if !o.terminating && c in o.owned {
      assert IsChild(t, c, i) && Edge(t, c);
      var o' := o.(owned := o.owned - {c}, termAcks := o.termAcks + 1);
      var d' := Put(t[c], Term).(life := Told);
      assert Node(t, c, NOBODY);
      ReqNode(t, t[i := o'][c := d'], i, c);
      PutCounts(t[c], Term);
      ChildMove(s, i, c, o', d');
      CheckInv(s.(t := t[i := o'][c := d']), i);
      hide Inv;
    }
  }

  lemma ReqNode(t: seq<Obj>, t': seq<Obj>, i: Id, c: Id)
    requires i < |t| == |t'| && i < c < |t| && Node(t, i, NOBODY) && t[c].owner == i && t[c].life == Owned
    requires t' == t[i := t[i].(owned := t[i].owned - {c}, termAcks := t[i].termAcks + 1)][c := Put(t[c], Term).(life := Told)]
    ensures Node(t', i, i)
  {
    WaitingAdd(t, t', i, c);
    hide Waiting;
  }

  /** The mailbox without its first command. */
  function Popped(o: Obj): Obj
    requires o.inbox != []
  {
    o.(inbox := o.inbox[1..])
  }

  lemma DeliverOwn(s: Tree, i: Id, c: Id)
    requires Inv(s, NOBODY) && i < |s.t| && s.t[i].inbox != [] && s.t[i].plugged == NOBODY && s.t[i].inbox[0] == Own(c)
    ensures Inv(Handle(Set(s, i, Popped(s.t[i])), i, Own(c)), NOBODY)
  {
    var t, o := s.t, s.t[i];
    assert Node(t, i, NOBODY) && Own(c) in o.inbox;
    assert IsChild(t, c, i) && Edge(t, c);
    CntIn(o.inbox, Own(c));
    assert t[c].life == Launching && Node(t, c, NOBODY);
    var q := Popped(o).(processed := o.processed + 1);
    var o' := if o.terminating then q.(termAcks := o.termAcks + 1) else q.(owned := o.owned + {c});
    var d' := if o.terminating then Put(t[c], Term).(life := Told) else t[c].(life := Owned);
    var t' := t[i := o'][c := d'];
    OwnEdge(t, t', i, c);
    OwnNode(t, t', i, c);
    OwnResult(s, i, c, o', d');
    OwnSame(o, o', c);
    hide Handle, Node, Edge, SameButFor, CheckTermAcks;
    ChildMove(s, i, c, o', d');
    hide Inv;
    CheckInv(s.(t := t'), i);
  }

  lemma OwnSame(o: Obj, o': Obj, c: Id)
    requires o.inbox != [] && o.inbox[0] == Own(c)
    requires o' == Popped(o).(processed := o'.processed, termAcks := o'.termAcks, owned := o'.owned)
    requires o'.owned == o.owned || o'.owned == o.owned + {c}
    ensures SameButFor(o, o', c)
  {
  }

  lemma OwnNode(t: seq<Obj>, t': seq<Obj>, i: Id, c: Id)
    requires i < |t| == |t'| && i < c < |t| && Node(t, i, NOBODY) && t[c].owner == i && t[c].life == Launching
    requires t[i].inbox != [] && t[i].inbox[0] == Own(c)
    requires var q := Popped(t[i]).(processed := t[i].processed + 1);
             if t[i].terminating
             then t' == t[i := q.(termAcks := t[i].termAcks + 1)][c := Put(t[c], Term).(life := Told)]
             else t' == t[i := q.(owned := t[i].owned + {c})][c := t[c].(life := Owned)]
    ensures Node(t', i, i)
  {
    if t[i].terminating {
      WaitingAdd(t, t', i, c);
    } else {
      WaitingSame(t, t', i);
    }
    hide Waiting;
  }

  lemma OwnResult(s: Tree, i: Id, c: Id, o': Obj, d': Obj)
    requires i < c < |s.t| && s.t[i].inbox != [] && s.t[i].alive
    requires var o := s.t[i];
             var q := Popped(o).(processed := o.processed + 1);
             && o' == (if o.terminating then q.(termAcks := o.termAcks + 1) else q.(owned := o.owned + {c}))
             && d' == if o.terminating then Put(s.t[c], Term).(life := Told) else s.t[c].(life := Owned)
    ensures Handle(Set(s, i, Popped(s.t[i])), i, Own(c)) == CheckTermAcks(s.(t := s.t[i := o'][c := d']), i)
  {
    var u := ProcessOwn(Set(s, i, Popped(s.t[i])), i, c);
    assert Set(u, i, u.t[i].(processed := u.t[i].processed + 1)).t == s.t[i := o'][c := d'];
    hide CheckTermAcks;
  }

  lemma OwnEdge(t: seq<Obj>, t': seq<Obj>, i: Id, c: Id)
    requires i < |t| == |t'| && i < c < |t| && Edge(t, c) && t[c].owner == i && t[c].life == Launching
    requires t[i].inbox != [] && t[i].inbox[0] == Own(c) && t'[i].inbox == t[i].inbox[1..]
    requires t'[i].alive == t[i].alive && t'[i].plugged == t[i].plugged && t'[c].owner == i
    requires (t'[i].owned == t[i].owned && t'[c] == Put(t[c], Term).(life := Told))
          || (t'[i].owned == t[i].owned + {c} && t'[c] == t[c].(life := Owned))
    ensures Edge(t', c)
  {
    PutCounts(t[c], Term);
  }

  lemma DeliverTermAck(s: Tree, i: Id, c: Id)
    requires Inv(s, NOBODY) && i < |s.t| && s.t[i].inbox != [] && s.t[i].plugged == NOBODY && s.t[i].inbox[0] == TermAck(c)
    ensures Inv(Handle(Set(s, i, Popped(s.t[i])), i, TermAck(c)), NOBODY)
  {
    var t, o := s.t, s.t[i];
    assert Node(t, i, NOBODY) && TermAck(c) in o.inbox;
    assert IsChild(t, c, i) && Edge(t, c);
    assert Node(t, c, NOBODY);
    CntIn(o.inbox, TermAck(c));
    assert c in Waiting(t, i);
    var o' := Popped(o).(termAcks := o.termAcks - 1);
    var d' := t[c].(life := Done);
    var t' := t[i := o'][c := d'];
    AckNode(t, t', i, c);
    AckEdge(t, t', i, c);
    AckResult(s, i, c);
    AckSame(o, o', c);
    hide Handle, Waiting, Node, Edge, SameButFor, CheckTermAcks;
    ChildMove(s, i, c, o', d');
    hide Inv;
    CheckInv(s.(t := t'), i);
  }

  lemma AckNode(t: seq<Obj>, t': seq<Obj>, i: Id, c: Id)
    requires i < |t| == |t'| && i < c < |t| && Node(t, i, NOBODY) && t[c].owner == i && t[c].life == Acked
    requires t[i].inbox != [] && t[i].inbox[0] == TermAck(c)
    requires t' == t[i := Popped(t[i]).(termAcks := t[i].termAcks - 1)][c := t[c].(life := Done)]
    ensures Node(t', i, i)
  {
    WaitingAdd(t, t', i, c);
    hide Waiting;
  }

  lemma AckSame(o: Obj, o': Obj, c: Id)
    requires o.inbox != [] && o.inbox[0] == TermAck(c) && o' == Popped(o).(termAcks := o'.termAcks)
    ensures SameButFor(o, o', c)
  {
  }

  lemma AckEdge(t: seq<Obj>, t': seq<Obj>, i: Id, c: Id)
    requires i < |t| == |t'| && i < c < |t| && Edge(t, c) && t[c].owner == i && t[c].life == Acked
    requires t[i].inbox != [] && t[i].inbox[0] == TermAck(c) && Orderly(t[i].inbox)
    requires t'[i] == Popped(t[i]).(termAcks := t'[i].termAcks) && t'[c] == t[c].(life := Done)
    ensures Edge(t', c)
  {
  }

  lemma AckResult(s: Tree, i: Id, c: Id)
    requires i < c < |s.t| && s.t[i].inbox != [] && s.t[i].alive && s.t[i].termAcks > 0
    ensures Handle(Set(s, i, Popped(s.t[i])), i, TermAck(c))
         == CheckTermAcks(s.(t := s.t[i := Popped(s.t[i]).(termAcks := s.t[i].termAcks - 1)][c := s.t[c].(life := Done)]), i)
  {
    var o' := Popped(s.t[i]).(termAcks := s.t[i].termAcks - 1);
    var d' := s.t[c].(life := Done);
    assert s.t[i := Popped(s.t[i])][c := d'][i := o'] == s.t[i := o'][c := d'];
    hide CheckTermAcks;
  }

  // ---- telling all children at once ----

  lemma WaitingAll(t: seq<Obj>, t': seq<Obj>, i: Id, cs: set<Id>)
    requires |t| == |t'| && forall k: Id :: k < |t| ==> t'[k].owner == t[k].owner
    requires forall c :: c in cs ==> c < |t| && t[c].owner == i && !InWait(t[c].life) && InWait(t'[c].life)
    requires forall k: Id :: k < |t| && k !in cs && t[k].owner == i ==> InWait(t'[k].life) == InWait(t[k].life)
    ensures |Waiting(t', i)| == |Waiting(t, i)| + |cs|
  {
    assert Waiting(t', i) == Waiting(t, i) + cs;
    assert Waiting(t, i) !! cs;
  }

  /** i starts to terminate and has told its children. */
  ghost predicate Spread(t: seq<Obj>, t': seq<Obj>, i: Id, b: seq<Cmd>)
    requires i < |t|
  {
    && |t'| == |t| && t'[i] == Begun(t[i].(inbox := b))
    && (forall k: Id :: k < |t| && k != i && k in t[i].owned ==> t'[k] == Put(t[k], Term).(life := Told))
    && (forall k: Id :: k < |t| && k != i && k !in t[i].owned ==> t'[k] == t[k])
  }

  /** `b` is the mailbox of i after the command that made it terminate, if there was one. */
  predicate Rest(o: Obj, i: Id, b: seq<Cmd>) {
    if i == 0 then b == o.inbox else o.inbox != [] && o.inbox[0] == Term && b == o.inbox[1..]
  }

  lemma OwnedLife(s: Tree, i: Id, c: Id)
    requires Inv(s, NOBODY) && i < |s.t| && c in s.t[i].owned
    ensures i < c < |s.t| && s.t[c].owner == i && s.t[c].life == Owned
  {
    assert Node(s.t, i, NOBODY);
    assert IsChild(s.t, c, i) && Edge(s.t, c);
  }

  lemma SpreadOwners(s: Tree, t': seq<Obj>, i: Id, b: seq<Cmd>)
    requires Inv(s, NOBODY) && i < |s.t| && Spread(s.t, t', i, b)
    ensures forall k: Id :: k < |s.t| ==> t'[k].owner == s.t[k].owner
    ensures |Waiting(t', i)| == |Waiting(s.t, i)| + |s.t[i].owned|
    ensures forall k: Id :: k < |s.t| && k != i && s.t[i].owner != k ==> Waiting(t', k) == Waiting(s.t, k)
  {
    var t := s.t;
    forall c | c in t[i].owned ensures i < c < |t| && t[c].owner == i && t[c].life == Owned {
      OwnedLife(s, i, c);
    }
    assert i > 0 ==> Edge(t, i);
    WaitingAll(t, t', i, t[i].owned);
    forall k: Id | k < |t| && k != i && t[i].owner != k ensures Waiting(t', k) == Waiting(t, k) {
      WaitingSame(t, t', k);
    }
  }

  lemma SpreadNode(s: Tree, t': seq<Obj>, i: Id, b: seq<Cmd>, k: Id)
    requires Inv(s, NOBODY) && i < |s.t| && s.t[i].alive && s.t[i].plugged == NOBODY && !s.t[i].terminating && k < |s.t|
    requires Rest(s.t[i], i, b) && Spread(s.t, t', i, b)
    ensures Node(t', k, i)
  {
    var t := s.t;
    assert Node(t, k, NOBODY);
    SpreadOwners(s, t', i, b);
    if k == i {
      assert forall x :: x in b ==> x in t[i].inbox;
    } else {
      if t[i].owner == k {
        assert Edge(t, i);
        SpreadParent(s, t', i, b);
      }
      if k in t[i].owned {
        OwnedLife(s, i, k);
        OrderlySnoc(t[k].inbox, Term);
        SeqCountSnoc(t[k].inbox, Term);
      }
    }
    hide Edge, Waiting, Cnt;
  }

  /** The owner of i goes on waiting for it. */
  lemma SpreadParent(s: Tree, t': seq<Obj>, i: Id, b: seq<Cmd>)
    requires Inv(s, NOBODY) && 0 < i < |s.t| && Rest(s.t[i], i, b) && Spread(s.t, t', i, b)
    ensures Waiting(t', s.t[i].owner) == Waiting(s.t, s.t[i].owner)
  {
    var t := s.t;
    assert Edge(t, i);
    CntIn(t[i].inbox, Term);
    forall c | c in t[i].owned ensures i < c < |t| && t[c].owner == i {
      OwnedLife(s, i, c);
    }
    WaitingSame(t, t', t[i].owner);
  }

  lemma SpreadEdge(s: Tree, t': seq<Obj>, i: Id, b: seq<Cmd>, c: Id)
    requires Inv(s, NOBODY) && i < |s.t| && s.t[i].alive && s.t[i].plugged == NOBODY && !s.t[i].terminating && 0 < c < |s.t|
    requires Rest(s.t[i], i, b) && Spread(s.t, t', i, b)
    ensures Edge(t', c)
  {
    var t := s.t;
    var p := t[c].owner;
    assert Edge(t, c);
    RestCounts(t[i], i, b);
    CntIn(t[i].inbox, Term);
    if c in t[i].owned {
      OwnedLife(s, i, c);
    }
    if p in t[i].owned {
      OwnedLife(s, i, p);
    }
    PutCounts(t[c], Term);
    PutCounts(t[p], Term);
    hide Cnt, Node;
  }

  lemma RestCounts(o: Obj, i: Id, b: seq<Cmd>)
    requires Rest(o, i, b)
    ensures forall x: Cmd :: x != Term ==> Cnt(b, x) == Cnt(o.inbox, x)
    ensures i > 0 ==> Cnt(b, Term) == Cnt(o.inbox, Term) - 1
    ensures forall x :: x in b ==> x in o.inbox
  {
  }

  lemma SpreadInv(s: Tree, t': seq<Obj>, i: Id, b: seq<Cmd>)
    requires Inv(s, NOBODY) && i < |s.t| && s.t[i].alive && s.t[i].plugged == NOBODY && !s.t[i].terminating
    requires Rest(s.t[i], i, b) && Spread(s.t, t', i, b)
    ensures Inv(s.(t := t'), i)
  {
    forall k: Id | k < |t'| ensures Node(t', k, i) {
      SpreadNode(s, t', i, b, k);
    }
    forall c: Id | 0 < c < |t'| ensures Edge(t', c) {
      SpreadEdge(s, t', i, b, c);
    }
    assert RootOk(t'[0]) by {
      if 0 in s.t[i].owned {
        OwnedLife(s, i, 0);
      }
    }
  }

  /** The table after i has started to terminate. */
  function Told'(t: seq<Obj>, i: Id, b: seq<Cmd>): seq<Obj>
    requires i < |t|
  {
    TellAll(t[i := t[i].(inbox := b)][i := Begun(t[i].(inbox := b))], t[i].owned)
  }

  lemma TellAllSpreads(t: seq<Obj>, i: Id, b: seq<Cmd>)
    requires i < |t| && i !in t[i].owned
    ensures Spread(t, Told'(t, i, b), i, b) && |Told'(t, i, b)| == |t| && Told'(t, i, b)[i] == Begun(t[i].(inbox := b))
  {
    var u := t[i := t[i].(inbox := b)][i := Begun(t[i].(inbox := b))];
    assert forall k: Id :: k < |t| && k != i ==> u[k] == t[k];
    hide Begun, Put;
  }

  lemma TermResult(s: Tree, i: Id, b: seq<Cmd>)
    requires i < |s.t| && !s.t[i].terminating
    ensures |Told'(s.t, i, b)| == |s.t|
    ensures ProcessTerm(Set(s, i, s.t[i].(inbox := b)), i) == CheckTermAcks(s.(t := Told'(s.t, i, b)), i)
  {
    hide CheckTermAcks;
  }

  lemma TermInv(s: Tree, i: Id, b: seq<Cmd>)
    requires Inv(s, NOBODY) && i < |s.t| && s.t[i].alive && s.t[i].plugged == NOBODY && !s.t[i].terminating && Rest(s.t[i], i, b)
    ensures Inv(ProcessTerm(Set(s, i, s.t[i].(inbox := b)), i), NOBODY)
  {
    hide Inv, Spread, Told', ProcessTerm;
    if i in s.t[i].owned {
      OwnedLife(s, i, i);
    }
    TellAllSpreads(s.t, i, b);
    SpreadInv(s, Told'(s.t, i, b), i, b);
    CheckInv(s.(t := Told'(s.t, i, b)), i);
    TermResult(s, i, b);
  }

  // ---- the other moves ----

  lemma DeliverTerm(s: Tree, i: Id)
    requires Inv(s, NOBODY) && i < |s.t| && s.t[i].inbox != [] && s.t[i].plugged == NOBODY && s.t[i].inbox[0] == Term
    ensures Inv(Handle(Set(s, i, Popped(s.t[i])), i, Term), NOBODY)
  {
    var o := s.t[i];
    assert Node(s.t, i, NOBODY);
    CntIn(o.inbox, Term);
    assert i > 0 && Edge(s.t, i);
    TermInv(s, i, o.inbox[1..]);
  }

  lemma DeliverPlain(s: Tree, i: Id)
    requires Inv(s, NOBODY) && i < |s.t| && s.t[i].inbox != [] && s.t[i].plugged == NOBODY && (s.t[i].inbox[0] == Plug || s.t[i].inbox[0] == SeqCmd)
    ensures Inv(Handle(Set(s, i, Popped(s.t[i])), i, s.t[i].inbox[0]), NOBODY)
  {
    var o := s.t[i];
    var o' := Popped(o).(processed := o.processed + 1);
    assert Node(s.t, i, NOBODY);
    WaitingSame(s.t, s.t[i := o'], i);
    OneChanged(s, i, o', NOBODY, i);
    CheckInv(Set(s, i, o'), i);
    assert s.t[i := Popped(o)][i := o'] == s.t[i := o'];
    hide Inv, CheckTermAcks;
  }

  lemma DeliverTermReq(s: Tree, i: Id, c: Id)
    requires Inv(s, NOBODY) && i < |s.t| && s.t[i].inbox != [] && s.t[i].plugged == NOBODY && s.t[i].inbox[0] == TermReq(c)
    ensures Inv(Handle(Set(s, i, Popped(s.t[i])), i, TermReq(c)), NOBODY)
  {
    var o := s.t[i];
    assert Node(s.t, i, NOBODY) && TermReq(c) in o.inbox && IsChild(s.t, c, i);
    WaitingSame(s.t, s.t[i := Popped(o)], i);
    OneChanged(s, i, Popped(o), NOBODY, NOBODY);
    TermReqInv(Set(s, i, Popped(o)), i, c);
  }

  lemma DeliverInv(s: Tree, i: Id)
    requires Inv(s, NOBODY) && i < |s.t| && s.t[i].inbox != [] && s.t[i].plugged == NOBODY
    ensures Inv(Step(s, Deliver(i)), NOBODY)
  {
    hide Inv;
    match s.t[i].inbox[0]
    case Plug => DeliverPlain(s, i);
    case SeqCmd => DeliverPlain(s, i);
    case Own(c) => DeliverOwn(s, i, c);
    case TermReq(c) => DeliverTermReq(s, i, c);
    case Term => DeliverTerm(s, i);
    case TermAck(c) => DeliverTermAck(s, i, c);
  }

  /** Counters of one object change. */
  lemma CountersInv(s: Tree, i: Id, o': Obj, busy: int)
    requires Inv(s, NOBODY) && i < |s.t| && busy in {NOBODY, i}
    requires o' == s.t[i].(sentSeq := o'.sentSeq, reserved := o'.reserved, termAcks := o'.termAcks, events := o'.events, inbox := o'.inbox)
    requires o'.inbox == s.t[i].inbox || o'.inbox == s.t[i].inbox + [SeqCmd]
    requires o'.sentSeq == o'.processed + SeqCount(o'.inbox) + o'.reserved
    requires o'.termAcks - o'.events == s.t[i].termAcks - s.t[i].events
    requires o'.alive && busy != i ==> !Finished(o')
    requires !o'.alive ==> o'.inbox == [] && o'.reserved == 0 && o'.events == 0
    ensures Inv(Set(s, i, o'), busy)
  {
    assert Node(s.t, i, NOBODY);
    PutCounts(s.t[i], SeqCmd);
    OrderlySnoc(s.t[i].inbox, SeqCmd);
    WaitingSame(s.t, s.t[i := o'], i);
    OneChanged(s, i, o', NOBODY, busy);
  }

  /** A request joins the mailbox of the owner behind everything sent before. */
  lemma RequestInv(s: Tree, i: Id)
    requires Inv(s, NOBODY) && 0 < i < |s.t| && s.t[i].alive
    ensures var p := s.t[i].owner; 0 <= p < |s.t| && Inv(Set(s, p, Put(s.t[p], TermReq(i))), NOBODY)
  {
    var t, p := s.t, s.t[i].owner;
    assert Edge(t, i) && Node(t, i, NOBODY);
    assert Node(t, p, NOBODY);
    var t' := t[p := Put(t[p], TermReq(i))];
    PutCounts(t[p], TermReq(i));
    OrderlySnoc(t[p].inbox, TermReq(i));
    forall k: Id | k < |t'| ensures Node(t', k, NOBODY) {
      assert Node(t, k, NOBODY);
      RequestNode(t, i, p, k);
    }
    forall c: Id | 0 < c < |t'| ensures Edge(t', c) {
      assert Edge(t, c);
      RequestEdge(t, i, p, c);
    }
    assert RootOk(t'[0]);
    hide Node, Edge, RootOk;
  }

  lemma RequestNode(t: seq<Obj>, i: Id, p: Id, k: Id)
    requires p < i < |t| && k < |t| && t[i].owner == p && t[p].alive && Node(t, k, NOBODY)
    requires Orderly(Put(t[p], TermReq(i)).inbox)
    ensures Node(t[p := Put(t[p], TermReq(i))], k, NOBODY)
  {
    WaitingSame(t, t[p := Put(t[p], TermReq(i))], k);
    SeqCountSnoc(t[p].inbox, TermReq(i));
    hide Waiting, Orderly, SeqCount, Cnt;
  }

  lemma RequestEdge(t: seq<Obj>, i: Id, p: Id, c: Id)
    requires p < i < |t| && 0 < c < |t| && t[i].owner == p && t[i].life != Done && Edge(t, c)
    ensures Edge(t[p := Put(t[p], TermReq(i))], c)
  {
    PutCounts(t[p], TermReq(i));
    hide Cnt, SeqCount;
  }

  /** A child is plugged in; its owner is in the middle of launching it. */
  lemma LaunchInv(s: Tree, i: Id)
    requires Inv(s, NOBODY) && i < |s.t| && s.t[i].alive && s.t[i].plugged == NOBODY
    ensures Inv(Step(s, Launch(i)), NOBODY)
  {
    var t, t' := s.t, Step(s, Launch(i)).t;
    var n := |t|;
    assert Node(t, i, NOBODY);
    forall x | x in t[i].inbox && Names(x) ensures x.c < n {
      assert IsChild(t, x.c, i);
    }
    CntIn(t[i].inbox, Own(n));
    CntIn(t[i].inbox, TermAck(n));
    forall j: Id | j < n ensures t[j].owner < j {
      assert j > 0 ==> Edge(t, j);
    }
    forall k: Id | k < |t'| ensures Node(t', k, NOBODY) {
      LaunchNode(t, t', i, k);
    }
    forall c: Id | 0 < c < |t'| ensures Edge(t', c) {
      if c < n {
        assert Edge(t, c);
      }
    }
  }

  lemma LaunchNode(t: seq<Obj>, t': seq<Obj>, i: Id, k: Id)
    requires i < |t| && k <= |t| && (k < |t| ==> Node(t, k, NOBODY)) && t[i].alive
    requires forall j: Id :: j < |t| ==> t[j].owner < j
    requires t' == t[i := t[i].(plugged := |t|)] + [Child(i)]
    ensures Node(t', k, NOBODY)
  {
    if k < |t| {
      assert Waiting(t', k) == Waiting(t, k);
    } else {
      assert Waiting(t', k) == {};
      assert SeqCount([Plug]) == 1;
    }
    hide Waiting, SeqCount;
  }

  /** Then `own` is sent. */
  lemma SendOwnInv(s: Tree, i: Id)
    requires Inv(s, NOBODY) && i < |s.t| && 0 <= s.t[i].plugged < |s.t|
    ensures Inv(Step(s, SendOwn(i)), NOBODY)
  {
    var t, o := s.t, s.t[i];
    var c: Id := o.plugged;
    assert Node(t, i, NOBODY) && IsChild(t, c, i);
    assert Edge(t, c) && Node(t, c, NOBODY);
    var o' := Put(o, Own(c)).(sentSeq := o.sentSeq + 1, plugged := NOBODY);
    var d' := t[c].(life := Launching);
    var t' := t[i := o'][c := d'];
    PutCounts(o, Own(c));
    OwnSent(t, t', i, c);
    ChildMove(s, i, c, o', d');
    Unbusy(s.(t := t'), i);
    assert Step(s, SendOwn(i)) == s.(t := t');
  }

  lemma OwnSent(t: seq<Obj>, t': seq<Obj>, i: Id, c: Id)
    requires i < |t| == |t'| && i < c < |t| && Node(t, i, NOBODY) && Edge(t, c) && t[c].owner == i && t[c].life == Plugged
    requires t' == t[i := Put(t[i], Own(c)).(sentSeq := t[i].sentSeq + 1, plugged := NOBODY)][c := t[c].(life := Launching)]
    ensures Node(t', i, i) && Edge(t', c) && !Finished(t'[i])
  {
    PutCounts(t[i], Own(c));
    OrderlySnoc(t[i].inbox, Own(c));
    WaitingSame(t, t', i);
    hide Waiting, Orderly, Cnt, SeqCount;
  }

  /** The handler is done, and the object goes on. */
  lemma Unbusy(s: Tree, i: Id)
    requires Inv(s, i) && i < |s.t| && !Finished(s.t[i])
    ensures Inv(s, NOBODY)
  {
    forall k: Id | k < |s.t| ensures Node(s.t, k, NOBODY) {
      assert Node(s.t, k, i);
    }
  }

  lemma StepInv(s: Tree, m: Move)
    requires Inv(s, NOBODY) && Enabled(s, m)
    ensures Inv(Step(s, m), NOBODY)
  {
    hide Inv;
    match m
    case Launch(i) => LaunchInv(s, i);
    case SendOwn(i) => SendOwnInv(s, i);
    case Terminate(i) => TerminateInv(s, i);
    case TermChild(i, c) => TermReqInv(s, i, c);
    case UnregisterAck(i) => UnregisterInv(s, i);
    case Deliver(i) => DeliverInv(s, i);
    case _ => CountingInv(s, m);
  }

  lemma CountingInv(s: Tree, m: Move)
    requires Inv(s, NOBODY) && Enabled(s, m) && (m.IncSeqnum? || m.SendSeq? || m.RegisterAck?)
    ensures Inv(Step(s, m), NOBODY)
  {
    var o := s.t[m.i];
    assert Node(s.t, m.i, NOBODY);
    SeqCountSnoc(o.inbox, SeqCmd);
    match m
    case IncSeqnum(i) => CountersInv(s, i, o.(sentSeq := o.sentSeq + 1, reserved := o.reserved + 1), NOBODY);
    case SendSeq(i) => CountersInv(s, i, Put(o, SeqCmd).(reserved := o.reserved - 1), NOBODY);
    case RegisterAck(i) => CountersInv(s, i, o.(termAcks := o.termAcks + 1, events := o.events + 1), NOBODY);
  }

  lemma UnregisterInv(s: Tree, i: Id)
    requires Inv(s, NOBODY) && Enabled(s, UnregisterAck(i))
    ensures Inv(Step(s, UnregisterAck(i)), NOBODY)
  {
    var o := s.t[i];
    assert Node(s.t, i, NOBODY);
    var o' := o.(termAcks := o.termAcks - 1, events := o.events - 1);
    CountersInv(s, i, o', i);
    CheckInv(Set(s, i, o'), i);
    assert s.t[i := o.(events := o.events - 1)][i := o'] == s.t[i := o'];
  }

  lemma TerminateInv(s: Tree, i: Id)
    requires Inv(s, NOBODY) && i < |s.t| && s.t[i].alive && s.t[i].plugged == NOBODY
    ensures Inv(Step(s, Terminate(i)), NOBODY)
  {
    if !s.t[i].terminating {
      if i == 0 {
        TermInv(s, 0, s.t[0].inbox);
        assert Set(s, 0, s.t[0].(inbox := s.t[0].inbox)) == s;
      } else {
        var o := s.t[i];
        var o' := o.(asked := o.asked || o.life != Plugged);
        assert Node(s.t, i, NOBODY) && Edge(s.t, i);
        WaitingSame(s.t, s.t[i := o'], i);
        OneChanged(s, i, o', NOBODY, NOBODY);
        hide Inv;
        RequestInv(Set(s, i, o'), i);
      }
    }
  }

  lemma {:induction false} RunInv(run: seq<Move>)
    ensures Inv(Exec(run), NOBODY)
    decreases |run|
  {
    if run == [] {
      assert Waiting(Start().t, 0) == {};
    } else {
      RunInv(run[..|run| - 1]);
      var s := Exec(run[..|run| - 1]);
      if Enabled(s, run[|run| - 1]) {
        StepInv(s, run[|run| - 1]);
      }
    }
  }

  // ---- what it means for every run ----

  /** Safety: no assertion fails (so each object processes `term` at most once and no command
      reaches a destroyed object); the acks an object waits for are those of the children it told
      to terminate and has not heard from, plus its own events; and a destroyed object has no
      living child, no command in flight to it and none promised to it. */
  lemma ShutdownIsSafe(run: seq<Move>, i: Id)
    requires i < |Exec(run).t|
    ensures !Exec(run).failed
    ensures var t := Exec(run).t;
            && t[i].termAcks == |Waiting(t, i)| + t[i].events
            && (!t[i].alive ==> t[i].inbox == [] && t[i].reserved == 0)
            && (forall c: Id :: !t[i].alive && IsChild(t, c, i) ==> !t[c].alive)
  {
    RunInv(run);
    var t := Exec(run).t;
    assert Node(t, i, NOBODY);
    forall c: Id | !t[i].alive && IsChild(t, c, i) ensures !t[c].alive {
      assert Edge(t, c);
      assert Node(t, c, NOBODY);
    }
  }

  /** Nothing in flight, nothing promised, no event outstanding, no child half launched. */
  predicate AtRest(s: Tree) {
    forall i: Id :: i < |s.t| ==>
      s.t[i].inbox == [] && s.t[i].reserved == 0 && s.t[i].events == 0 && s.t[i].plugged == NOBODY
  }

  /** At rest an object cannot be caught half terminated: it would wait for a child that is. */
  lemma {:induction false} NoneHalfway(s: Tree, i: Id)
    requires Inv(s, NOBODY) && AtRest(s) && i < |s.t|
    ensures !(s.t[i].alive && s.t[i].terminating)
    decreases |s.t| - i
  {
    var t := s.t;
    assert Node(t, i, NOBODY);
    if t[i].alive && t[i].terminating {
      assert |Waiting(t, i)| > 0;
      var c :| c in Waiting(t, i);
      assert c > 0 by {
        assert RootOk(t[0]);
      }
      assert Edge(t, c);
      assert Node(t, c, NOBODY);
      NoneHalfway(s, c);
    }
  }

  lemma {:induction false} AllGone(s: Tree, i: Id)
    requires Inv(s, NOBODY) && AtRest(s) && i < |s.t| && s.t[0].terminating
    ensures !s.t[i].alive
    decreases i
  {
    assert Node(s.t, i, NOBODY);
    if i == 0 {
      NoneHalfway(s, 0);
    } else {
      assert Edge(s.t, i);
      AllGone(s, s.t[i].owner);
    }
  }

  /** Completion: once the root has started to terminate, a run can come to rest only with every
      object of the tree destroyed. */
  lemma ShutdownCompletes(run: seq<Move>)
    requires AtRest(Exec(run)) && |Exec(run).t| > 0 && Exec(run).t[0].terminating
    ensures forall i: Id :: i < |Exec(run).t| ==> !Exec(run).t[i].alive
  {
    RunInv(run);
    forall i: Id | i < |Exec(run).t| ensures !Exec(run).t[i].alive {
      AllGone(Exec(run), i);
    }
  }
}
