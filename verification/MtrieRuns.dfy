/** Matching, uniqueness of the canonical form, and whole runs of the trie. */
module MtrieRuns {
  import opened YPipes
  import opened Mtrie
  import MtriePipe

  // ---- matching ----

  ghost predicate Ascending(s: seq<PipeId>) {
    forall i, j :: 0 <= i < j < |s| ==> s[i] < s[j]
  }

  /** A set in the order in which the program iterates over it. */
  method Listed(pipes: set<PipeId>) returns (s: seq<PipeId>)
    ensures Ascending(s) && forall p :: p in s <==> p in pipes
  {
    s := [];
    var rest := pipes;
    while rest != {}
      invariant Ascending(s) && rest <= pipes && forall p :: p in s <==> p in pipes && p !in rest
      invariant forall p, q :: p in s && q in rest ==> p < q
      decreases rest
    {
      var least :| least in rest;
      var others := rest - {least};
      while others != {}
        invariant least in rest && others <= rest && forall p :: p in rest && p !in others ==> least <= p
        decreases others
      {
        var q :| q in others;
        if q < least {
          least := q;
        }
        others := others - {q};
      }
      assert forall p :: p in s ==> p < least;
      assert forall i :: 0 <= i < |s| ==> s[i] in s;
      s := s + [least];
      rest := rest - {least};
    }
  }

  function Joined(blocks: seq<seq<PipeId>>): seq<PipeId> {
    if blocks == [] then [] else Joined(blocks[..|blocks| - 1]) + blocks[|blocks| - 1]
  }

  /** `block` lists the subscribers of the topic, each once. */
  ghost predicate Lists(block: seq<PipeId>, n: Node, t: Topic) {
    Ascending(block) && forall p :: p in block <==> p in Subs(n, t)
  }

  /** `calls` lists the subscribers of the prefixes of data that have 0, 1, .. k - 1 bytes, in this
      order, one block for each prefix. */
  ghost predicate Fired(n: Node, data: Topic, k: nat, calls: seq<PipeId>, blocks: seq<seq<PipeId>>) {
    && k <= |data| + 1 && |blocks| == k && calls == Joined(blocks)
    && forall i :: 0 <= i < k ==> Lists(blocks[i], n, data[..i])
  }

  /** The same for all prefixes. */
  ghost predicate FiredAll(n: Node, data: Topic, calls: seq<PipeId>, blocks: seq<seq<PipeId>>) {
    Fired(n, data, |data| + 1, calls, blocks)
  }

  lemma Fire(n: Node, data: Topic, k: nat, calls: seq<PipeId>, blocks: seq<seq<PipeId>>, more: seq<PipeId>)
    requires Fired(n, data, k, calls, blocks) && k <= |data| && Lists(more, n, data[..k])
    ensures Fired(n, data, k + 1, calls + more, blocks + [more])
  {
    hide Lists;
    assert (blocks + [more])[..|blocks|] == blocks;
  }

  /** Walking one byte further. */
  lemma {:induction false} AtNext(n: Node, t: Topic, c: Byte)
    ensures At(n, t + [c]) == if At(n, t).None? then None else Child(At(n, t).value, c)
    decreases |t|
  {
    if t == [] {
      assert t + [c] == [c] && [c][1..] == [];
    } else {
      assert (t + [c])[1..] == t[1..] + [c] && (t + [c])[0] == t[0];
      if Child(n, t[0]).Some? {
        AtNext(Child(n, t[0]).value, t[1..], c);
      }
    }
  }

  /** Nothing below a missing node. */
  lemma Rest(n: Node, data: Topic, from: nat, calls: seq<PipeId>, blocks: seq<seq<PipeId>>) returns (blocks': seq<seq<PipeId>>)
    requires from <= |data| && Fired(n, data, from, calls, blocks)
    requires At(n, data[..from]).None?
    ensures Fired(n, data, |data| + 1, calls, blocks')
  {
    hide Fired;
    blocks' := blocks;
    var k := from;
    while k <= |data|
      invariant from <= k <= |data| + 1 && Fired(n, data, k, calls, blocks')
      invariant k <= |data| ==> At(n, data[..k]).None?
    {
      Fire(n, data, k, calls, blocks', []);
      assert calls + [] == calls;
      blocks' := blocks' + [[]];
      k := k + 1;
      if k <= |data| {
        AtNext(n, data[..k - 1], data[k - 1]);
        assert data[..k] == data[..k - 1] + [data[k - 1]];
      }
    }
  }

  /** Every subscriber of every prefix of the data is called once for that prefix, shorter prefixes
      first. */
  method Match(n: Node, data: Topic) returns (calls: seq<PipeId>)
    requires Canonical(n)
    ensures exists blocks :: FiredAll(n, data, calls, blocks)
  {
    var current, at := n, 0;
    calls := [];
    ghost var blocks := [];
    assert data[..0] == [];
    assert Fired(n, data, 0, calls, blocks);
    hide Fired;
    while true
      invariant at <= |data| && Fired(n, data, at, calls, blocks) && At(n, data[..at]) == Some(current)
      invariant Canonical(current)
      decreases |data| - at
    {
      var here := Listed(current.pipes);
      Fire(n, data, at, calls, blocks, here);
      calls := calls + here;
      blocks := blocks + [here];
      if at == |data| {
        break;
      }
      AtNext(n, data[..at], data[at]);
      assert data[..at + 1] == data[..at] + [data[at]];
      if current.count == 0 {
        blocks := Rest(n, data, at + 1, calls, blocks);
        break;
      }
      if current.count == 1 {
        if data[at] != current.min {
          blocks := Rest(n, data, at + 1, calls, blocks);
          break;
        }
        current := current.next[0].value;
        at := at + 1;
        continue;
      }
      if data[at] < current.min || data[at] >= current.min + current.count || current.next[data[at] - current.min].None? {
        blocks := Rest(n, data, at + 1, calls, blocks);
        break;
      }
      current := current.next[data[at] - current.min].value;
      at := at + 1;
    }
    assert FiredAll(n, data, calls, blocks);
  }

  // ---- the canonical form is unique ----

  /** Equal up to `min` of nodes without children. */
  predicate SameShape(n: Node, m: Node) {
    && n.pipes == m.pipes && n.count == m.count && n.live == m.live && |n.next| == |m.next|
    && (n.count > 0 ==> n.min == m.min)
    && forall k | 0 <= k < |n.next| ::
      && (n.next[k].Some? <==> m.next[k].Some?)
      && (n.next[k].Some? ==> m.next[k].Some? && SameShape(n.next[k].value, m.next[k].value))
  }

  /** A useful node leads to a subscriber. */
  lemma {:induction false} Useful(n: Node) returns (t: Topic)
    requires Canonical(n) && !Redundant(n)
    ensures Subs(n, t) != {}
  {
    if n.pipes != {} {
      t := [];
    } else {
      LiveNone(n.next);
      var below := Useful(n.next[0].value);
      t := [n.min] + below;
      assert t[1..] == below && Child(n, n.min) == n.next[0];
    }
  }

  lemma ChildInOther(n: Node, m: Node, c: Byte)
    requires Canonical(n) && Canonical(m) && forall t :: Subs(n, t) == Subs(m, t)
    requires Child(n, c).Some?
    ensures Child(m, c).Some?
  {
    var below := Useful(Child(n, c).value);
    var t := [c] + below;
    assert t[1..] == below;
    assert Subs(n, t) == Subs(m, t);
  }

  lemma ChildMeaning(n: Node, m: Node, c: Byte)
    requires forall t :: Subs(n, t) == Subs(m, t)
    requires Child(n, c).Some? && Child(m, c).Some?
    ensures forall t :: Subs(Child(n, c).value, t) == Subs(Child(m, c).value, t)
  {
    forall t ensures Subs(Child(n, c).value, t) == Subs(Child(m, c).value, t) {
      var u := [c] + t;
      assert u[1..] == t;
      assert Subs(n, u) == Subs(m, u);
    }
  }

  /** A window of n lies in that of m if the children of n are also children of m. */
  lemma Within(n: Node, m: Node)
    requires Canonical(n) && n.count > 0 && Canonical(m)
    requires forall c: Byte :: Child(n, c).Some? ==> Child(m, c).Some?
    ensures m.min <= n.min && n.min + n.count <= m.min + m.count
  {
    assert Tight(n) && Tight(m);
    hide Canonical, Live;
    var first: Byte, last: Byte := n.min, n.min + n.count - 1;
    assert Child(n, first).Some? && Child(n, last).Some?;
    assert Child(m, first).Some? && Child(m, last).Some?;
  }

  lemma {:induction false} LiveSame(s: seq<Option<Node>>, t: seq<Option<Node>>)
    requires |s| == |t| && forall k :: 0 <= k < |s| ==> (s[k].Some? <==> t[k].Some?)
    ensures Live(s) == Live(t)
  {
    if s != [] {
      LiveSame(s[1..], t[1..]);
    }
  }

  /** Tries that denote the same subscriptions are built alike. */
  lemma {:induction false} CanonicalIsUnique(n: Node, m: Node)
    requires Canonical(n) && Canonical(m) && forall t :: Subs(n, t) == Subs(m, t)
    ensures SameShape(n, m)
    decreases n
  {
    assert n.pipes == m.pipes by {
      assert Subs(n, []) == Subs(m, []);
    }
    forall c: Byte ensures Child(n, c).Some? <==> Child(m, c).Some? {
      if Child(n, c).Some? {
        ChildInOther(n, m, c);
      }
      if Child(m, c).Some? {
        ChildInOther(m, n, c);
      }
    }
    if n.count > 0 {
      Within(n, m);
    }
    if m.count > 0 {
      Within(m, n);
    }
    assert n.count == m.count;
    forall k | 0 <= k < |n.next|
      ensures n.next[k].Some? <==> m.next[k].Some?
      ensures n.next[k].Some? ==> m.next[k].Some? && SameShape(n.next[k].value, m.next[k].value)
    {
      var c: Byte := n.min + k;
      assert Child(n, c) == n.next[k] && Child(m, c) == m.next[k];
      if n.next[k].Some? {
        ChildMeaning(n, m, c);
        CanonicalIsUnique(n.next[k].value, m.next[k].value);
      }
    }
    LiveSame(n.next, m.next);
  }

  /** Subscribing anew and unsubscribing restores the structure. */
  method AddThenRemove(n: Node, t: Topic, p: PipeId) returns (n': Node)
    requires Canonical(n) && p !in Subs(n, t)
    ensures SameShape(n, n')
  {
    var n1, unique := Add(n, t, p);
    var gone, ok;
    n', gone, ok := Remove(n1, t, p);
    assert forall u :: Subs(n', u) == Subs(n, u);
    CanonicalIsUnique(n, n');
  }

  // ---- whole runs ----

  datatype Op = Subscribe(t: Topic, p: PipeId) | Unsubscribe(t: Topic, p: PipeId) | Drop(p: PipeId)

  ghost predicate Related(ops: seq<Op>, t: Topic, p: PipeId) {
    if ops == [] then false
    else
      var before, op := ops[..|ops| - 1], ops[|ops| - 1];
      match op
      case Subscribe(u, q) => Related(before, t, p) || (t == u && p == q)
      case Unsubscribe(u, q) => Related(before, t, p) && !(t == u && p == q)
      case Drop(q) => Related(before, t, p) && p != q
  }

  /** Only existing subscriptions are removed one by one. */
  ghost predicate Legal(ops: seq<Op>) {
    forall i :: 0 <= i < |ops| && ops[i].Unsubscribe? ==> Related(ops[..i], ops[i].t, ops[i].p)
  }

  ghost predicate Denotes(n: Node, ops: seq<Op>) {
    forall t, p: PipeId :: p in Subs(n, t) <==> Related(ops, t, p)
  }

  lemma RelatedNext(ops: seq<Op>, op: Op, t: Topic, p: PipeId)
    ensures Related(ops + [op], t, p) <==> match op
      case Subscribe(u, q) => Related(ops, t, p) || (t == u && p == q)
      case Unsubscribe(u, q) => Related(ops, t, p) && !(t == u && p == q)
      case Drop(q) => Related(ops, t, p) && p != q
  {
    assert (ops + [op])[..|ops|] == ops;
  }

  lemma DenotesNext(n: Node, n': Node, ops: seq<Op>, op: Op)
    requires Denotes(n, ops)
    requires forall t :: Subs(n', t) == match op
      case Subscribe(u, q) => if t == u then Subs(n, t) + {q} else Subs(n, t)
      case Unsubscribe(u, q) => if t == u then Subs(n, t) - {q} else Subs(n, t)
      case Drop(q) => Subs(n, t) - {q}
    ensures Denotes(n', ops + [op])
  {
    hide Related, Subs;
    forall t, p: PipeId ensures p in Subs(n', t) <==> Related(ops + [op], t, p) {
      RelatedNext(ops, op, t, p);
    }
  }

  ghost predicate Nobody(ops: seq<Op>, t: Topic) {
    forall p: PipeId :: !Related(ops, t, p)
  }

  lemma NobodyRelated(n: Node, ops: seq<Op>, t: Topic)
    requires Denotes(n, ops)
    ensures Subs(n, t) == {} <==> Nobody(ops, t)
  {
    assert forall p: PipeId :: p in Subs(n, t) <==> Related(ops, t, p);
  }

  ghost predicate Alone(ops: seq<Op>, t: Topic, p: PipeId) {
    forall q: PipeId :: Related(ops, t, q) <==> q == p
  }

  lemma OnlyRelated(n: Node, ops: seq<Op>, t: Topic, p: PipeId)
    requires Denotes(n, ops)
    ensures Subs(n, t) == {p} <==> Alone(ops, t, p)
  {
    assert forall q: PipeId :: q in Subs(n, t) <==> Related(ops, t, q);
    hide Subs;
    assert p in Subs(n, t) <==> Related(ops, t, p);
  }

  /** One operation on a trie that denotes a run. The answer of `add` is "first subscriber", that of
      `rm` is "last subscriber"; dropping a pipe reports the topics it was alone on. */
  method Apply(n: Node, op: Op, ghost ops: seq<Op>) returns (n': Node, answer: bool, calls: seq<Topic>)
    requires Canonical(n) && Denotes(n, ops) && (op.Unsubscribe? ==> Related(ops, op.t, op.p))
    ensures Canonical(n') && Denotes(n', ops + [op])
    ensures op.Subscribe? ==> (answer <==> Nobody(ops, op.t))
    ensures op.Unsubscribe? ==> (answer <==> Nobody(ops + [op], op.t))
    ensures op.Drop? ==> MtriePipe.Increasing(calls) && forall t :: t in calls <==> Alone(ops, t, op.p)
  {
    answer, calls := false, [];
    match op
    case Subscribe(t, p) =>
      n', answer := Add(n, t, p);
      NobodyRelated(n, ops, t);
      DenotesNext(n, n', ops, op);
    case Unsubscribe(t, p) =>
      assert p in Subs(n, t);
      var ok;
      n', answer, ok := Remove(n, t, p);
      DenotesNext(n, n', ops, op);
      NobodyRelated(n', ops + [op], t);
    case Drop(p) =>
      n', calls := MtriePipe.Rm(n, p);
      DenotesNext(n, n', ops, op);
      forall t ensures t in calls <==> Alone(ops, t, p) {
        OnlyRelated(n, ops, t, p);
      }
  }

  /** After any legal run the trie denotes exactly the subscriptions made and not undone. */
  method Run(ops: seq<Op>) returns (n: Node)
    requires Legal(ops)
    ensures Canonical(n) && Denotes(n, ops)
  {
    n := EMPTY;
    forall t ensures Subs(n, t) == {} {
      NoneBelow(n, t);
    }
    for i := 0 to |ops|
      invariant Canonical(n) && Denotes(n, ops[..i])
    {
      var answer, calls;
      n, answer, calls := Apply(n, ops[i], ops[..i]);
      assert ops[..i + 1] == ops[..i] + [ops[i]];
    }
    assert ops[..|ops|] == ops;
  }
}
