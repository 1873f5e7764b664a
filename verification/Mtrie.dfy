/** The subscription multi-trie: a compact trie whose nodes hold a window `min .. min + count` of
    children, and whose tables grow and shrink with the topics subscribed.

    Nodes are values here; a method that changes a subtree in place in the program returns the
    changed subtree. `Subs` gives the meaning: the pipes subscribed to exactly a topic. */
module Mtrie {
  import opened YPipes

  type Byte = b: nat | b < 256
  type Topic = seq<Byte>
  type PipeId = nat

  /** A node without subscribers has no set at all in the program; here the set is empty. */
  datatype Node = Node(pipes: set<PipeId>, min: nat, count: nat, live: nat, next: seq<Option<Node>>)

  const EMPTY := Node({}, 0, 0, 0, [])

  predicate Redundant(n: Node) {
    n.pipes == {} && n.live == 0
  }

  // ---- meaning ----

  function Child(n: Node, c: nat): Option<Node> {
    if n.min <= c < n.min + |n.next| then n.next[c - n.min] else None
  }

  /** The node that a topic leads to, if the trie has one. */
  function At(n: Node, t: Topic): Option<Node>
    decreases |t|
  {
    if t == [] then Some(n)
    else if Child(n, t[0]).None? then None
    else At(Child(n, t[0]).value, t[1..])
  }

  /** The pipes subscribed to topic t. */
  function Subs(n: Node, t: Topic): set<PipeId> {
    if At(n, t).None? then {} else At(n, t).value.pipes
  }

  // ---- canonical form ----

  function Live(s: seq<Option<Node>>): nat {
    if s == [] then 0 else (if s[0].Some? then 1 else 0) + Live(s[1..])
  }

  /** The window fits the bytes, its ends are used, and the counter counts. */
  predicate Tight(n: Node) {
    && |n.next| == n.count && n.live == Live(n.next)
    && (n.count > 0 ==> n.min + n.count <= 256 && n.next[0].Some? && n.next[n.count - 1].Some?)
  }

  predicate Canonical(n: Node) {
    && Tight(n)
    && forall k | 0 <= k < |n.next| && n.next[k].Some? :: Canonical(n.next[k].value) && !Redundant(n.next[k].value)
  }

  // ---- counting ----

  lemma {:induction false} LiveSet(s: seq<Option<Node>>, k: nat, v: Option<Node>)
    requires k < |s|
    ensures Live(s[k := v]) == Live(s) - (if s[k].Some? then 1 else 0) + (if v.Some? then 1 else 0)
  {
    if k == 0 {
      assert s[k := v][1..] == s[1..];
    } else {
      assert s[k := v][1..] == s[1..][k - 1 := v];
      LiveSet(s[1..], k - 1, v);
    }
  }

  lemma {:induction false} LiveConcat(s: seq<Option<Node>>, t: seq<Option<Node>>)
    ensures Live(s + t) == Live(s) + Live(t)
  {
    if s == [] {
      assert s + t == t;
    } else {
      assert (s + t)[1..] == s[1..] + t;
      LiveConcat(s[1..], t);
    }
  }

  lemma {:induction false} LiveNone(s: seq<Option<Node>>)
    ensures Live(s) == 0 <==> forall k :: 0 <= k < |s| ==> s[k].None?
  {
    if s != [] {
      LiveNone(s[1..]);
      assert forall k :: 0 <= k < |s[1..]| ==> s[1..][k] == s[k + 1];
      assert (forall k :: 0 <= k < |s| ==> s[k].None?) ==> s[0].None?;
      assert s[0].None? && (forall k :: 0 <= k < |s[1..]| ==> s[1..][k].None?) ==>
        forall k :: 0 <= k < |s| ==> s[k] == if k == 0 then s[0] else s[1..][k - 1];
    }
  }

  lemma LiveOne(s: seq<Option<Node>>, i: nat, j: nat)
    requires Live(s) == 1 && i < |s| && j < |s| && s[i].Some? && s[j].Some?
    ensures i == j
  {
    if i != j {
      LiveSet(s, i, None);
      var s' := s[i := None];
      assert s'[j].Some?;
      LiveNone(s');
    }
  }

  lemma LiveTwo(s: seq<Option<Node>>, i: nat, j: nat)
    requires i < j < |s| && s[i].Some? && s[j].Some?
    ensures Live(s) >= 2
  {
    LiveSet(s, i, None);
    LiveNone(s[i := None]);
    assert s[i := None][j].Some?;
  }

  function Nulls(k: nat): (s: seq<Option<Node>>)
    ensures |s| == k && forall i :: 0 <= i < k ==> s[i].None?
  {
    seq(k, _ => None)
  }

  // ---- adding ----

  /** Widen the window of n so that c falls into it. */
  method Extend(n: Node, c: Byte) returns (g: Node)
    requires Tight(n) && (c < n.min || c >= n.min + n.count)
    ensures g == n.(min := g.min, count := g.count, next := g.next) && |g.next| == g.count && Live(g.next) == n.live
    ensures g.min <= c < g.min + g.count <= 256 && Child(g, c).None?
    ensures forall x: nat :: Child(g, x) == Child(n, x)
    ensures c > g.min ==> g.next[0].Some?
    ensures c < g.min + g.count - 1 ==> g.next[g.count - 1].Some?
  {
    if n.count == 0 {
      LiveNone([None]);
      g := n.(min := c, count := 1, next := [None]);
    } else if n.count == 1 {
      var count := (if n.min < c then c - n.min else n.min - c) + 1;
      var min := if n.min < c then n.min else c;
      LiveSet(n.next, 0, None);
      LiveNone(n.next[0 := None]);
      LiveNone(Nulls(count));
      LiveSet(Nulls(count), n.min - min, n.next[0]);
      g := n.(min := min, count := count, next := Nulls(count)[n.min - min := n.next[0]]);
    } else if n.min < c {
      var count := c - n.min + 1;
      LiveConcat(n.next, Nulls(count - n.count));
      LiveNone(Nulls(count - n.count));
      g := n.(count := count, next := n.next + Nulls(count - n.count));
    } else {
      var count := (n.min + n.count) - c;
      LiveConcat(Nulls(n.min - c), n.next);
      LiveNone(Nulls(n.min - c));
      g := n.(min := c, count := count, next := Nulls(n.min - c) + n.next);
    }
  }

  /** `child` stands for the subtree of n at c, an empty one where n has none. */
  ghost predicate Stands(n: Node, c: Byte, child: Node) {
    if Child(n, c).Some? then child == Child(n, c).value else forall t :: Subs(child, t) == {}
  }

  lemma {:induction false} NoneBelow(n: Node, t: Topic)
    requires n.pipes == {} && n.next == []
    ensures Subs(n, t) == {}
  {
  }

  /** A change of meaning at one topic of one subtree is that change in the whole. */
  lemma Lift(n: Node, n': Node, child: Node, child': Node, prefix: Topic, s: set<PipeId>)
    requires prefix != [] && n'.pipes == n.pipes
    requires forall x: nat :: x != prefix[0] ==> Child(n', x) == Child(n, x)
    requires Stands(n, prefix[0], child) && Stands(n', prefix[0], child')
    requires forall t :: Subs(child', t) == if t == prefix[1..] then s else Subs(child, t)
    ensures forall t :: Subs(n', t) == if t == prefix then s else Subs(n, t)
  {
    forall t ensures Subs(n', t) == if t == prefix then s else Subs(n, t) {
      if t != [] && t[0] == prefix[0] {
        assert t == [t[0]] + t[1..] && prefix == [prefix[0]] + prefix[1..];
        assert Subs(child', t[1..]) == if t[1..] == prefix[1..] then s else Subs(child, t[1..]);
      }
    }
  }

  predicate GoodChildren(s: seq<Option<Node>>) {
    forall k | 0 <= k < |s| && s[k].Some? :: Canonical(s[k].value) && !Redundant(s[k].value)
  }

  lemma SameGoodChildren(n: Node, g: Node)
    requires GoodChildren(n.next) && forall x: nat :: Child(g, x) == Child(n, x)
    ensures GoodChildren(g.next)
  {
    forall k | 0 <= k < |g.next| && g.next[k].Some?
      ensures Canonical(g.next[k].value) && !Redundant(g.next[k].value)
    {
      assert Child(g, g.min + k) == g.next[k] == Child(n, g.min + k);
    }
  }

  lemma PutChild(g: Node, k: nat, v: Node)
    requires k < |g.next| == g.count && g.min + g.count <= 256 && GoodChildren(g.next)
    requires k > 0 ==> g.next[0].Some?
    requires k < g.count - 1 ==> g.next[g.count - 1].Some?
    requires g.live == Live(g.next) + if g.next[k].None? then 1 else 0
    requires Canonical(v) && !Redundant(v)
    ensures Canonical(g.(next := g.next[k := Some(v)])) && g.live > 0
  {
    var s := g.next[k := Some(v)];
    LiveSet(g.next, k, Some(v));
    LiveNone(s);
    assert s[k].Some?;
    assert GoodChildren(s);
  }

  lemma AddStep(n: Node, n': Node, child: Node, child': Node, prefix: Topic, p: PipeId)
    requires prefix != [] && n'.pipes == n.pipes
    requires forall x: nat :: Child(n', x) == if x == prefix[0] then Some(child') else Child(n, x)
    requires child == if Child(n, prefix[0]).Some? then Child(n, prefix[0]).value else EMPTY
    requires forall t :: Subs(child', t) == if t == prefix[1..] then Subs(child, t) + {p} else Subs(child, t)
    ensures forall t :: Subs(n', t) == if t == prefix then Subs(n, t) + {p} else Subs(n, t)
    ensures Subs(n, prefix) == Subs(child, prefix[1..])
  {
    forall t ensures Subs(EMPTY, t) == {} {
      NoneBelow(EMPTY, t);
    }
    Lift(n, n', child, child', prefix, Subs(child, prefix[1..]) + {p});
  }

  /** The node with a window that holds c: as it is, or extended. */
  method Window(n: Node, c: Byte) returns (g: Node)
    requires Canonical(n)
    ensures g == n.(min := g.min, count := g.count, next := g.next) && |g.next| == g.count && Live(g.next) == g.live
    ensures g.min <= c < g.min + g.count <= 256
    ensures forall x: nat :: Child(g, x) == Child(n, x)
    ensures c > g.min ==> g.next[0].Some?
    ensures c < g.min + g.count - 1 ==> g.next[g.count - 1].Some?
    ensures GoodChildren(g.next)
  {
    assert GoodChildren(n.next);
    if c < n.min || c >= n.min + n.count {
      g := Extend(n, c);
      SameGoodChildren(n, g);
    } else {
      g := n;
    }
  }

  /** Put a subtree at c; a null entry that gets one is counted. */
  method Attach(g: Node, c: Byte, v: Node) returns (n: Node)
    requires |g.next| == g.count && Live(g.next) == g.live && GoodChildren(g.next)
    requires g.min <= c < g.min + g.count <= 256
    requires c > g.min ==> g.next[0].Some?
    requires c < g.min + g.count - 1 ==> g.next[g.count - 1].Some?
    requires Canonical(v) && !Redundant(v)
    ensures Canonical(n) && !Redundant(n) && n.pipes == g.pipes
    ensures forall x: nat :: Child(n, x) == if x == c then Some(v) else Child(g, x)
  {
    var k := c - g.min;
    var live := g.live;
    if g.next[k].None? {
      live := live + 1;
    }
    n := g.(live := live, next := g.next[k := Some(v)]);
    PutChild(g.(live := live), k, v);
  }

  method Add(n: Node, prefix: Topic, p: PipeId) returns (n': Node, unique: bool)
    requires Canonical(n)
    ensures Canonical(n') && !Redundant(n')
    ensures forall t :: Subs(n', t) == if t == prefix then Subs(n, t) + {p} else Subs(n, t)
    ensures unique <==> Subs(n, prefix) == {}
    decreases |prefix|
  {
    if |prefix| == 0 {
      unique := n.pipes == {};
      n' := n.(pipes := n.pipes + {p});
      return;
    }
    var c := prefix[0];
    var g := Window(n, c);
    var child := EMPTY;
    if g.next[c - g.min].Some? {
      child := g.next[c - g.min].value;
    }
    assert Canonical(EMPTY);
    hide Subs, Live, Canonical, Redundant;
    var child';
    child', unique := Add(child, prefix[1..], p);
    n' := Attach(g, c, child');
    AddStep(n, n', child, child', prefix, p);
  }

  // ---- removing one subscription ----

  lemma LiveFront(s: seq<Option<Node>>, i: nat)
    requires i <= |s| && forall k :: 0 <= k < i ==> s[k].None?
    ensures Live(s[i..]) == Live(s)
  {
    LiveConcat(s[..i], s[i..]);
    LiveNone(s[..i]);
    assert s[..i] + s[i..] == s;
  }

  lemma LiveBack(s: seq<Option<Node>>, i: nat)
    requires i <= |s| && forall k :: i <= k < |s| ==> s[k].None?
    ensures Live(s[..i]) == Live(s)
  {
    LiveConcat(s[..i], s[i..]);
    LiveNone(s[i..]);
    assert s[..i] + s[i..] == s;
  }

  /** `s` is the table of n with the entry for c cleared. */
  ghost predicate Cleared(n: Node, c: Byte, s: seq<Option<Node>>) {
    && |s| == |n.next| && n.min <= c < n.min + |s| && s == n.next[c - n.min := None]
    && Live(s) == n.live - 1
  }

  /** Only one entry is left: switch to the single-node form. */
  method ToSingle(n: Node, c: Byte, s: seq<Option<Node>>) returns (n': Node)
    requires Canonical(n) && Cleared(n, c, s) && Live(s) == 1
    ensures Canonical(n') && n'.pipes == n.pipes && n'.live == 1
    ensures forall x: nat :: Child(n', x) == if x == c then None else Child(n, x)
  {
    var i := 0;
    LiveNone(s);
    while i < |s| && s[i].None?
      invariant i <= |s| && forall k :: 0 <= k < i ==> s[k].None?
    {
      i := i + 1;
    }
    assert i < |s|;
    n' := Node(n.pipes, n.min + i, 1, 1, [s[i]]);
    forall j: nat | j < |s| && s[j].Some? ensures j == i {
      LiveOne(s, i, j);
    }
    assert Live([s[i]]) == 1 + Live([]);
    assert s[i] == n.next[i];
    forall x: nat ensures Child(n', x) == if x == c then None else Child(n, x) {
      if n.min <= x < n.min + |s| {
        assert s[x - n.min] == if x == c then None else n.next[x - n.min];
      }
    }
  }

  /** The first entry went: cut the table from the left. */
  method CutLeft(n: Node, c: Byte, s: seq<Option<Node>>) returns (n': Node)
    requires Canonical(n) && Cleared(n, c, s) && Live(s) >= 2 && c == n.min
    ensures Canonical(n') && n'.pipes == n.pipes && n'.live == n.live - 1
    ensures forall x: nat :: Child(n', x) == if x == c then None else Child(n, x)
  {
    var i := 1;
    LiveNone(s);
    while i < |s| && s[i].None?
      invariant 1 <= i <= |s| && forall k :: 0 <= k < i ==> s[k].None?
    {
      i := i + 1;
    }
    assert i < |s|;
    LiveFront(s, i);
    n' := Node(n.pipes, n.min + i, n.count - i, n.live - 1, s[i..]);
    assert GoodChildren(n.next);
    forall k | 0 <= k < |s[i..]| ensures s[i..][k] == n.next[k + i] {
    }
  }

  /** The last entry went: cut the table from the right. */
  method CutRight(n: Node, c: Byte, s: seq<Option<Node>>) returns (n': Node)
    requires Canonical(n) && Cleared(n, c, s) && Live(s) >= 2 && c == n.min + n.count - 1
    ensures Canonical(n') && n'.pipes == n.pipes && n'.live == n.live - 1
    ensures forall x: nat :: Child(n', x) == if x == c then None else Child(n, x)
  {
    var i := 1;
    LiveNone(s);
    while i < |s| && s[|s| - 1 - i].None?
      invariant 1 <= i <= |s| && forall k :: |s| - i <= k < |s| ==> s[k].None?
    {
      i := i + 1;
    }
    assert i < |s|;
    LiveBack(s, |s| - i);
    n' := Node(n.pipes, n.min, n.count - i, n.live - 1, s[..|s| - i]);
    assert GoodChildren(n.next);
    forall x: nat ensures Child(n', x) == if x == c then None else Child(n, x) {
      if n.min <= x < n.min + |s| {
        assert s[x - n.min] == if x == c then None else n.next[x - n.min];
      }
    }
  }

  /** Delete the child at c and compact the table if possible. */
  method Prune(n: Node, c: Byte) returns (n': Node)
    requires Canonical(n) && Child(n, c).Some?
    ensures Canonical(n') && n'.pipes == n.pipes && n'.live == n.live - 1
    ensures forall x: nat :: Child(n', x) == if x == c then None else Child(n, x)
  {
    var k := c - n.min;
    var s := n.next[k := None];
    LiveSet(n.next, k, None);
    LiveNone(s);
    if n.count == 1 {
      n' := Node(n.pipes, n.min, 0, n.live - 1, []);
      assert n'.live == 0;
    } else {
      LiveTwo(n.next, 0, n.count - 1);
      assert n.live > 1;
      if n.live - 1 == 1 {
        n' := ToSingle(n, c, s);
      } else if c == n.min {
        n' := CutLeft(n, c, s);
      } else if c == n.min + n.count - 1 {
        n' := CutRight(n, c, s);
      } else {
        n' := Node(n.pipes, n.min, n.count, n.live - 1, s);
        assert GoodChildren(n.next);
      }
    }
  }

  lemma RedundantIsEmpty(n: Node)
    requires Canonical(n) && Redundant(n)
    ensures n.next == [] && forall t :: Subs(n, t) == {}
  {
    LiveNone(n.next);
    forall t ensures Subs(n, t) == {} {
      NoneBelow(n, t);
    }
  }

  /** Remove the subscription of p to a topic. `ok` is false where the program's assertion fails: the
      topic has subscribers and p is not one of them. `gone` is the program's answer; it is also true
      for a topic that nobody subscribed to as long as the trie has a node for it. */
  method Remove(n: Node, prefix: Topic, p: PipeId) returns (n': Node, gone: bool, ok: bool)
    requires Canonical(n)
    ensures ok <==> Subs(n, prefix) == {} || p in Subs(n, prefix)
    ensures Canonical(n') && (!ok ==> n' == n)
    ensures ok ==> forall t :: Subs(n', t) == if t == prefix then Subs(n, t) - {p} else Subs(n, t)
    ensures gone <==> ok && At(n, prefix).Some? && Subs(n', prefix) == {}
    decreases |prefix|
  {
    if |prefix| == 0 {
      if n.pipes != {} && p !in n.pipes {
        return n, false, false;
      }
      n' := n.(pipes := n.pipes - {p});
      return n', n'.pipes == {}, true;
    }
    var c := prefix[0];
    if n.count == 0 || c < n.min || c >= n.min + n.count || n.next[c - n.min].None? {
      return n, false, true;
    }
    var child := n.next[c - n.min].value;
    var child';
    child', gone, ok := Remove(child, prefix[1..], p);
    if !ok {
      return n, false, false;
    }
    if Redundant(child') {
      RedundantIsEmpty(child');
      n' := Prune(n, c);
    } else {
      n' := Attach(n, c, child');
    }
    Lift(n, n', child, child', prefix, Subs(child, prefix[1..]) - {p});
  }
}
