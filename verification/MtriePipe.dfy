/** Removing a pipe from the whole trie: every node is visited in table order, topics that lose their
    last subscriber are reported, and the tables are pruned and compacted on the way back. */
module MtriePipe {
  import opened YPipes
  import opened Mtrie

  // ---- what is reported ----

  /** Topics whose only subscriber is p, in the order of the tables; `prefix` leads to n. */
  function SoleTopics(n: Node, p: PipeId, prefix: Topic): seq<Topic>
    requires Canonical(n)
    decreases n, |n.next| + 2
  {
    (if n.pipes == {p} then [prefix] else []) + SoleFrom(n, 0, p, prefix)
  }

  function SoleAt(n: Node, k: nat, p: PipeId, prefix: Topic): seq<Topic>
    requires Canonical(n) && k < |n.next|
    decreases n, 0
  {
    if n.next[k].None? then [] else SoleTopics(n.next[k].value, p, prefix + [n.min + k])
  }

  function SoleFrom(n: Node, k: nat, p: PipeId, prefix: Topic): seq<Topic>
    requires Canonical(n) && k <= |n.next|
    decreases n, |n.next| - k + 1
  {
    if k == |n.next| then [] else SoleAt(n, k, p, prefix) + SoleFrom(n, k + 1, p, prefix)
  }

  /** Lexicographic order. */
  predicate Less(a: Topic, b: Topic) {
    b != [] && (a == [] || a[0] < b[0] || (a[0] == b[0] && Less(a[1..], b[1..])))
  }

  ghost predicate Increasing(s: seq<Topic>) {
    forall i, j :: 0 <= i < j < |s| ==> Less(s[i], s[j])
  }

  predicate Extends(t: Topic, prefix: Topic) {
    |prefix| <= |t| && t[..|prefix|] == prefix
  }

  lemma ExtendsOne(t: Topic, prefix: Topic, c: Byte)
    ensures Extends(t, prefix + [c]) <==> Extends(t, prefix) && |t| > |prefix| && t[|prefix|] == c
  {
    if |t| > |prefix| {
      assert t[..|prefix| + 1] == t[..|prefix|] + [t[|prefix|]];
    }
  }

  lemma {:induction false} LessWithin(prefix: Topic, a: Topic, b: Topic)
    requires Extends(a, prefix) && Extends(b, prefix) && Less(a[|prefix|..], b[|prefix|..])
    ensures Less(a, b)
  {
    if prefix != [] {
      assert a[0] == a[..|prefix|][0] && b[0] == b[..|prefix|][0];
      assert a[1..][..|prefix| - 1] == a[..|prefix|][1..] && b[1..][..|prefix| - 1] == b[..|prefix|][1..];
      assert a[1..][|prefix| - 1..] == a[|prefix|..] && b[1..][|prefix| - 1..] == b[|prefix|..];
      LessWithin(prefix[1..], a[1..], b[1..]);
    } else {
      assert a[0..] == a && b[0..] == b;
    }
  }

  lemma {:induction false} SoleTopicsAre(n: Node, p: PipeId, prefix: Topic, t: Topic)
    requires Canonical(n)
    ensures t in SoleTopics(n, p, prefix) <==> Extends(t, prefix) && Subs(n, t[|prefix|..]) == {p}
    decreases n, |n.next| + 2
  {
    SoleFromAre(n, 0, p, prefix, t);
    if Extends(t, prefix) && |t| > |prefix| {
      assert t != prefix && t[|prefix|..][0] == t[|prefix|];
      assert t[|prefix|] < n.min ==> Child(n, t[|prefix|]).None?;
    } else if Extends(t, prefix) {
      assert t == prefix && t[|prefix|..] == [];
    }
  }

  lemma {:induction false} SoleFromAre(n: Node, k: nat, p: PipeId, prefix: Topic, t: Topic)
    requires Canonical(n) && k <= |n.next|
    ensures t in SoleFrom(n, k, p, prefix) <==>
      Extends(t, prefix) && |t| > |prefix| && t[|prefix|] >= n.min + k && Subs(n, t[|prefix|..]) == {p}
    decreases n, |n.next| - k + 1
  {
    if k < |n.next| {
      SoleFromAre(n, k + 1, p, prefix, t);
      SoleAtAre(n, k, p, prefix, t);
    }
  }

  lemma {:induction false} SoleAtAre(n: Node, k: nat, p: PipeId, prefix: Topic, t: Topic)
    requires Canonical(n) && k < |n.next|
    ensures t in SoleAt(n, k, p, prefix) <==>
      Extends(t, prefix) && |t| > |prefix| && t[|prefix|] == n.min + k && Subs(n, t[|prefix|..]) == {p}
    decreases n, 0
  {
    var deeper := prefix + [n.min + k];
    if n.next[k].Some? {
      SoleTopicsAre(n.next[k].value, p, deeper, t);
    }
    ExtendsOne(t, prefix, n.min + k);
    if Extends(t, deeper) {
      assert t[|prefix|..][1..] == t[|deeper|..];
    }
  }

  lemma JoinIncreasing(a: seq<Topic>, b: seq<Topic>)
    requires Increasing(a) && Increasing(b)
    requires forall x, y :: x in a && y in b ==> Less(x, y)
    ensures Increasing(a + b)
  {
  }

  lemma {:induction false} SoleTopicsIncrease(n: Node, p: PipeId, prefix: Topic)
    requires Canonical(n)
    ensures Increasing(SoleTopics(n, p, prefix))
    decreases n, |n.next| + 2
  {
    SoleFromIncrease(n, 0, p, prefix);
    var here := if n.pipes == {p} then [prefix] else [];
    forall x, y | x in here && y in SoleFrom(n, 0, p, prefix) ensures Less(x, y) {
      SoleFromAre(n, 0, p, prefix, y);
      LessWithin(prefix, x, y);
    }
    JoinIncreasing(here, SoleFrom(n, 0, p, prefix));
  }

  lemma {:induction false} SoleFromIncrease(n: Node, k: nat, p: PipeId, prefix: Topic)
    requires Canonical(n) && k <= |n.next|
    ensures Increasing(SoleFrom(n, k, p, prefix))
    decreases n, |n.next| - k + 1
  {
    if k < |n.next| {
      SoleFromIncrease(n, k + 1, p, prefix);
      if n.next[k].Some? {
        SoleTopicsIncrease(n.next[k].value, p, prefix + [n.min + k]);
      }
      forall x, y | x in SoleAt(n, k, p, prefix) && y in SoleFrom(n, k + 1, p, prefix) ensures Less(x, y) {
        SoleAtAre(n, k, p, prefix, x);
        SoleFromAre(n, k + 1, p, prefix, y);
        LessWithin(prefix, x, y);
      }
      JoinIncreasing(SoleAt(n, k, p, prefix), SoleFrom(n, k + 1, p, prefix));
    }
  }

  /** What has been reported once the first k children are done. */
  function SoleUpTo(n: Node, k: nat, p: PipeId, prefix: Topic): seq<Topic>
    requires Canonical(n) && k <= |n.next|
    decreases k
  {
    if k == 0 then [] else SoleUpTo(n, k - 1, p, prefix) + SoleAt(n, k - 1, p, prefix)
  }

  lemma SoleNext(n: Node, k: nat, p: PipeId, prefix: Topic)
    requires Canonical(n) && k < |n.next|
    ensures n.next[k].None? ==> SoleUpTo(n, k + 1, p, prefix) == SoleUpTo(n, k, p, prefix)
    ensures n.next[k].Some? ==>
      SoleUpTo(n, k + 1, p, prefix) == SoleUpTo(n, k, p, prefix) + SoleTopics(n.next[k].value, p, prefix + [n.min + k])
  {
  }

  lemma {:induction false} SoleSplit(n: Node, k: nat, p: PipeId, prefix: Topic)
    requires Canonical(n) && k <= |n.next|
    ensures SoleUpTo(n, k, p, prefix) + SoleFrom(n, k, p, prefix) == SoleFrom(n, 0, p, prefix)
  {
    if k > 0 {
      SoleSplit(n, k - 1, p, prefix);
    }
  }

  // ---- what happens to the tables ----

  /** The subtree o without p; a redundant one is gone. */
  ghost predicate Stripped(o: Option<Node>, o': Option<Node>, p: PipeId) {
    && (o'.Some? ==> o.Some? && Canonical(o'.value) && !Redundant(o'.value))
    && (o.Some? ==> forall t :: (if o'.Some? then Subs(o'.value, t) else {}) == Subs(o.value, t) - {p})
  }

  /** The first k entries of the table of n are settled in s, the others as they were. */
  ghost predicate StrippedUpTo(n: Node, s: seq<Option<Node>>, k: nat, p: PipeId) {
    && |s| == |n.next|
    && (forall j :: 0 <= j < k && j < |s| ==> Stripped(n.next[j], s[j], p))
    && (forall j :: k <= j < |s| ==> s[j] == n.next[j])
  }

  lemma StrippedStep(n: Node, s: seq<Option<Node>>, k: nat, o: Option<Node>, p: PipeId)
    requires StrippedUpTo(n, s, k, p) && k < |s| && Stripped(s[k], o, p)
    ensures StrippedUpTo(n, s[k := o], k + 1, p)
  {
    hide Stripped;
  }

  lemma StrippedNone(n: Node, s: seq<Option<Node>>, k: nat, p: PipeId)
    requires StrippedUpTo(n, s, k, p) && k < |s| && s[k].None?
    ensures StrippedUpTo(n, s, k + 1, p) && s[k := None] == s
  {
    assert Stripped(s[k], None, p);
  }

  lemma StrippedGood(n: Node, s: seq<Option<Node>>, p: PipeId)
    requires StrippedUpTo(n, s, |s|, p)
    ensures GoodChildren(s)
  {
    hide Canonical, Redundant, Subs;
  }

  /** The bounds of the surviving entries among the first k. */
  predicate Bounds(s: seq<Option<Node>>, k: nat, lo: nat, hi: nat) {
    && k <= |s| && lo < |s| && hi < |s|
    && (forall j :: 0 <= j < k && s[j].Some? ==> lo <= j <= hi)
    && (if forall j :: 0 <= j < k ==> s[j].None? then lo == |s| - 1 && hi == 0
        else lo < k && hi < k && s[lo].Some? && s[hi].Some?)
  }

  /** The bounds after the entry k has been settled as o. */
  lemma BoundsStep(s: seq<Option<Node>>, k: nat, lo: nat, hi: nat, o: Option<Node>)
    requires Bounds(s, k, lo, hi) && k < |s|
    ensures o.None? ==> Bounds(s[k := o], k + 1, lo, hi)
    ensures o.Some? ==> Bounds(s[k := o], k + 1, if k < lo then k else lo, if k > hi then k else hi)
  {
    var s' := s[k := o];
    assert forall j :: 0 <= j < k ==> s'[j] == s[j];
    assert s'[k] == o;
  }

  /** The state of the loop over the table of n, the first k entries being settled. */
  ghost predicate Progress(n: Node, s: seq<Option<Node>>, live: nat, newMin: nat, newMax: nat, k: nat, p: PipeId) {
    && StrippedUpTo(n, s, k, p) && live == Live(s)
    && n.min <= newMin && n.min <= newMax && Bounds(s, k, newMin - n.min, newMax - n.min)
  }

  lemma ProgressNone(n: Node, s: seq<Option<Node>>, live: nat, newMin: nat, newMax: nat, k: nat, p: PipeId)
    requires Progress(n, s, live, newMin, newMax, k, p) && k < |s| && s[k].None?
    ensures Progress(n, s, live, newMin, newMax, k + 1, p)
  {
    hide Bounds, Stripped, Live;
    BoundsStep(s, k, newMin - n.min, newMax - n.min, None);
    StrippedNone(n, s, k, p);
  }

  lemma ProgressStep(n: Node, s: seq<Option<Node>>, live: nat, newMin: nat, newMax: nat, k: nat, o: Option<Node>, p: PipeId)
    requires Progress(n, s, live, newMin, newMax, k, p) && k < |s| && s[k].Some? && Stripped(s[k], o, p)
    ensures o.None? ==> live > 0 && Progress(n, s[k := o], live - 1, newMin, newMax, k + 1, p)
    ensures o.Some? ==>
      var newMin' := if k + n.min < newMin then k + n.min else newMin;
      var newMax' := if k + n.min > newMax then k + n.min else newMax;
      Progress(n, s[k := o], live, newMin', newMax', k + 1, p)
  {
    LiveSet(s, k, o);
    LiveNone(s);
    hide Bounds, Stripped, StrippedUpTo, Live;
    BoundsStep(s, k, newMin - n.min, newMax - n.min, o);
    StrippedStep(n, s, k, o, p);
  }

  lemma GoodSlice(s: seq<Option<Node>>, lo: nat, hi: nat)
    requires lo <= hi < |s| && GoodChildren(s)
    requires forall j :: 0 <= j < |s| && s[j].Some? ==> lo <= j <= hi
    ensures GoodChildren(s[lo..hi + 1]) && Live(s[lo..hi + 1]) == Live(s)
  {
    LiveBack(s, hi + 1);
    LiveFront(s[..hi + 1], lo);
    assert s[..hi + 1][lo..] == s[lo..hi + 1];
    var w := s[lo..hi + 1];
    assert forall k :: 0 <= k < |w| ==> w[k] == s[lo + k];
  }

  lemma SliceChildren(n: Node, min: nat, s: seq<Option<Node>>, lo: nat, hi: nat)
    requires lo <= hi < |s| && n.min == min + lo && n.next == s[lo..hi + 1]
    requires forall j :: 0 <= j < |s| && s[j].Some? ==> lo <= j <= hi
    ensures forall x: nat :: Child(n, x) == if min <= x < min + |s| then s[x - min] else None
  {
  }

  lemma NoBounds(s: seq<Option<Node>>, lo: nat, hi: nat)
    requires Bounds(s, |s|, lo, hi) && Live(s) > 0
    ensures lo <= hi && s[lo].Some? && s[hi].Some?
    ensures Live(s) == 1 ==> lo == hi
    ensures Live(s) > 1 ==> lo < hi
  {
    LiveNone(s);
    if Live(s) == 1 {
      LiveOne(s, lo, hi);
    } else if lo == hi {
      LiveSet(s, lo, None);
      LiveNone(s[lo := None]);
    }
  }

  lemma MakeCanonical(n: Node)
    requires |n.next| == n.count && n.live == Live(n.next) && GoodChildren(n.next)
    requires n.count > 0 ==> n.min + n.count <= 256 && n.next[0].Some? && n.next[n.count - 1].Some?
    ensures Canonical(n)
  {
  }

  /** Free the table, switch to the single-node form or narrow the window. */
  method Compact(pipes: set<PipeId>, min: nat, s: seq<Option<Node>>, live: nat, newMin: nat, newMax: nat)
    returns (n: Node)
    requires |s| > 1 && min + |s| <= 256 && live == Live(s) && GoodChildren(s)
    requires min <= newMin && min <= newMax && Bounds(s, |s|, newMin - min, newMax - min)
    ensures Canonical(n) && n.pipes == pipes
    ensures forall x: nat :: Child(n, x) == if min <= x < min + |s| then s[x - min] else None
  {
    LiveNone(s);
    hide Live;
    if live == 0 {
      n := Node(pipes, min, 0, 0, []);
      LiveNone(n.next);
      MakeCanonical(n);
      return;
    }
    ghost var lo, hi := newMin - min, newMax - min;
    NoBounds(s, lo, hi);
    GoodSlice(s, lo, hi);
    hide Canonical, Redundant, GoodChildren;
    if live == 1 {
      assert newMin == newMax;
      n := Node(pipes, newMin, 1, live, [s[newMin - min]]);
      assert n.next == s[lo..hi + 1];
    } else if newMin > min || newMax < min + |s| - 1 {
      var count := newMax - newMin + 1;
      n := Node(pipes, newMin, count, live, s[newMin - min..newMin - min + count]);
    } else {
      assert s[lo..hi + 1] == s;
      n := Node(pipes, min, |s|, live, s);
    }
    SliceChildren(n, min, s, lo, hi);
    MakeCanonical(n);
  }

  lemma StripMeaning(n: Node, n': Node, s: seq<Option<Node>>, p: PipeId)
    requires Canonical(n) && n'.pipes == n.pipes - {p} && |s| == |n.next|
    requires StrippedUpTo(n, s, |s|, p)
    requires forall x: nat :: Child(n', x) == if n.min <= x < n.min + |s| then s[x - n.min] else None
    ensures forall t :: Subs(n', t) == Subs(n, t) - {p}
  {
    hide Canonical, Child, StrippedUpTo, Stripped;
    forall t ensures Subs(n', t) == Subs(n, t) - {p} {
      if t != [] {
        StripAt(n, n', s, p, t[0]);
        StripBelow(n, n', t, p);
      }
    }
  }

  lemma StripAt(n: Node, n': Node, s: seq<Option<Node>>, p: PipeId, x: nat)
    requires Canonical(n) && |s| == |n.next| && StrippedUpTo(n, s, |s|, p)
    requires forall y: nat :: Child(n', y) == if n.min <= y < n.min + |s| then s[y - n.min] else None
    ensures Stripped(Child(n, x), Child(n', x), p) || (Child(n, x).None? && Child(n', x).None?)
  {
    assert Child(n', x) == if n.min <= x < n.min + |s| then s[x - n.min] else None;
    if n.min <= x < n.min + |s| {
      assert Stripped(Child(n, x), Child(n', x), p);
    } else {
      assert Child(n, x).None?;
    }
  }

  /** Below the first byte of a topic. */
  lemma StripBelow(n: Node, n': Node, t: Topic, p: PipeId)
    requires t != [] && (Stripped(Child(n, t[0]), Child(n', t[0]), p) || (Child(n, t[0]).None? && Child(n', t[0]).None?))
    ensures Subs(n', t) == Subs(n, t) - {p}
  {
    assert Child(n, t[0]).Some? ==> Subs(n, t) == Subs(Child(n, t[0]).value, t[1..]);
    assert Child(n', t[0]).Some? ==> Subs(n', t) == Subs(Child(n', t[0]).value, t[1..]);
    hide Child, Canonical, Redundant;
  }

  // ---- the operation ----

  lemma Begin(n: Node, p: PipeId, prefix: Topic)
    requires Canonical(n) && n.count > 0
    ensures |n.next| == n.count && n.min + n.count <= 256 && GoodChildren(n.next)
    ensures Progress(n, n.next, n.live, n.min + n.count - 1, n.min, 0, p)
    ensures SoleUpTo(n, 0, p, prefix) == [] && SoleUpTo(n, n.count, p, prefix) == SoleFrom(n, 0, p, prefix)
  {
    SoleSplit(n, n.count, p, prefix);
  }

  /** Grow the buffer once it is full; what it holds up to `size` stays. */
  method Grow(buff: seq<Byte>, size: nat, max: nat) returns (buff': seq<Byte>, max': nat)
    requires size <= max <= |buff|
    ensures size < max' <= |buff'| && max <= max' && buff'[..size] == buff[..size]
  {
    if size >= max {
      max' := size + 256;
      buff' := buff[..size] + seq(256, _ => 0);
    } else {
      return buff, max;
    }
  }

  lemma ShorterPrefix(a: seq<Byte>, b: seq<Byte>, size: nat)
    requires size < |a| && size < |b| && a[..size + 1] == b[..size + 1]
    ensures a[..size] == b[..size]
  {
    assert a[..size] == a[..size + 1][..size] && b[..size] == b[..size + 1][..size];
  }

  /** One child, at the byte b: strip it, and drop it if that made it redundant. */
  method StripChild(child: Node, p: PipeId, buff: seq<Byte>, size: nat, max: nat, ghost b: Byte)
    returns (o: Option<Node>, buff': seq<Byte>, calls: seq<Topic>)
    requires Canonical(child) && size < max <= |buff| && buff[size] == b
    ensures Stripped(Some(child), o, p) && calls == SoleTopics(child, p, buff[..size] + [b])
    ensures max <= |buff'| && buff'[..size] == buff[..size]
    decreases child, 1, 0
  {
    assert buff[..size + 1] == buff[..size] + [b];
    var child';
    child', buff', calls := RemovePipe(child, p, buff, size + 1, max);
    ShorterPrefix(buff', buff, size);
    if Redundant(child') {
      RedundantIsEmpty(child');
      o := None;
    } else {
      o := Some(child');
    }
  }

  /** The loop over the children. The program reaches a single child without a table; the work is
      the same. */
  method StripTable(n: Node, p: PipeId, buff: seq<Byte>, size: nat, max: nat)
    returns (s: seq<Option<Node>>, live: nat, newMin: nat, newMax: nat, buff': seq<Byte>, calls: seq<Topic>)
    requires Canonical(n) && n.count > 0 && size < max <= |buff|
    ensures Progress(n, s, live, newMin, newMax, |s|, p)
    ensures calls == SoleFrom(n, 0, p, buff[..size])
    ensures max <= |buff'| && buff'[..size] == buff[..size]
    decreases n, 0, 0
  {
    hide Progress, SoleTopics, SoleFrom, SoleUpTo, SoleAt, Subs, Live, Redundant, Canonical, Stripped;
    Begin(n, p, buff[..size]);
    s, live, buff', calls := n.next, n.live, buff, [];
    newMin, newMax := n.min + n.count - 1, n.min;
    var c := 0;
    while c != n.count
      invariant c <= n.count == |s| && forall j :: c <= j < |s| ==> s[j] == n.next[j]
      invariant Progress(n, s, live, newMin, newMax, c, p)
      invariant calls == SoleUpTo(n, c, p, buff[..size])
      invariant max <= |buff'| && buff'[..size] == buff[..size]
    {
      buff' := buff'[size := n.min + c];
      if s[c].Some? {
        var o, more;
        o, buff', more := StripChild(s[c].value, p, buff', size, max, n.min + c);
        SoleNext(n, c, p, buff[..size]);
        calls := calls + more;
        ProgressStep(n, s, live, newMin, newMax, c, o, p);
        s := s[c := o];
        if o.None? {
          live := live - 1;
        } else {
          if c + n.min < newMin {
            newMin := c + n.min;
          }
          if c + n.min > newMax {
            newMax := c + n.min;
          }
        }
      } else {
        SoleNext(n, c, p, buff[..size]);
        ProgressNone(n, s, live, newMin, newMax, c, p);
      }
      c := c + 1;
    }
  }

  method RemovePipe(n: Node, p: PipeId, buff: seq<Byte>, size: nat, max: nat)
    returns (n': Node, buff': seq<Byte>, calls: seq<Topic>)
    requires Canonical(n) && size <= max <= |buff|
    ensures Canonical(n') && forall t :: Subs(n', t) == Subs(n, t) - {p}
    ensures calls == SoleTopics(n, p, buff[..size])
    ensures max <= |buff'| && buff'[..size] == buff[..size]
    decreases n, 0, 1
  {
    calls := if n.pipes == {p} then [buff[..size]] else [];
    var max';
    buff', max' := Grow(buff, size, max);
    if n.count == 0 {
      n' := n.(pipes := n.pipes - {p});
      StripMeaning(n, n', [], p);
      return;
    }
    var s, live, newMin, newMax, more;
    s, live, newMin, newMax, buff', more := StripTable(n, p, buff', size, max');
    calls := calls + more;
    StrippedGood(n, s, p);
    hide StrippedUpTo, SoleTopics, SoleFrom, Subs, Redundant;
    if n.count == 1 {
      LiveNone(s);
      n' := if live == 0 then Node(n.pipes - {p}, n.min, 0, 0, []) else Node(n.pipes - {p}, n.min, 1, live, s);
      MakeCanonical(n');
    } else {
      n' := Compact(n.pipes - {p}, n.min, s, live, newMin, newMax);
    }
    StripMeaning(n, n', s, p);
  }

  /** Remove a pipe: exactly its subscriptions go, and each topic it was alone on is reported once,
      in lexicographic order. */
  method Rm(n: Node, p: PipeId) returns (n': Node, calls: seq<Topic>)
    requires Canonical(n)
    ensures Canonical(n') && forall t :: Subs(n', t) == Subs(n, t) - {p}
    ensures Increasing(calls) && forall t :: t in calls <==> Subs(n, t) == {p}
  {
    var buff;
    n', buff, calls := RemovePipe(n, p, [], 0, 0);
    SoleTopicsIncrease(n, p, []);
    forall t ensures t in calls <==> Subs(n, t) == {p} {
      SoleTopicsAre(n, p, [], t);
      assert t[0..] == t && t[..0] == [];
    }
  }
}
