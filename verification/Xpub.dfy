/** Publishing: the trie finds the subscribers of a message, the distributor sends it to them. */
module Xpub {
  import opened YPipes
  import Mtrie
  import MtriePipe
  import MtrieRuns
  import opened PipeArrays
  import opened Distribution
  import opened DistObject

  /** The pipes with a subscription that is a prefix of the data. */
  ghost function Subscribers(n: Mtrie.Node, data: Mtrie.Topic): set<PipeId> {
    UpTo(n, data, |data| + 1)
  }

  ghost function UpTo(n: Mtrie.Node, data: Mtrie.Topic, k: nat): set<PipeId>
    requires k <= |data| + 1
  {
    if k == 0 then {} else UpTo(n, data, k - 1) + Mtrie.Subs(n, data[..k - 1])
  }

  lemma {:induction false} UpToIs(n: Mtrie.Node, data: Mtrie.Topic, k: nat, p: PipeId)
    requires k <= |data| + 1
    ensures p in UpTo(n, data, k) <==> exists i :: 0 <= i < k && p in Mtrie.Subs(n, data[..i])
  {
    if k > 0 {
      UpToIs(n, data, k - 1, p);
    }
  }

  /** The calls of a match are to the subscribers. */
  lemma {:induction false} FiredAre(n: Mtrie.Node, data: Mtrie.Topic, k: nat, calls: seq<PipeId>, blocks: seq<seq<PipeId>>, p: PipeId)
    requires MtrieRuns.Fired(n, data, k, calls, blocks)
    ensures p in calls <==> p in UpTo(n, data, k)
  {
    if k > 0 {
      var before := blocks[..k - 1];
      assert MtrieRuns.Lists(blocks[k - 1], n, data[..k - 1]);
      assert MtrieRuns.Fired(n, data, k - 1, MtrieRuns.Joined(before), before);
      FiredAre(n, data, k - 1, MtrieRuns.Joined(before), before, p);
      assert calls == MtrieRuns.Joined(before) + blocks[k - 1];
    }
  }

  /** A trie in which only these pipes subscribe. */
  ghost predicate Grown(n: Mtrie.Node, all: set<PipeId>) {
    Mtrie.Canonical(n) && forall t :: Mtrie.Subs(n, t) <= all
  }

  /** Trie, distributor and flags belong together. */
  ghost predicate Agrees(n: Mtrie.Node, d: Dist, c: Clock, more: bool) {
    Distribution.Valid(d, c) && more == d.more && !c.viaAll && Grown(n, All(d))
  }

  class Publisher {
    const dist: Distributor
    const lossy: bool
    var subscriptions: Mtrie.Node
    var more: bool
    var clock: Clock
    /** A first part was refused and no message has been completed since. */
    ghost var stale: bool

    ghost predicate Sound()
      reads this, dist, dist.pipes
    {
      dist.Valid() && Agrees(subscriptions, dist.View(), clock, more)
    }

    /** Between messages no pipe is marked, unless a message was refused; and a lossy publisher refuses none. */
    ghost predicate Valid()
      reads this, dist, dist.pipes
    {
      Sound() && (more || stale || Matching(dist.View()) == {}) && (lossy ==> !stale)
    }

    constructor (lossy: bool)
      ensures Valid() && !more && !stale && fresh(dist) && fresh(dist.pipes) && this.lossy == lossy
      ensures All(dist.View()) == {} && Matching(dist.View()) == {} && clock == Clock(0, 0, false)
      ensures forall t :: Mtrie.Subs(subscriptions, t) == {}
    {
      dist := new Distributor();
      this.lossy := lossy;
      subscriptions := Mtrie.EMPTY;
      more := false;
      clock := Clock(0, 0, false);
      stale := false;
      new;
      forall t ensures Mtrie.Subs(subscriptions, t) == {} {
        Mtrie.NoneBelow(subscriptions, t);
      }
    }

    /** An attached pipe subscribes to a topic; the answer tells whether nobody had. */
    method Subscribe(p: PipeId, topic: Mtrie.Topic) returns (unique: bool)
      requires Valid() && p in All(dist.View())
      modifies this
      ensures Valid() && more == old(more) && clock == old(clock) && stale == old(stale)
      ensures forall t :: Mtrie.Subs(subscriptions, t) == if t == topic then old(Mtrie.Subs(subscriptions, t)) + {p} else old(Mtrie.Subs(subscriptions, t))
      ensures unique <==> old(Mtrie.Subs(subscriptions, topic)) == {}
    {
      hide Front, GoodLogs, AllUpToDate, Mtrie.Canonical, Mtrie.Subs;
      subscriptions, unique := Mtrie.Add(subscriptions, topic, p);
    }

    /** A new pipe joins the distributor: it is active between messages, and waits for the next one within a message. */
    method Join(p: PipeId)
      requires Valid() && p !in All(dist.View())
      modifies dist, dist.pipes
      ensures Valid() && All(dist.View()) == old(All(dist.View())) + {p}
      ensures Eligible(dist.View()) == old(Eligible(dist.View())) + {p}
      ensures Active(dist.View()) == if more then old(Active(dist.View())) else old(Active(dist.View())) + {p}
      ensures Matching(dist.View()) == old(Matching(dist.View())) && dist.log == old(dist.log)[p := []]
    {
      AttachKeeps(dist.View(), clock, p);
      FrontAll(dist.pipes.items, p);
      hide Distribution.Attach, Front, GoodLogs, AllUpToDate, Mtrie.Canonical, Mtrie.Subs;
      dist.Attach(p);
    }

    /** A new pipe, which may be subscribed to everything at once. */
    method AttachPipe(p: PipeId, subscribeToAll: bool)
      requires Valid() && p !in All(dist.View())
      modifies this, dist, dist.pipes
      ensures Valid() && more == old(more) && clock == old(clock) && stale == old(stale)
      ensures All(dist.View()) == old(All(dist.View())) + {p} && Eligible(dist.View()) == old(Eligible(dist.View())) + {p}
      ensures Active(dist.View()) == if more then old(Active(dist.View())) else old(Active(dist.View())) + {p}
      ensures Matching(dist.View()) == old(Matching(dist.View())) && dist.log == old(dist.log)[p := []]
      ensures forall t :: Mtrie.Subs(subscriptions, t) == (if subscribeToAll && t == [] then {p} else {}) + old(Mtrie.Subs(subscriptions, t))
    {
      hide *;
      Join(p);
      if subscribeToAll {
        var unique := Subscribe(p, []);
      }
    }

    /** A pipe goes with all its subscriptions; topics that nobody wants any more are passed on upstream, in
        lexicographic order. */
    method PipeTerminated(p: PipeId) returns (unsubscribed: seq<Mtrie.Topic>)
      requires Valid() && p in All(dist.View())
      modifies this, dist, dist.pipes
      ensures Valid() && more == old(more) && stale == old(stale)
      ensures forall t :: Mtrie.Subs(subscriptions, t) == old(Mtrie.Subs(subscriptions, t)) - {p}
      ensures All(dist.View()) == old(All(dist.View())) - {p} && Matching(dist.View()) == old(Matching(dist.View())) - {p}
      ensures MtriePipe.Increasing(unsubscribed) && forall t :: t in unsubscribed <==> old(Mtrie.Subs(subscriptions, t)) == {p}
    {
      ghost var n, d := subscriptions, dist.View();
      InItems(d, p);
      TerminatedKeeps(d, clock, dist.pipes.Index(p));
      hide Distribution.Terminated, Distribution.Valid, Front, Parted, Grown;
      subscriptions, unsubscribed := MtriePipe.Rm(subscriptions, p);
      GrownLess(n, subscriptions, All(d), p);
      hide Mtrie.Subs;
      dist.PipeTerminated(p);
    }

    /** Mark the pipes that the trie calls for. */
    method MarkAll(calls: seq<PipeId>)
      requires dist.Valid() && Distribution.Valid(dist.View(), clock) && !dist.more
      requires forall p :: p in calls ==> p in All(dist.View())
      modifies dist, dist.pipes
      ensures dist.Valid() && Marked(old(dist.View()), dist.View(), clock, calls)
    {
      ghost var d0 := dist.View();
      NothingMarked(d0, clock);
      hide Distribution.Valid, Marked, Distribution.Match, Front, Parted, PipeArray.Valid;
      for i := 0 to |calls|
        invariant dist.Valid() && Marked(d0, dist.View(), clock, calls[..i])
      {
        MarkedIsValid(d0, dist.View(), clock, calls[..i]);
        InItems(dist.View(), calls[i]);
        MarkOne(d0, dist.View(), clock, calls[..i], dist.pipes.Index(calls[i]));
        assert calls[..i + 1] == calls[..i] + [calls[i]];
        dist.Match(calls[i]);
      }
      assert calls[..|calls|] == calls;
    }

    /** The pipes that the next part is for: within a message the marked ones. Before a message the subscribers
        that can take messages are marked in addition. */
    ghost function Wanted(data: Mtrie.Topic): set<PipeId>
      requires Sound()
      reads this, dist, dist.pipes
    {
      if more then Matching(dist.View()) else Matching(dist.View()) + Subscribers(subscriptions, data) * Active(dist.View())
    }

    /** For the first part, mark the subscribers. */
    method Prepare(data: Mtrie.Topic)
      requires Sound()
      modifies dist, dist.pipes
      ensures Sound() && Matching(dist.View()) == old(Wanted(data)) && dist.log == old(dist.log)
      ensures Active(dist.View()) == old(Active(dist.View())) && All(dist.View()) == old(All(dist.View()))
    {
      if !more {
        var calls := MtrieRuns.Match(subscriptions, data);
        ghost var blocks :| MtrieRuns.FiredAll(subscriptions, data, calls, blocks);
        CallsAreSubscribers(subscriptions, data, calls, blocks, All(dist.View()));
        MarkAll(calls);
      }
    }

    /** Send a part; `full` are the pipes at their high watermark. If pipes must not be skipped and one of those
        wanted is full, nothing is sent, but the marks stay. */
    method Send(data: Mtrie.Topic, msgMore: bool, refusing: set<PipeId>, full: set<PipeId>) returns (sent: bool)
      requires Valid()
      modifies this, dist, dist.pipes
      ensures Valid() && subscriptions == old(subscriptions) && All(dist.View()) == old(All(dist.View()))
      ensures sent <==> lossy || old(Wanted(data)) !! full
      ensures sent ==> Logged(old(dist.log), dist.log, old(Wanted(data)) - refusing, Part(old(clock).msg, old(clock).no, msgMore))
      ensures sent ==> more == msgMore && stale == (msgMore && old(stale)) && (!msgMore ==> Matching(dist.View()) == {})
      ensures !sent ==> more == old(more) && stale == (!more || old(stale)) && dist.log == old(dist.log)
      ensures !sent ==> Matching(dist.View()) == old(Wanted(data)) && clock == old(clock) && Active(dist.View()) == old(Active(dist.View()))
    {
      hide Wanted, Reached, Subscribers, Front, Logged, Agrees, Distribution.Valid, Parted, Distributor.Valid;
      Prepare(data);
      sent := dist.CheckHwm(full);
      if lossy || sent {
        sent := true;
        Transmit(Part(clock.msg, clock.no, msgMore), refusing);
        stale := msgMore && stale;
      } else {
        stale := !more || stale;
      }
    }

    /** A first part goes to exactly the subscribers that can take it if and only if the pipes marked before, other than
        those that refuse, are subscribers too; that is so whenever no message was refused since the last complete one. */
    lemma WantedIs(data: Mtrie.Topic, refusing: set<PipeId>)
      requires Valid() && !more
      ensures Wanted(data) - refusing == Reached(data) - refusing
        <==> Matching(dist.View()) - refusing <= Subscribers(subscriptions, data)
      ensures !stale ==> Wanted(data) == Reached(data)
    {
      MarksAreActive(dist.View());
      ExactRecipients(Matching(dist.View()), Subscribers(subscriptions, data), Active(dist.View()), refusing);
    }

    /** The subscribers of the data that can take a message. */
    ghost function Reached(data: Mtrie.Topic): set<PipeId>
      requires Sound()
      reads this, dist, dist.pipes
    {
      Subscribers(subscriptions, data) * Active(dist.View())
    }

    /** Send to the marked pipes, and take the marks off after the last part. */
    method Transmit(part: Part, refusing: set<PipeId>)
      requires Sound() && part.msg == clock.msg && part.no == clock.no
      modifies this, dist, dist.pipes
      ensures subscriptions == old(subscriptions) && stale == old(stale)
      ensures Sound() && more == part.more && All(dist.View()) == old(All(dist.View()))
      ensures Logged(old(dist.log), dist.log, old(Matching(dist.View())) - refusing, part)
      ensures !part.more ==> Matching(dist.View()) == {}
    {
      TransmitKeeps(subscriptions, dist.View(), clock, part, refusing);
      hide Agrees, Transmitted, Distribution.Valid, Parted, Front, Logged, Distributor.Valid;
      clock, more := Tick(part, false), part.more;
      Dispatch(dist, part, refusing);
    }
  }

  method Dispatch(dist: Distributor, part: Part, refusing: set<PipeId>)
    requires dist.Valid()
    modifies dist, dist.pipes
    ensures dist.Valid() && dist.View() == Transmitted(old(dist.View()), part, refusing)
  {
    hide Distribution.SendToMatching, Distribution.Unmatch, Offered, Content.Balanced, PipeArray.Valid;
    var tried, shared, closed := dist.SendToMatching(part, refusing, null, false, []);
    if !part.more {
      dist.Unmatch();
    }
  }

  /** The distributor after a part was sent to the marked pipes, and the marks taken off after the last one. */
  function Transmitted(d: Dist, part: Part, refusing: set<PipeId>): Dist
    requires d.matching <= d.active <= d.eligible <= |d.items|
  {
    var d1 := Distribution.SendToMatching(d, part, refusing);
    if part.more then d1 else Distribution.Unmatch(d1)
  }

  lemma TransmitKeeps(n: Mtrie.Node, d: Dist, c: Clock, part: Part, refusing: set<PipeId>)
    requires Agrees(n, d, c, d.more) && part.msg == c.msg && part.no == c.no
    ensures var d' := Transmitted(d, part, refusing);
      && Agrees(n, d', Tick(part, false), part.more) && All(d') == All(d)
      && Logged(d.log, d'.log, Matching(d) - refusing, part) && (!part.more ==> Matching(d') == {})
  {
    SendToMatchingKeeps(d, c, part, refusing);
    var d1 := Distribution.SendToMatching(d, part, refusing);
    hide Distribution.SendToMatching, Offered, Logged, Flushed, Once, Grown;
    UnmatchKeeps(d1, Tick(part, false));
    hide Distribution.Valid, Distribution.Unmatch, Front, Parted;
  }

  lemma MarksAreActive(d: Dist)
    requires Parted(d)
    ensures Matching(d) <= Active(d)
  {
  }

  /** Old marks do no harm exactly when they are on subscribers, or on pipes that refuse. */
  lemma ExactRecipients(marks: set<PipeId>, subs: set<PipeId>, active: set<PipeId>, refusing: set<PipeId>)
    requires marks <= active
    ensures (marks + subs * active) - refusing == subs * active - refusing <==> marks - refusing <= subs
    ensures marks == {} ==> marks + subs * active == subs * active
  {
    if (marks + subs * active) - refusing == subs * active - refusing {
      forall p | p in marks - refusing ensures p in subs {
        assert p in (marks + subs * active) - refusing;
      }
    }
  }

  /** Two messages to a publisher that must not skip pipes. Pipe 1 subscribes to [1] only. A message [1] is refused as
      the pipe is full; the message [2] that follows goes to it. */
  method MarksOutlive() returns (pub: Publisher)
    ensures 1 in pub.dist.log && pub.dist.log[1] == [Part(0, 0, false)]
    ensures 1 !in Subscribers(pub.subscriptions, [2])
  {
    pub := new Publisher(false);
    pub.AttachPipe(1, false);
    var unique := pub.Subscribe(1, [1]);
    OnlyTopic(pub.subscriptions, 1, [1]);
    hide *;
    var sent := pub.Send([1], false, {}, {1});
    sent := pub.Send([2], false, {}, {});
  }

  /** A pipe subscribed to one byte only hears of data that start with it. */
  lemma OnlyTopic(n: Mtrie.Node, p: PipeId, topic: Mtrie.Topic)
    requires |topic| == 1 && forall t :: Mtrie.Subs(n, t) == if t == topic then {p} else {}
    ensures forall b: Mtrie.Byte :: Subscribers(n, [b]) == if [b] == topic then {p} else {}
  {
    forall b: Mtrie.Byte ensures Subscribers(n, [b]) == if [b] == topic then {p} else {} {
      assert [b][..0] == [] && [b][..1] == [b];
      assert UpTo(n, [b], 0) == {};
      assert UpTo(n, [b], 1) == {} + Mtrie.Subs(n, []);
      assert UpTo(n, [b], 2) == UpTo(n, [b], 1) + Mtrie.Subs(n, [b]);
    }
  }

  lemma CallsAreSubscribers(n: Mtrie.Node, data: Mtrie.Topic, calls: seq<PipeId>, blocks: seq<seq<PipeId>>, all: set<PipeId>)
    requires MtrieRuns.FiredAll(n, data, calls, blocks) && Grown(n, all)
    ensures Called(calls) == Subscribers(n, data) && Called(calls) <= all
  {
    forall p ensures p in calls <==> p in Subscribers(n, data) {
      FiredAre(n, data, |data| + 1, calls, blocks, p);
    }
    forall p | p in calls ensures p in all {
      UpToIs(n, data, |data| + 1, p);
    }
  }

  lemma InItems(d: Dist, p: PipeId)
    requires Parted(d) && p in All(d)
    ensures p in d.items
  {
    FrontAll(d.items, p);
  }

  lemma GrownLess(n: Mtrie.Node, n': Mtrie.Node, all: set<PipeId>, p: PipeId)
    requires Grown(n, all) && Mtrie.Canonical(n') && forall t :: Mtrie.Subs(n', t) == Mtrie.Subs(n, t) - {p}
    ensures Grown(n', all - {p})
  {
    hide Mtrie.Subs, Mtrie.Canonical;
  }

  // ---- marking ----

  /** The active ones among the called pipes have been marked. */
  ghost predicate Marked(d0: Dist, d: Dist, c: Clock, calls: seq<PipeId>) {
    && Parted(d0) && Distribution.Valid(d, c) && !d.more && d.log == d0.log
    && Active(d) == Active(d0) && All(d) == All(d0)
    && Matching(d) == Matching(d0) + Called(calls) * Active(d0)
  }

  ghost function Called(calls: seq<PipeId>): set<PipeId> {
    set p | p in calls
  }

  lemma NothingMarked(d: Dist, c: Clock)
    requires Distribution.Valid(d, c) && !d.more
    ensures Marked(d, d, c, [])
  {
  }

  lemma MarkedIsValid(d0: Dist, d: Dist, c: Clock, calls: seq<PipeId>)
    requires Marked(d0, d, c, calls)
    ensures Distribution.Valid(d, c) && !d.more && d.active == d.eligible && Parted(d) && Parted(d0) && All(d) == All(d0)
  {
  }

  lemma MarkOne(d0: Dist, d: Dist, c: Clock, calls: seq<PipeId>, i: nat)
    requires Marked(d0, d, c, calls) && i < |d.items| && d.matching <= d.eligible <= |d.items|
    ensures Marked(d0, Distribution.Match(d, i), c, calls + [d.items[i]])
  {
    MatchKeeps(d, c, i);
    var p := d.items[i];
    assert Called(calls + [p]) == Called(calls) + {p};
    hide Called, Distribution.Match, Front, GoodLogs, AllUpToDate, Distinct;
  }
}
