/** The distributor as an object, and the content of long messages with its reference count. */
module DistObject {
  import opened PipeArrays
  import opened Distribution

  // ---- message content and its reference count ----

  /** The content of a long message. `live` counts the copies in the hands of others: in pipes, or
      taken from them. `freed` counts deallocations. */
  class Content {
    var refcnt: nat
    var freed: nat
    var live: nat

    constructor ()
      ensures refcnt == 0 && freed == 0 && live == 0
    {
      refcnt, freed, live := 0, 0, 0;
    }

    /** The books are right when the sender holds `held` references: the content is freed, once, as
        soon as nobody holds a reference; until then a shared one counts all references, and one
        that is not shared has a single holder. */
    ghost predicate Balanced(shared: bool, held: nat)
      reads this
    {
      if live + held == 0 then freed == 1
      else freed == 0 && if shared then refcnt == live + held else live + held == 1
    }

    /** Close the sender's message (`mine`) or a copy of a receiver. */
    method Close(shared: bool, mine: bool, ghost held: nat)
      requires Balanced(shared, held) && (if mine then held > 0 else live > 0)
      modifies this
      ensures live == old(live) - (if mine then 0 else 1)
      ensures Balanced(shared, held - (if mine then 1 else 0))
    {
      if !mine {
        live := live - 1;
      }
      if shared {
        refcnt := refcnt - 1;
      }
      if !shared || refcnt == 0 {
        freed := freed + 1;
      }
    }

    method AddRefs(refs: nat, shared: bool) returns (shared': bool)
      requires Balanced(shared, 1)
      modifies this
      ensures Balanced(shared', 1 + refs) && live == old(live)
    {
      shared' := shared;
      if refs != 0 {
        if shared {
          refcnt := refcnt + refs;
        } else {
          refcnt := refs + 1;
          shared' := true;
        }
      }
    }

    method RmRefs(refs: nat, shared: bool)
      requires Balanced(shared, refs)
      modifies this
      ensures Balanced(shared, 0) && live == old(live)
    {
      if refs == 0 {
        return;
      }
      if !shared {
        Close(shared, true, refs);
        return;
      }
      refcnt := refcnt - refs;
      if refcnt == 0 {
        freed := freed + 1;
      }
    }

    /** The sender's reference goes to a pipe. */
    method HandOver(shared: bool, ghost held: nat)
      requires Balanced(shared, held) && held > 0
      modifies this
      ensures Balanced(shared, held - 1) && live == old(live) + 1
    {
      live := live + 1;
    }

    /** Receivers close k of their copies, or all if they have fewer. */
    method ReceiversClose(k: nat, shared: bool, ghost held: nat) returns (closed: nat)
      requires Balanced(shared, held)
      modifies this
      ensures Balanced(shared, held) && live + closed == old(live)
    {
      closed := 0;
      while closed < k && live > 0
        invariant Balanced(shared, held) && live + closed == old(live)
      {
        Close(shared, false, held);
        closed := closed + 1;
      }
    }
  }

  /** After one write of the message: a reference has gone to the pipe if it took the message, and then
      receivers may close some copies. */
  method Settle(content: Content?, shared: bool, took: bool, closings: seq<nat>, turn: nat, ghost held: nat) returns (closed: nat)
    requires content != null ==> content.Balanced(shared, held) && (took ==> held > 0)
    modifies content
    ensures content != null ==> content.Balanced(shared, if took then held - 1 else held)
    ensures content != null ==> content.live + closed == old(content.live) + if took then 1 else 0
  {
    closed := 0;
    if content != null {
      if took {
        content.HandOver(shared, held);
      }
      if turn < |closings| {
        closed := content.ReceiversClose(closings[turn], shared, if took then held - 1 else held);
      }
    }
  }

  // ---- the object ----

  class Distributor {
    const pipes: PipeArray
    var matching: nat
    var active: nat
    var eligible: nat
    var more: bool
    var log: map<PipeId, seq<Part>>
    var flushed: map<PipeId, nat>

    ghost predicate Valid()
      reads this, pipes
    {
      pipes.Valid() && matching <= active <= eligible <= |pipes.items|
    }

    ghost function View(): Dist
      reads this, pipes
    {
      Dist(pipes.items, matching, active, eligible, more, log, flushed)
    }

    constructor ()
      ensures Valid() && View() == EMPTY && fresh(pipes)
    {
      pipes := new PipeArray();
      matching, active, eligible, more := 0, 0, 0, false;
      log, flushed := map[], map[];
    }

    method Attach(p: PipeId)
      requires Valid() && p !in pipes.items && (!more ==> active == eligible)
      modifies this, pipes
      ensures Valid() && View() == Distribution.Attach(old(View()), p)
    {
      log, flushed := log[p := []], flushed[p := 0];
      if more {
        pipes.PushBack(p);
        pipes.Swap(eligible, |pipes.items| - 1);
        eligible := eligible + 1;
      } else {
        pipes.PushBack(p);
        pipes.Swap(active, |pipes.items| - 1);
        active := active + 1;
        eligible := eligible + 1;
      }
    }

    method Match(p: PipeId)
      requires Valid() && p in pipes.items && !more && active == eligible
      modifies this, pipes
      ensures Valid() && View() == Distribution.Match(old(View()), old(pipes.Index(p)))
    {
      if pipes.Index(p) < matching {
        return;
      }
      if pipes.Index(p) >= eligible {
        return;
      }
      pipes.Swap(pipes.Index(p), matching);
      matching := matching + 1;
    }

    method Unmatch()
      requires Valid()
      modifies this
      ensures Valid() && View() == Distribution.Unmatch(old(View()))
    {
      matching := 0;
    }

    method LeaveMatching(p: PipeId)
      requires Valid() && p in pipes.items
      modifies this, pipes
      ensures Valid() && View() == Distribution.LeaveMatching(old(View()), old(pipes.Index(p)))
      ensures p in pipes.items && pipes.Index(p) == Left(old(pipes.Index(p)), old(matching)) >= matching
    {
      if pipes.Index(p) < matching {
        ghost var s, i := pipes.items, pipes.Index(p);
        pipes.Swap(pipes.Index(p), matching - 1);
        matching := matching - 1;
        assert pipes.items[matching] == p;
      }
    }

    method LeaveActive(p: PipeId)
      requires Valid() && p in pipes.items && pipes.Index(p) >= matching
      modifies this, pipes
      ensures Valid() && View() == Distribution.LeaveActive(old(View()), old(pipes.Index(p)))
      ensures p in pipes.items && pipes.Index(p) == Left(old(pipes.Index(p)), old(active)) >= active
    {
      if pipes.Index(p) < active {
        ghost var s, i := pipes.items, pipes.Index(p);
        pipes.Swap(pipes.Index(p), active - 1);
        active := active - 1;
        assert pipes.items[active] == p;
      }
    }

    method LeaveEligible(p: PipeId)
      requires Valid() && p in pipes.items && pipes.Index(p) >= active
      modifies this, pipes
      ensures Valid() && View() == Distribution.LeaveEligible(old(View()), old(pipes.Index(p)))
      ensures p in pipes.items && pipes.Index(p) == Left(old(pipes.Index(p)), old(eligible)) >= eligible
    {
      if pipes.Index(p) < eligible {
        ghost var s, i := pipes.items, pipes.Index(p);
        pipes.Swap(pipes.Index(p), eligible - 1);
        eligible := eligible - 1;
        assert pipes.items[eligible] == p;
      }
    }

    method PipeTerminated(p: PipeId)
      requires Valid() && p in pipes.items
      modifies this, pipes
      ensures Valid() && View() == Distribution.Terminated(old(View()), old(pipes.Index(p)))
    {
      hide PipeArray.Valid, Left, Swapped;
      LeaveMatching(p);
      LeaveActive(p);
      LeaveEligible(p);
      pipes.Erase(p);
    }

    method Activated(p: PipeId)
      requires Valid() && p in pipes.items && pipes.Index(p) >= eligible && (!more ==> active == eligible)
      modifies this, pipes
      ensures Valid() && View() == Distribution.Activated(old(View()), old(pipes.Index(p)))
    {
      pipes.Swap(pipes.Index(p), eligible);
      eligible := eligible + 1;
      if !more {
        pipes.Swap(eligible - 1, active);
        active := active + 1;
      }
    }

    /** Make the pipe in place i, which is matching, passive. */
    method Demote(i: nat)
      requires Valid() && i < matching
      modifies this, pipes
      ensures Valid() && pipes.items == Demoted(old(pipes.items), i, old(matching), old(active), old(eligible))
      ensures matching == old(matching) - 1 && active == old(active) - 1 && eligible == old(eligible) - 1
      ensures more == old(more) && log == old(log) && flushed == old(flushed)
    {
      var p := pipes.items[i];
      hide Swapped, PipeArray.Valid;
      LeaveMatching(p);
      LeaveActive(p);
      pipes.Swap(active, eligible - 1);
      eligible := eligible - 1;
    }

    /** Write to the pipe in place i, which is matching; it takes the part if `ok`. */
    method Write(i: nat, part: Part, ok: bool)
      requires Valid() && i < matching
      modifies this, pipes
      ensures Valid() && View() == Distribution.Write(old(View()), i, part, ok)
    {
      if !ok {
        Demote(i);
        return;
      }
      var p := pipes.items[i];
      log := log[p := (if p in log then log[p] else []) + [part]];
      if !part.more {
        flushed := flushed[p := |log[p]|];
      }
    }

    /** Offer the part to every matching pipe; those in `refusing` refuse. Receivers may close copies of
        the content (if there is one) after each write. */
    method PushAll(part: Part, refusing: set<PipeId>, content: Content?, shared: bool, closings: seq<nat>)
      returns (tried: seq<PipeId>, failed: nat, closed: nat)
      requires Valid() && (content != null ==> content.Balanced(shared, matching))
      modifies this, pipes, content
      ensures Valid() && View() == Push(old(View()), 0, part, refusing)
      ensures tried == Offered(old(View()), 0, part, refusing)
      ensures matching + failed == old(matching)
      ensures content != null ==> content.Balanced(shared, failed) && content.live + closed == old(content.live) + matching
    {
      tried, failed, closed := [], 0, 0;
      var i := 0;
      ghost var d0, d := View(), View();
      assert Along(d0, d, 0, [], part, refusing);
      hide Distribution.Write, Along, Push, Offered, Content.Balanced, PipeArray.Valid;
      while i < matching
        invariant d == View() && i <= matching && Valid() && matching + failed == old(matching)
        invariant Along(d0, d, i, tried, part, refusing)
        invariant content != null ==> content.Balanced(shared, matching - i + failed)
        invariant content != null ==> content.live + closed == old(content.live) + i
        decreases matching - i
      {
        var p := pipes.items[i];
        var ok := p !in refusing;
        AlongTurn(d0, d, i, tried, part, refusing, ok);
        WriteCounts(d, i, part, ok);
        Write(i, part, ok);
        d := View();
        var k := Settle(content, shared, ok, closings, |tried|, d0.matching - i);
        tried, closed := tried + [p], closed + k;
        if ok {
          i := i + 1;
        } else {
          failed := failed + 1;
        }
      }
      AlongEnd(d0, d, tried, part, refusing);
    }

    /** Send a part to the matching pipes. `content` is that of a long message, other messages have none;
        the copies share it if `shared'`. The sender's reference is used up. */
    method Distribute(part: Part, refusing: set<PipeId>, content: Content?, shared: bool, closings: seq<nat>)
      returns (tried: seq<PipeId>, shared': bool, closed: nat)
      requires Valid() && (content != null ==> content.Balanced(shared, 1))
      modifies this, pipes, content
      ensures Valid() && View() == Push(old(View()), 0, part, refusing)
      ensures tried == Offered(old(View()), 0, part, refusing)
      ensures content != null ==> content.Balanced(shared', 0) && content.live + closed == old(content.live) + matching
    {
      shared', closed := shared, 0;
      if matching == 0 {
        tried := [];
        if content != null {
          content.Close(shared, true, 1);
        }
        return;
      }
      hide Push, Offered, PipeArray.Valid, Content.Balanced;
      if content != null {
        shared' := content.AddRefs(matching - 1, shared);
      }
      var failed;
      tried, failed, closed := PushAll(part, refusing, content, shared', closings);
      if content != null {
        content.RmRefs(failed, shared');
      }
    }

    method SendToMatching(part: Part, refusing: set<PipeId>, content: Content?, shared: bool, closings: seq<nat>)
      returns (tried: seq<PipeId>, shared': bool, closed: nat)
      requires Valid() && (content != null ==> content.Balanced(shared, 1))
      modifies this, pipes, content
      ensures Valid() && View() == Distribution.SendToMatching(old(View()), part, refusing)
      ensures tried == Offered(old(View()), 0, part, refusing)
      ensures content != null ==> content.Balanced(shared', 0) && content.live + closed == old(content.live) + matching
    {
      hide Push, Offered, PipeArray.Valid, Content.Balanced;
      tried, shared', closed := Distribute(part, refusing, content, shared, closings);
      if !part.more {
        active := eligible;
      }
      more := part.more;
    }

    method SendToAll(part: Part, refusing: set<PipeId>, content: Content?, shared: bool, closings: seq<nat>)
      returns (tried: seq<PipeId>, shared': bool, closed: nat)
      requires Valid() && (content != null ==> content.Balanced(shared, 1))
      modifies this, pipes, content
      ensures Valid() && View() == Distribution.SendToAll(old(View()), part, refusing)
      ensures tried == Offered(old(View()).(matching := old(active)), 0, part, refusing)
      ensures content != null ==> content.Balanced(shared', 0) && content.live + closed == old(content.live) + matching
    {
      hide Distribution.SendToMatching, Push, Offered, PipeArray.Valid, Content.Balanced;
      matching := active;
      tried, shared', closed := SendToMatching(part, refusing, content, shared, closings);
    }

    /** No matching pipe is at its high watermark, `full` being the pipes that are. */
    method CheckHwm(full: set<PipeId>) returns (ok: bool)
      requires Valid()
      ensures ok <==> Front(pipes.items, matching) !! full
    {
      PlacesAreDistinct(pipes);
      for i := 0 to matching
        invariant Front(pipes.items, i) !! full
      {
        FrontStep(pipes.items, i);
        if pipes.items[i] in full {
          FrontAt(pipes.items, matching, i);
          return false;
        }
      }
      return true;
    }
  }

  lemma WriteCounts(d: Dist, i: nat, part: Part, ok: bool)
    requires i < d.matching <= d.active <= d.eligible <= |d.items|
    ensures Distribution.Write(d, i, part, ok).matching == if ok then d.matching else d.matching - 1
  {
  }
}
