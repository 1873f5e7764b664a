/** The load balancer: messages are written to the active pipes in turn. */
module LoadBalancer {
  import opened YPipes
  import opened PipeArrays
  import RoundRobin

  /** The rest of a message is dropped once its pipe is gone. */
  datatype Result = Done(o: RoundRobin.Outcome) | Dropped

  class Lb {
    const pipes: PipeArray
    var active: nat
    var current: nat
    var more: bool
    var dropping: bool
    var flushes: seq<PipeId>

    ghost predicate Valid()
      reads this, pipes
    {
      pipes.Valid() && RoundRobin.InRange(View()) && (dropping ==> more)
    }

    ghost function View(): RoundRobin.Ring
      reads this, pipes
    {
      RoundRobin.Ring(pipes.items, active, current, more)
    }

    constructor ()
      ensures Valid() && View() == RoundRobin.EMPTY && !dropping && flushes == [] && fresh(pipes)
    {
      pipes := new PipeArray();
      active, current, more, dropping, flushes := 0, 0, false, false, [];
    }

    method Activated(p: PipeId)
      requires Valid() && p in pipes.items && pipes.Index(p) >= active
      modifies this, pipes
      ensures Valid() && View() == RoundRobin.Activated(old(View()), old(pipes.Index(p))) && RoundRobin.Active(View(), p, old(active))
      ensures dropping == old(dropping) && flushes == old(flushes)
    {
      pipes.Swap(pipes.Index(p), active);
      active := active + 1;
    }

    method Attach(p: PipeId)
      requires Valid() && p !in pipes.items
      modifies this, pipes
      ensures Valid() && View() == RoundRobin.Attach(old(View()), p) && RoundRobin.Active(View(), p, old(active))
      ensures dropping == old(dropping) && flushes == old(flushes)
    {
      pipes.PushBack(p);
      assert pipes.items[|pipes.items| - 1] == p;
      Activated(p);
    }

    /** The active pipe in place `index` leaves the active ones. */
    method Retire(index: nat)
      requires Valid() && index < active
      modifies this, pipes
      ensures Valid() && View() == RoundRobin.Retired(old(View()), index)
      ensures dropping == old(dropping) && flushes == old(flushes)
    {
      active := active - 1;
      pipes.Swap(index, active);
      if current == active {
        current := 0;
      }
    }

    method PipeTerminated(p: PipeId)
      requires Valid() && p in pipes.items
      modifies this, pipes
      ensures Valid() && View() == RoundRobin.Terminated(old(View()), old(pipes.Index(p)))
      ensures dropping == (old(dropping) || (old(more) && old(pipes.Index(p)) == old(current))) && flushes == old(flushes)
    {
      var index := pipes.Index(p);
      if index == current && more {
        dropping := true;
      }
      if index < active {
        Retire(index);
        assert pipes.items[active] == p;
      }
      hide PipeArray.Valid, Swapped;
      pipes.Erase(p);
    }

    /** Write the next part to a pipe; `writable` are the pipes that take one, `msgMore` says whether it is
        followed by another one. A complete message is flushed. */
    method SendPipe(writable: set<PipeId>, msgMore: bool) returns (result: Result)
      requires Valid()
      modifies this, pipes
      ensures Valid()
      ensures old(dropping) ==> result == Dropped && View() == old(View()).(more := msgMore) && dropping == msgMore && flushes == old(flushes)
      ensures !old(dropping) ==> result.Done? && (View(), result.o) == RoundRobin.Serve(old(View()), writable, msgMore) && !dropping
      ensures !old(dropping) ==> flushes == if result.o.Served? && !msgMore then old(flushes) + [result.o.p] else old(flushes)
    {
      if dropping {
        more := msgMore;
        dropping := more;
        return Dropped;
      }
      while active > 0
        invariant Valid() && !dropping && flushes == old(flushes)
        invariant RoundRobin.Serve(View(), writable, msgMore) == RoundRobin.Serve(old(View()), writable, msgMore)
        invariant more == old(more)
        decreases active
      {
        if pipes.items[current] in writable {
          break;
        }
        if more {
          return Done(RoundRobin.Broken);
        }
        Deactivate();
      }
      if active == 0 {
        return Done(RoundRobin.Again);
      }
      var p := pipes.items[current];
      more := msgMore;
      if !more {
        flushes := flushes + [p];
        current := RoundRobin.Following(current, active);
      }
      return Done(RoundRobin.Served(p));
    }

    /** The current pipe takes nothing. */
    method Deactivate()
      requires Valid() && active > 0
      modifies this, pipes
      ensures Valid() && View() == RoundRobin.Retired(old(View()), old(current))
      ensures dropping == old(dropping) && flushes == old(flushes)
    {
      active := active - 1;
      if current < active {
        pipes.Swap(current, active);
      } else {
        current := 0;
      }
    }

    method HasOut(writable: set<PipeId>) returns (ok: bool)
      requires Valid()
      modifies this, pipes
      ensures Valid() && (View(), ok) == RoundRobin.Probe(old(View()), writable) && (ok <==> old(more) || RoundRobin.SomeReady(old(View()), writable))
      ensures dropping == old(dropping) && flushes == old(flushes)
    {
      PlacesAreDistinct(pipes);
      RoundRobin.SkipFinds(View(), writable);
      if more {
        return true;
      }
      while active > 0
        invariant Valid() && !more && dropping == old(dropping) && flushes == old(flushes)
        invariant RoundRobin.Skip(View(), writable) == RoundRobin.Skip(old(View()), writable)
        decreases active
      {
        if pipes.items[current] in writable {
          return true;
        }
        Deactivate();
      }
      return false;
    }
  }
}
