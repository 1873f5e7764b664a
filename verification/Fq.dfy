/** The fair queue: messages are fetched from the active pipes in turn. */
module FairQueue {
  import opened YPipes
  import opened PipeArrays
  import RoundRobin

  type Blob = seq<nat>

  class Fq {
    const pipes: PipeArray
    var active: nat
    var lastIn: Option<PipeId>
    var current: nat
    var more: bool
    var savedCredential: Blob

    ghost predicate Valid()
      reads this, pipes
    {
      pipes.Valid() && RoundRobin.InRange(View())
    }

    ghost function View(): RoundRobin.Ring
      reads this, pipes
    {
      RoundRobin.Ring(pipes.items, active, current, more)
    }

    constructor ()
      ensures Valid() && View() == RoundRobin.EMPTY && lastIn == None && savedCredential == [] && fresh(pipes)
    {
      pipes := new PipeArray();
      active, lastIn, current, more, savedCredential := 0, None, 0, false, [];
    }

    method Attach(p: PipeId)
      requires Valid() && p !in pipes.items
      modifies this, pipes
      ensures Valid() && View() == RoundRobin.Attach(old(View()), p) && RoundRobin.Active(View(), p, old(active)) && lastIn == old(lastIn) && savedCredential == old(savedCredential)
    {
      pipes.PushBack(p);
      pipes.Swap(active, |pipes.items| - 1);
      active := active + 1;
    }

    method Activated(p: PipeId)
      requires Valid() && p in pipes.items && pipes.Index(p) >= active
      modifies this, pipes
      ensures Valid() && View() == RoundRobin.Activated(old(View()), old(pipes.Index(p))) && RoundRobin.Active(View(), p, old(active)) && lastIn == old(lastIn) && savedCredential == old(savedCredential)
    {
      pipes.Swap(pipes.Index(p), active);
      active := active + 1;
    }

    /** The active pipe in place `index` leaves the active ones. */
    method Retire(index: nat)
      requires Valid() && index < active
      modifies this, pipes
      ensures Valid() && View() == RoundRobin.Retired(old(View()), index)
      ensures lastIn == old(lastIn) && savedCredential == old(savedCredential)
    {
      active := active - 1;
      pipes.Swap(index, active);
      if current == active {
        current := 0;
      }
    }

    /** `credential` is that of the pipe; it is kept if the last message came from this pipe. */
    method PipeTerminated(p: PipeId, credential: Blob)
      requires Valid() && p in pipes.items
      modifies this, pipes
      ensures Valid() && View() == RoundRobin.Terminated(old(View()), old(pipes.Index(p)))
      ensures lastIn == (if old(lastIn) == Some(p) then None else old(lastIn))
      ensures savedCredential == if old(lastIn) == Some(p) then credential else old(savedCredential)
    {
      var index := pipes.Index(p);
      if index < active {
        Retire(index);
        assert pipes.items[active] == p;
      }
      hide PipeArray.Valid, Swapped;
      pipes.Erase(p);
      if lastIn == Some(p) {
        savedCredential := credential;
        lastIn := None;
      }
    }

    /** The current pipe has nothing to read. */
    method Deactivate()
      requires Valid() && active > 0
      modifies this, pipes
      ensures Valid() && View() == RoundRobin.Retired(old(View()), old(current)) && lastIn == old(lastIn) && savedCredential == old(savedCredential)
    {
      active := active - 1;
      pipes.Swap(current, active);
      if current == active {
        current := 0;
      }
    }

    /** Fetch the next part; `readable` are the pipes that have one, `msgMore` says whether it is followed
        by another one. */
    method RecvPipe(readable: set<PipeId>, msgMore: bool) returns (o: RoundRobin.Outcome)
      requires Valid()
      modifies this, pipes
      ensures Valid() && (View(), o) == RoundRobin.Serve(old(View()), readable, msgMore)
      ensures lastIn == (if o.Served? && !msgMore then Some(o.p) else old(lastIn)) && savedCredential == old(savedCredential)
    {
      while active > 0
        invariant Valid() && lastIn == old(lastIn) && savedCredential == old(savedCredential)
        invariant RoundRobin.Serve(View(), readable, msgMore) == RoundRobin.Serve(old(View()), readable, msgMore)
        decreases active
      {
        var p := pipes.items[current];
        if p in readable {
          more := msgMore;
          if !more {
            lastIn := Some(p);
            current := RoundRobin.Following(current, active);
          }
          return RoundRobin.Served(p);
        }
        if more {
          return RoundRobin.Broken;
        }
        Deactivate();
      }
      return RoundRobin.Again;
    }

    method HasIn(readable: set<PipeId>) returns (ok: bool)
      requires Valid()
      modifies this, pipes
      ensures Valid() && (View(), ok) == RoundRobin.Probe(old(View()), readable) && (ok <==> old(more) || RoundRobin.SomeReady(old(View()), readable)) && lastIn == old(lastIn) && savedCredential == old(savedCredential)
    {
      PlacesAreDistinct(pipes);
      RoundRobin.SkipFinds(View(), readable);
      if more {
        return true;
      }
      while active > 0
        invariant Valid() && lastIn == old(lastIn) && savedCredential == old(savedCredential) && !more
        invariant RoundRobin.Skip(View(), readable) == RoundRobin.Skip(old(View()), readable)
        decreases active
      {
        if pipes.items[current] in readable {
          return true;
        }
        Deactivate();
      }
      return false;
    }

    /** The credential of the pipe of the last complete message, also after that pipe is gone; `credentials` are those
        of the attached pipes. */
    method GetCredential(credentials: map<PipeId, Blob>) returns (b: Blob)
      requires lastIn.Some? ==> lastIn.value in credentials
      ensures b == if lastIn.Some? then credentials[lastIn.value] else savedCredential
    {
      if lastIn.Some? {
        return credentials[lastIn.value];
      }
      return savedCredential;
    }
  }
}
