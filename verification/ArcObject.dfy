/** The Adaptive Replacement Cache as an object. */
module ArcObject {
  import opened YPipes
  import opened Arc

  class Manager {
    const capacity: nat
    var t1: seq<Key>
    var t2: seq<Key>
    var b1: seq<Key>
    var b2: seq<Key>
    var targetT1Size: nat
    var currentLocations: map<Key, Place>

    ghost predicate Valid()
      reads this
    {
      Sizes(View()) && Indexed(View())
    }

    ghost function View(): Cache
      reads this
    {
      Cache(capacity, t1, t2, b1, b2, targetT1Size, currentLocations)
    }

    constructor (capacity: nat)
      requires capacity >= 1
      ensures Valid() && View() == Empty(capacity)
    {
      this.capacity := capacity;
      t1, t2, b1, b2, targetT1Size, currentLocations := [], [], [], [], 0, map[];
    }

    function LeftSideSize(): nat
      reads this
    {
      |t1| + |b1|
    }

    function DirectorySize(): nat
      reads this
    {
      |t1| + |b1| + |t2| + |b2|
    }

    /** `hit` is the queue of the ghost that was hit, if any. */
    method FreeRoom(hit: Option<Place>) returns (evicted: Option<Key>)
      modifies this
      ensures (View(), evicted) == Arc.FreeRoom(old(View()), hit)
    {
      if t1 != [] && (|t1| > targetT1Size || (|t1| == targetT1Size && hit == Some(B2))) {
        var head := t1[0];
        t1, b1 := t1[1..], b1 + [head];
        currentLocations := currentLocations[head := B1];
        return Some(head);
      } else if t2 == [] {
        return None;
      } else {
        var head := t2[0];
        t2, b2 := t2[1..], b2 + [head];
        currentLocations := currentLocations[head := B2];
        return Some(head);
      }
    }

    method OnMiss(x: Key) returns (evicted: Option<Key>)
      requires Sizes(View())
      modifies this
      ensures (View(), evicted) == Arc.OnMiss(old(View()), x)
    {
      evicted := None;
      if LeftSideSize() >= capacity {
        if |t1| < capacity {
          currentLocations := currentLocations - {b1[0]};
          b1 := b1[1..];
          evicted := FreeRoom(None);
        } else {
          evicted := Some(t1[0]);
          currentLocations := currentLocations - {t1[0]};
          t1 := t1[1..];
        }
      } else if DirectorySize() >= capacity {
        if DirectorySize() >= 2 * capacity {
          currentLocations := currentLocations - {b2[0]};
          b2 := b2[1..];
        }
        evicted := FreeRoom(None);
      }
      t1 := t1 + [x];
      currentLocations := currentLocations[x := T1];
    }

    /** Take a key from its queue and put it at the end of t2. */
    method MoveToT2(x: Key, from: Place)
      modifies this
      ensures View() == ToT2(old(View()), x, from)
    {
      match from {
        case T1 => t1 := Without(t1, x);
        case T2 => t2 := Without(t2, x);
        case B1 => b1 := Without(b1, x);
        case B2 => b2 := Without(b2, x);
      }
      t2 := t2 + [x];
      currentLocations := currentLocations[x := T2];
    }

    method OnHit(x: Key, from: Place) returns (evicted: Option<Key>)
      requires (from == B1 ==> b1 != []) && (from == B2 ==> b2 != [])
      modifies this
      ensures (View(), evicted) == Arc.OnHit(old(View()), x, from)
    {
      evicted := None;
      if from == T1 || from == T2 {
        MoveToT2(x, from);
      } else {
        if from == B1 {
          targetT1Size := Min(targetT1Size + Max(|b2| / |b1|, 1), capacity);
        } else {
          targetT1Size := Max(targetT1Size - Max(|b1| / |b2|, 1), 0);
        }
        hide Arc.FreeRoom, ToT2;
        evicted := FreeRoom(Some(from));
        MoveToT2(x, from);
      }
    }

    /** Every visit keeps the bounds and the index, makes x resident and evicts at most one other key. */
    method Visit(x: Key) returns (evicted: Option<Key>)
      requires Valid()
      modifies this
      ensures Valid() && (View(), evicted) == Arc.Visit(old(View()), x)
      ensures Admits(old(View()), View(), x, evicted)
    {
      VisitSizes(View(), x);
      VisitResidents(View(), x);
      if x in currentLocations {
        NonEmpty(View(), x);
        hide Arc.OnHit, Sizes, Indexed;
        evicted := OnHit(x, currentLocations[x]);
      } else {
        hide Arc.OnMiss, Indexed;
        evicted := OnMiss(x);
      }
    }

    method Remove(x: Key)
      modifies this
      ensures View() == Arc.Remove(old(View()), x)
    {
      if x in currentLocations {
        match currentLocations[x] {
          case T1 => t1 := Without(t1, x);
          case T2 => t2 := Without(t2, x);
          case B1 => b1 := Without(b1, x);
          case B2 => b2 := Without(b2, x);
        }
        currentLocations := currentLocations - {x};
      }
    }
  }
}
