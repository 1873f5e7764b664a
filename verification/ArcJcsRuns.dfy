/** Whole runs of the second Adaptive Replacement Cache, what a get returns, and the object. */
module ArcJcsRuns {
  import opened YPipes
  import opened Arc
  import opened ArcJcs

  // ---- values ----

  /** The key is on T1 or T2. */
  predicate OnTop(s: Lists, k: Key) {
    k in s.at && (s.at[k] == T1 || s.at[k] == T2)
  }

  lemma PutStores(s: Lists, k: Key, v: Value)
    requires ArcJcs.Valid(s) && Somewhere(s) && !OnTop(s, k)
    ensures var s' := Put(s, k, v); OnTop(s', k) && k in s'.ce && s'.ce[k] == v
  {
  }

  /** A put on a resident key keeps the old element: a get right after a put returns what was put if and only
      if the key was not resident, or had this element already. */
  lemma GetAfterPut(s: Lists, k: Key, v: Value)
    requires ArcJcs.Valid(s)
    ensures Somewhere(s) && Somewhere(Put(s, k, v))
    ensures Get(Put(s, k, v), k).1 == Some(v) <==> !OnTop(s, k) || s.ce[k] == v
  {
    PutKeeps(s, k, v);
    IsSomewhere(Put(s, k, v));
    if !OnTop(s, k) {
      PutStores(s, k, v);
    }
    hide ArcJcs.Valid, PutNew, PutB1, PutB2;
  }

  // ---- runs ----

  datatype Op = DoPut(k: Key, v: Value) | DoGet(k: Key) | DoRemove(k: Key)

  function Step(s: Lists, op: Op): Lists
    requires s.max >= 1 && Somewhere(s)
  {
    match op
    case DoPut(k, v) => Put(s, k, v)
    case DoGet(k) => Get(s, k).0
    case DoRemove(k) => ArcJcs.Remove(s, k)
  }

  ghost predicate StepOf(s: Lists, op: Op, s': Lists) {
    s.max >= 1 && Somewhere(s) ==> s' == Step(s, op)
  }

  ghost predicate Run(max: nat, ops: seq<Op>, ss: seq<Lists>) {
    |ss| == |ops| + 1 && ss[0] == Initial(max) && forall i :: 0 <= i < |ops| ==> StepOf(ss[i], ops[i], ss[i + 1])
  }

  /** In every run the map indexes exactly the four lists, elements are null exactly on the lists of ghosts, and
      the bounds hold that are one above those the documentation gives. */
  lemma {:induction false} RunKeeps(max: nat, ops: seq<Op>, ss: seq<Lists>, i: nat)
    requires max >= 1 && Run(max, ops, ss) && i <= |ops|
    ensures ArcJcs.Valid(ss[i]) && ss[i].max == max
  {
    if i > 0 {
      var s, op := ss[i - 1], ops[i - 1];
      RunKeeps(max, ops, ss, i - 1);
      IsSomewhere(s);
      assert StepOf(s, op, ss[i]);
      match op
      case DoPut(k, v) => PutKeeps(s, k, v);
      case DoGet(k) => GetKeeps(s, k);
      case DoRemove(k) => RemoveKeeps(s, k);
    }
  }

  /** A cache for one element after: put 1, get 1, put 2, get 2, put 3. */
  function Witness(i: nat): Lists {
    if i == 0 then Initial(1)
    else if i == 1 then Lists(1, [1], [], [], [], 0, map[1 := T1], map[1 := 1])
    else if i == 2 then Lists(1, [], [1], [], [], 0, map[1 := T2], map[1 := 1])
    else if i == 3 then Lists(1, [2], [1], [], [], 0, map[1 := T2, 2 := T1], map[1 := 1, 2 := 2])
    else if i == 4 then Lists(1, [], [1, 2], [], [], 0, map[1 := T2, 2 := T2], map[1 := 1, 2 := 2])
    else Lists(1, [3], [2], [], [1], 0, map[1 := B2, 2 := T2, 3 := T1], map[2 := 2, 3 := 3])
  }

  lemma WitnessPuts()
    ensures StepOf(Witness(0), DoPut(1, 1), Witness(1)) && StepOf(Witness(2), DoPut(2, 2), Witness(3))
  {
    assert Put(Witness(0), 1, 1) == Witness(1);
    assert Put(Witness(2), 2, 2) == Witness(3);
  }

  lemma WitnessGets()
    ensures StepOf(Witness(1), DoGet(1), Witness(2)) && StepOf(Witness(3), DoGet(2), Witness(4))
  {
    assert Without([1], 1) == [] && Without([2], 2) == [];
    assert Get(Witness(1), 1).0 == Witness(2);
    assert Get(Witness(3), 2).0 == Witness(4);
  }

  lemma WitnessReplaces()
    ensures StepOf(Witness(4), DoPut(3, 3), Witness(5))
  {
    var s := Replace(Witness(4), None);
    assert s == Lists(1, [], [2], [], [1], 0, map[1 := B2, 2 := T2], map[2 := 2]);
    assert Put(Witness(4), 3, 3) == Witness(5);
  }

  /** The documented bounds do not hold: five operations on a cache for one element lead to two residents, and to
      three keys in all. */
  lemma DocumentedBoundsFail() returns (ss: seq<Lists>)
    ensures Run(1, [DoPut(1, 1), DoGet(1), DoPut(2, 2), DoGet(2), DoPut(3, 3)], ss)
    ensures |ss[3].t1| + |ss[3].t2| == 2 && Total(ss[5]) == 3
  {
    WitnessPuts();
    WitnessGets();
    WitnessReplaces();
    assert |Witness(3).t1| + |Witness(3).t2| == 2 && Total(Witness(5)) == 3;
    assert Witness(0) == Initial(1);
    hide StepOf, Witness, Initial, Total;
    ss := [Witness(0), Witness(1), Witness(2), Witness(3), Witness(4), Witness(5)];
    var ops := [DoPut(1, 1), DoGet(1), DoPut(2, 2), DoGet(2), DoPut(3, 3)];
    forall i | 0 <= i < |ops| ensures StepOf(ss[i], ops[i], ss[i + 1]) {
      assert i == 0 || i == 1 || i == 2 || i == 3 || i == 4;
    }
  }

  // ---- the object ----

  class MemoryCache {
    const maxSize: nat
    var t1: seq<Key>
    var t2: seq<Key>
    var b1: seq<Key>
    var b2: seq<Key>
    var target: nat
    var at: map<Key, Place>
    var ce: map<Key, Value>

    ghost function View(): Lists
      reads this
    {
      Lists(maxSize, t1, t2, b1, b2, target, at, ce)
    }

    ghost predicate Valid()
      reads this
    {
      ArcJcs.Valid(View())
    }

    constructor (maxSize: nat)
      requires maxSize >= 1
      ensures Valid() && View() == Initial(maxSize)
    {
      this.maxSize := maxSize;
      t1, t2, b1, b2, target, at, ce := [], [], [], [], maxSize / 2, map[], map[];
    }

    method Replace(orig: Option<Key>)
      modifies this
      ensures View() == ArcJcs.Replace(old(View()), orig)
    {
      if |t1| >= Max(1, target) {
        var k := t1[0];
        if orig != Some(k) {
          t1, b1, at, ce := t1[1..], b1 + [k], at[k := B1], ce - {k};
        }
      } else if |t2| + |t1| > maxSize && t2 != [] {
        var k := t2[0];
        if orig != Some(k) {
          t2, b2, at, ce := t2[1..], b2 + [k], at[k := B2], ce - {k};
        }
      }
    }

    method FoundInB1(k: Key, v: Value)
      requires b1 != []
      modifies this
      ensures View() == PutB1(old(View()), k, v)
    {
      target := Min(target + Max(|b2| / |b1|, 1), maxSize);
      b1 := Without(b1, k);
      Replace(Some(k));
      at, ce := at[k := T2], ce[k := v];
      t2 := t2 + [k];
    }

    method FoundInB2(k: Key, v: Value)
      requires b2 != []
      modifies this
      ensures View() == PutB2(old(View()), k, v)
    {
      target := Max(target - Max(|b1| / |b2|, 1), 0);
      b2 := Without(b2, k);
      Replace(Some(k));
      at, ce := at[k := T2], ce[k := v];
      t2 := t2 + [k];
      Replace(Some(k));
    }

    /** The size checks, then the new key goes to T1. */
    method Load(k: Key, v: Value)
      requires maxSize >= 1
      modifies this
      ensures View() == PutNew(old(View()), k, v)
    {
      hide ArcJcs.Replace;
      if |t1| + |b1| >= maxSize {
        if |t1| < maxSize {
          var oldest := b1[0];
          b1, at := b1[1..], at - {oldest};
          Replace(Some(oldest));
        } else {
          var oldest := t1[0];
          t1, at, ce := t1[1..], at - {oldest}, ce - {oldest};
          Replace(Some(oldest));
        }
      } else if |t1| + |t2| + |b1| + |b2| >= maxSize {
        var temp := None;
        if |t1| + |t2| + |b1| + |b2| >= 2 * maxSize && b2 != [] {
          temp := Some(b2[0]);
          b2, at := b2[1..], at - {b2[0]};
        }
        Replace(temp);
      }
      at, ce := at[k := T1], ce[k := v];
      t1 := t1 + [k];
    }

    /** The key is forgotten. */
    method Remove(k: Key)
      requires Valid()
      modifies this
      ensures Valid() && View() == ArcJcs.Remove(old(View()), k)
    {
      RemoveKeeps(View(), k);
      hide ArcJcs.Valid;
      if k in at {
        match at[k] {
          case T1 => t1 := Without(t1, k);
          case T2 => t2 := Without(t2, k);
          case B1 => b1 := Without(b1, k);
          case B2 => b2 := Without(b2, k);
        }
        at, ce := at - {k}, ce - {k};
      }
    }

    /** A put, if there is an element, or a get. */
    method Access(k: Key, put: Option<Value>) returns (result: Option<Value>)
      requires Valid()
      modifies this
      ensures Valid() && Somewhere(old(View()))
      ensures put.Some? ==> View() == Put(old(View()), k, put.value) && result == (if OnTop(old(View()), k) then Some(old(ce)[k]) else put)
      ensures put.None? ==> (View(), result) == Get(old(View()), k)
    {
      IsSomewhere(View());
      GetKeeps(View(), k);
      if put.Some? {
        PutKeeps(View(), k, put.value);
      }
      hide ArcJcs.Valid, PutB1, PutB2, PutNew;
      if k in at {
        match at[k] {
          case T1 =>
            t1, t2, at := Without(t1, k), t2 + [k], at[k := T2];
            result := if k in ce then Some(ce[k]) else None;
          case T2 =>
            t2, at := Without(t2, k) + [k], at[k := T2];
            result := if k in ce then Some(ce[k]) else None;
          case B1 =>
            if put.None? {
              target := Min(target + Max(|b2| / |b1|, 1), maxSize);
              result := None;
            } else {
              FoundInB1(k, put.value);
              result := put;
            }
          case B2 =>
            if put.None? {
              target := Max(target - Max(|b1| / |b2|, 1), 0);
              result := None;
            } else {
              FoundInB2(k, put.value);
              result := put;
            }
        }
      } else {
        result := put;
        if put.Some? {
          Load(k, put.value);
        }
      }
    }
  }
}
