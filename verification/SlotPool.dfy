/**
  The fixed pool as a sequence of optional values: the allocator takes the
  first free slot, and releasing empties one slot.
 */
module SlotPool {
  import opened Common

  /** The index of the first empty slot. */
  function FirstFree<T>(slots: seq<Option<T>>): (r: Option<nat>)
    ensures r.None? ==> forall i :: 0 <= i < |slots| ==> slots[i].Some?
    ensures r.Some? ==> r.value < |slots| && slots[r.value].None?
    ensures r.Some? ==> forall i :: 0 <= i < r.value ==> slots[i].Some?
  {
    if slots == [] then None
    else if slots[0].None? then Some(0)
    else
      match FirstFree(slots[1..])
      case None => None
      case Some(i) => Some(i + 1)
  }

  lemma FirstFreeIs<T>(slots: seq<Option<T>>, n: nat)
    requires n < |slots| && slots[n].None?
    requires forall i :: 0 <= i < n ==> slots[i].Some?
    ensures FirstFree(slots) == Some(n)
  {
    var r := FirstFree(slots);
  }

  function Occupied<T>(slots: seq<Option<T>>): (n: nat)
    ensures n <= |slots|
  {
    if slots == [] then 0 else (if slots[0].Some? then 1 else 0) + Occupied(slots[1..])
  }

  lemma {:induction false} OccupiedAfterUpdate<T>(slots: seq<Option<T>>, i: nat, v: Option<T>)
    requires i < |slots|
    ensures Occupied(slots[i := v]) ==
            Occupied(slots) - (if slots[i].Some? then 1 else 0) + (if v.Some? then 1 else 0)
  {
    if i == 0 {
      assert slots[i := v][1..] == slots[1..];
    } else {
      assert slots[i := v][1..] == slots[1..][i - 1 := v];
      OccupiedAfterUpdate(slots[1..], i - 1, v);
    }
  }

  /** The pool is full exactly when there is no free slot. */
  lemma {:induction false} FullExactlyWithoutFreeSlot<T>(slots: seq<Option<T>>)
    ensures Occupied(slots) == |slots| <==> FirstFree(slots).None?
  {
    if slots != [] {
      FullExactlyWithoutFreeSlot(slots[1..]);
    }
  }

  // ---------------------------------------------------------------------
  // Refinement of a set of used indices

  datatype Operation<T> = Acquire(value: T) | Release(index: nat)

  function Apply<T>(slots: seq<Option<T>>, op: Operation<T>): (r: seq<Option<T>>)
    ensures |r| == |slots|
  {
    match op
    case Acquire(v) =>
      (match FirstFree(slots)
       case None => slots
       case Some(i) => slots[i := Some(v)])
    case Release(i) => if i < |slots| then slots[i := None] else slots
  }

  function ApplyAll<T>(slots: seq<Option<T>>, ops: seq<Operation<T>>): (r: seq<Option<T>>)
    ensures |r| == |slots|
    decreases |ops|
  {
    if ops == [] then slots else ApplyAll(Apply(slots, ops[0]), ops[1..])
  }

  /** The indices in use. */
  ghost function Used<T>(slots: seq<Option<T>>): set<nat> {
    set i: nat | i < |slots| && slots[i].Some?
  }

  /** The least index below `n` that is not used. */
  ghost predicate IsLeastUnused(used: set<nat>, n: nat, i: nat) {
    i < n && i !in used && forall j: nat :: j < i ==> j in used
  }

  /** The allocator's specification on sets. */
  ghost predicate SetStep<T>(n: nat, used: set<nat>, op: Operation<T>, used': set<nat>) {
    match op
    case Acquire(_) =>
      || (used' == used && forall i: nat :: i < n ==> i in used)
      || (exists i: nat :: IsLeastUnused(used, n, i) && used' == used + {i})
    case Release(i) => used' == used - {i}
  }

  ghost predicate SetRun<T>(n: nat, used: set<nat>, ops: seq<Operation<T>>, used': set<nat>)
    decreases |ops|
  {
    if ops == [] then used' == used
    else exists next :: SetStep(n, used, ops[0], next) && SetRun(n, next, ops[1..], used')
  }

  lemma ApplyRefinesSetStep<T>(slots: seq<Option<T>>, op: Operation<T>)
    ensures SetStep(|slots|, Used(slots), op, Used(Apply(slots, op)))
  {
    match op
    case Acquire(v) =>
      var free := FirstFree(slots);
      if free.Some? {
        assert IsLeastUnused(Used(slots), |slots|, free.value);
        assert Used(slots[free.value := Some(v)]) == Used(slots) + {free.value};
      }
    case Release(i) =>
      assert Used(Apply(slots, op)) == Used(slots) - {i};
  }

  /** Every sequence of operations on the slots is one on the set of used indices. */
  lemma {:induction false} PoolRefinesIndexSet<T>(slots: seq<Option<T>>, ops: seq<Operation<T>>)
    ensures SetRun(|slots|, Used(slots), ops, Used(ApplyAll(slots, ops)))
    decreases |ops|
  {
    if ops != [] {
      ApplyRefinesSetStep(slots, ops[0]);
      PoolRefinesIndexSet(Apply(slots, ops[0]), ops[1..]);
    }
  }

  /** Until it is released, an occupied slot keeps its value: sessions never move. */
  lemma {:induction false} OccupantsStayInPlace<T>(slots: seq<Option<T>>, ops: seq<Operation<T>>, i: nat)
    requires i < |slots| && slots[i].Some?
    requires forall k :: 0 <= k < |ops| ==> ops[k] != Release(i)
    ensures ApplyAll(slots, ops)[i] == slots[i]
    decreases |ops|
  {
    if ops != [] {
      assert ops[0] != Release(i);
      OccupantsStayInPlace(Apply(slots, ops[0]), ops[1..], i);
    }
  }

  /**
    What is acquired goes to the least unused slot, stays there until that slot
    is released, and leaves all other slots as they were; a full pool is left as
    it was.
   */
  lemma AcquiredValueStays<T>(slots: seq<Option<T>>, value: T, later: seq<Operation<T>>, i: nat)
    requires IsLeastUnused(Used(slots), |slots|, i)
    requires forall k :: 0 <= k < |later| ==> later[k] != Release(i)
    ensures Apply(slots, Acquire(value)) == slots[i := Some(value)]
    ensures ApplyAll(slots, [Acquire(value)] + later)[i] == Some(value)
  {
    assert forall j: nat :: j < |slots| ==> (j in Used(slots) <==> slots[j].Some?);
    FirstFreeIs(slots, i);
    assert ([Acquire(value)] + later)[1..] == later;
    OccupantsStayInPlace(slots[i := Some(value)], later, i);
  }

  /** A released slot is empty, and no other slot changes; a full pool takes nothing. */
  lemma ReleasedSlotIsEmpty<T>(slots: seq<Option<T>>, value: T, i: nat)
    ensures i < |slots| ==> Apply(slots, Release(i)) == slots[i := None]
    ensures Occupied(slots) == |slots| ==> Apply(slots, Acquire(value)) == slots
  {
    FullExactlyWithoutFreeSlot(slots);
  }
}
