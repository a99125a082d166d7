// The TensorReserver of the OpenCL InferenceContext: a hash map from value
// ids to the dummy tensors reserved for them, and the next free id. Value
// ids are 32-bit unsigned, so the counter wraps.
module InferenceContext {
  import opened Common

  const IdRange: int := 0x1_0000_0000

  /** ValueId: a uint32. */
  type ValueId = x: int | 0 <= x < IdRange

  /** x + 1 in uint32 arithmetic. */
  function Succ(x: ValueId): ValueId
  {
    if x == IdRange - 1 then 0 else x + 1
  }

  lemma SuccIsMod(x: ValueId)
    ensures Succ(x) == (x + 1) % IdRange
  {
    if x < IdRange - 1 {
      DivModUnique(x + 1, IdRange, 0, x + 1);
    } else {
      DivModUnique(x + 1, IdRange, 1, 0);
    }
  }

  /** A BHWC shape: batch, height, width and channels. */
  datatype BHWC = BHWC(b: int, h: int, w: int, c: int)

  /** The descriptor of a tensor: its data type, storage type and layout,
      each an enum value. */
  datatype TensorDescriptor = TensorDescriptor(dataType: int, storageType: int, layout: int)

  datatype DummyTensor = DummyTensor(shape: BHWC, descriptor: TensorDescriptor)

  /** The value-initialized DummyTensor that operator[] of the map inserts
      for a missing key: zero shape and every enum UNKNOWN (0). */
  const DefaultDummy: DummyTensor := DummyTensor(BHWC(0, 0, 0, 0), TensorDescriptor(0, 0, 0))

  /** DummyTensor::operator==: shapes and descriptors compare equal. */
  predicate DummyEquals(a: DummyTensor, b: DummyTensor)
  {
    a.shape == b.shape && a.descriptor == b.descriptor
  }

  /** operator== holds exactly for identical dummies, so it is an
      equivalence. */
  lemma DummyEqualsIsIdentity(a: DummyTensor, b: DummyTensor)
    ensures DummyEquals(a, b) <==> a == b
    ensures DummyEquals(a, a) && (DummyEquals(a, b) ==> DummyEquals(b, a))
  {
  }

  lemma DummyEqualsTransitive(a: DummyTensor, b: DummyTensor, c: DummyTensor)
    requires DummyEquals(a, b) && DummyEquals(b, c)
    ensures DummyEquals(a, c)
  {
  }

  // ---------------------------------------------------------------------
  // The reserver on values: its state and what each call does to it
  // ---------------------------------------------------------------------

  datatype ReserverState = ReserverState(reservations: map<ValueId, DummyTensor>, next: ValueId)

  /** The state-changing calls of TensorReserver. */
  datatype ReserverOp =
    | AddNext(dummy: DummyTensor)          // Add(dummy)
    | AddAt(id: ValueId, dummy: DummyTensor)  // Add(id, dummy)
    | SetNext(id: ValueId)

  /** The id a call stores its dummy under, if it stores one. */
  function Target(s: ReserverState, op: ReserverOp): Option<ValueId>
  {
    match op
    case AddNext(_) => Some(s.next)
    case AddAt(id, _) => Some(id)
    case SetNext(_) => None
  }

  function Step(s: ReserverState, op: ReserverOp): ReserverState
  {
    match op
    case AddNext(d) => ReserverState(s.reservations[s.next := d], Succ(s.next))
    case AddAt(id, d) => ReserverState(s.reservations[id := d], s.next)
    case SetNext(id) => ReserverState(s.reservations, id)
  }

  /** The state after a run of calls, in order. */
  function Run(s: ReserverState, ops: seq<ReserverOp>): ReserverState
  {
    if ops == [] then s else Step(Run(s, ops[..|ops| - 1]), ops[|ops| - 1])
  }

  /** Get(id): the stored dummy; operator[] of the hash map inserts the
      default dummy for an id that holds none and returns it. */
  function GetAt(s: ReserverState, id: ValueId): (r: (DummyTensor, ReserverState))
  {
    if id in s.reservations then (s.reservations[id], s)
    else (DefaultDummy, ReserverState(s.reservations[id := DefaultDummy], s.next))
  }

  /** Each call's effect: a store puts its dummy under its target and keeps
      every other id; only Add(dummy) advances the counter, by one modulo
      2^32, and SetNext sets it exactly. */
  lemma StepEffect(s: ReserverState, op: ReserverOp, id: ValueId)
    ensures var s' := Step(s, op);
            (Target(s, op) == Some(id) ==> id in s'.reservations && s'.reservations[id] == op.dummy) &&
            (Target(s, op) != Some(id) ==> (id in s'.reservations <==> id in s.reservations) &&
                                           (id in s.reservations ==> s'.reservations[id] == s.reservations[id]))
    ensures Step(s, op).next == match op
                                case AddNext(_) => (s.next + 1) % IdRange
                                case AddAt(_, _) => s.next
                                case SetNext(n) => n
  {
  }

  /** Get returns the dummy of the last call that stored under id: after a
      run in which call k stores under id and no later call does, the
      stored dummy for id is that of call k. */
  lemma {:induction false} GetReturnsLastStored(s: ReserverState, ops: seq<ReserverOp>, k: nat, id: ValueId)
    requires k < |ops| && Target(Run(s, ops[..k]), ops[k]) == Some(id)
    requires forall j :: k < j < |ops| ==> Target(Run(s, ops[..j]), ops[j]) != Some(id)
    ensures GetAt(Run(s, ops), id).0 == ops[k].dummy
  {
    var n := |ops| - 1;
    var prefix := ops[..n];
    assert Run(s, ops) == Step(Run(s, prefix), ops[n]);
    if k == n {
      assert prefix == ops[..k];
      StepEffect(Run(s, prefix), ops[n], id);
    } else {
      assert ops[..n][..k] == ops[..k];
      forall j | k < j < |prefix|
        ensures Target(Run(s, prefix[..j]), prefix[j]) != Some(id)
      {
        assert prefix[..j] == ops[..j];
      }
      GetReturnsLastStored(s, prefix, k, id);
      assert ops[..n] == prefix;
      StepEffect(Run(s, prefix), ops[n], id);
    }
  }

  /** Get never changes a stored dummy or the counter; it only adds the
      default for a missing id. */
  lemma GetKeepsStored(s: ReserverState, id: ValueId)
    ensures GetAt(s, id).1.next == s.next
    ensures id in GetAt(s, id).1.reservations
    ensures forall x :: x in s.reservations ==>
              x in GetAt(s, id).1.reservations && GetAt(s, id).1.reservations[x] == s.reservations[x]
    ensures GetAt(s, id).1.reservations.Keys == s.reservations.Keys + {id}
  {
  }

  /** n calls Add(dummy) after SetNext(first) store their dummies under the
      consecutive ids first, first + 1, ... modulo 2^32; as long as there are
      at most 2^32 of them, no two land on the same id. */
  function Adds(dummies: seq<DummyTensor>): seq<ReserverOp>
  {
    if dummies == [] then [] else Adds(dummies[..|dummies| - 1]) + [AddNext(dummies[|dummies| - 1])]
  }

  lemma {:induction false} AddsLength(dummies: seq<DummyTensor>)
    ensures |Adds(dummies)| == |dummies|
    ensures forall i :: 0 <= i < |dummies| ==> Adds(dummies)[i] == AddNext(dummies[i])
  {
    if dummies != [] {
      var n := |dummies| - 1;
      AddsLength(dummies[..n]);
      forall i | 0 <= i < |dummies|
        ensures Adds(dummies)[i] == AddNext(dummies[i])
      {
        if i < n {
          assert dummies[..n][i] == dummies[i];
        }
      }
    }
  }

  /** The id k increments after start, in uint32 arithmetic. */
  function IdAfter(start: ValueId, k: nat): ValueId
  {
    if k == 0 then start else Succ(IdAfter(start, k - 1))
  }

  lemma {:induction false} IdAfterIsMod(start: ValueId, k: nat)
    ensures IdAfter(start, k) == (start + k) % IdRange
  {
    if k > 0 {
      var a: nat := start + k - 1;
      var x := IdAfter(start, k - 1);
      IdAfterIsMod(start, k - 1);
      SuccIsMod(x);
      ModSucc(a);
      calc {
        IdAfter(start, k);
        Succ(x);
        (x + 1) % IdRange;
        (a % IdRange + 1) % IdRange;
        (a + 1) % IdRange;
      }
    }
  }

  lemma ModSucc(a: nat)
    ensures (a % IdRange + 1) % IdRange == (a + 1) % IdRange
  {
    DivModUnique(a, IdRange, a / IdRange, a % IdRange);
    if a % IdRange == IdRange - 1 {
      DivModUnique(a + 1, IdRange, a / IdRange + 1, 0);
    } else {
      DivModUnique(a + 1, IdRange, a / IdRange, a % IdRange + 1);
    }
  }

  /** Fewer than 2^32 increments never come back to the same id. */
  lemma ConsecutiveIdsDistinct(start: ValueId, i: nat, j: nat)
    requires i < j < IdRange
    ensures IdAfter(start, i) != IdAfter(start, j)
  {
    IdAfterIsMod(start, i);
    IdAfterIsMod(start, j);
    var q, r := (start + i) / IdRange, (start + i) % IdRange;
    var d := j - i;
    if r + d < IdRange {
      DivModUnique(start + j, IdRange, q, r + d);
    } else {
      DivModUnique(start + j, IdRange, q + 1, r + d - IdRange);
    }
  }

  /** Call j of a run of Adds stores under the id j increments after the
      counter. */
  lemma {:induction false} AddsTargets(s: ReserverState, dummies: seq<DummyTensor>)
    ensures |Adds(dummies)| == |dummies|
    ensures Run(s, Adds(dummies)).next == IdAfter(s.next, |dummies|)
    ensures forall j :: 0 <= j < |dummies| ==>
              Target(Run(s, Adds(dummies)[..j]), Adds(dummies)[j]) == Some(IdAfter(s.next, j))
  {
    AddsLength(dummies);
    if dummies != [] {
      var n := |dummies| - 1;
      var ops := Adds(dummies);
      AddsTargets(s, dummies[..n]);
      assert ops[..n] == Adds(dummies[..n]);
      assert ops == ops[..n] + [ops[n]];
      forall j | 0 <= j < |dummies|
        ensures Target(Run(s, ops[..j]), ops[j]) == Some(IdAfter(s.next, j))
      {
        if j < n {
          assert ops[..j] == Adds(dummies[..n])[..j];
          assert ops[j] == Adds(dummies[..n])[j];
        }
      }
    }
  }

  /** After SetNext(first) and at most 2^32 calls Add(dummy), the i-th
      dummy is reserved under the id i increments after first, that is
      (first + i) mod 2^32. */
  lemma AddsReserveConsecutive(s: ReserverState, dummies: seq<DummyTensor>, i: nat)
    requires |dummies| <= IdRange && i < |dummies|
    ensures GetAt(Run(s, Adds(dummies)), IdAfter(s.next, i)).0 == dummies[i]
  {
    var ops := Adds(dummies);
    var id := IdAfter(s.next, i);
    assert i < |ops| && Target(Run(s, ops[..i]), ops[i]) == Some(id) by {
      AddsTargets(s, dummies);
    }
    assert forall j :: i < j < |ops| ==> Target(Run(s, ops[..j]), ops[j]) != Some(id) by {
      LaterAddsMiss(s, dummies, i);
    }
    GetReturnsLastStored(s, ops, i, id);
    assert ops[i].dummy == dummies[i] by {
      AddsLength(dummies);
    }
  }

  /** No Add after the i-th one stores under its id again. */
  lemma LaterAddsMiss(s: ReserverState, dummies: seq<DummyTensor>, i: nat)
    requires |dummies| <= IdRange && i < |dummies|
    ensures |Adds(dummies)| == |dummies|
    ensures forall j :: i < j < |Adds(dummies)| ==>
              Target(Run(s, Adds(dummies)[..j]), Adds(dummies)[j]) != Some(IdAfter(s.next, i))
  {
    AddsTargets(s, dummies);
    forall j | i < j < |dummies|
      ensures IdAfter(s.next, i) != IdAfter(s.next, j)
    {
      ConsecutiveIdsDistinct(s.next, i, j);
    }
  }

  // ---------------------------------------------------------------------
  // The reserver as the source keeps it
  // ---------------------------------------------------------------------

  class TensorReserver {
    var reservations: map<ValueId, DummyTensor>
    var next: ValueId
    /** next_ is left uninitialized by the source: Add(dummy) is only
        meaningful once SetNext has run. */
    ghost var nextSet: bool

    function State(): ReserverState
      reads this
    {
      ReserverState(reservations, next)
    }

    constructor ()
      ensures reservations == map[] && !nextSet
    {
      reservations := map[];
      next := 0;
      nextSet := false;
    }

    /** Add(dummy): stores under the counter, returns it, advances it. */
    method Add(dummy: DummyTensor) returns (id: ValueId)
      requires nextSet
      modifies this
      ensures id == old(next)
      ensures State() == Step(old(State()), AddNext(dummy))
      ensures nextSet
    {
      reservations := reservations[next := dummy];
      id := next;
      next := Succ(next);
    }

    /** Add(id, dummy): stores under id; the counter is unchanged. */
    method AddWithId(id: ValueId, dummy: DummyTensor)
      modifies this
      ensures State() == Step(old(State()), AddAt(id, dummy))
      ensures nextSet == old(nextSet)
    {
      reservations := reservations[id := dummy];
    }

    method SetNext(id: ValueId)
      modifies this
      ensures State() == Step(old(State()), ReserverOp.SetNext(id))
      ensures nextSet
    {
      next := id;
      nextSet := true;
    }

    /** Get(id): the stored dummy, inserting the default for a missing id. */
    method Get(id: ValueId) returns (dummy: DummyTensor)
      modifies this
      ensures (dummy, State()) == GetAt(old(State()), id)
      ensures nextSet == old(nextSet)
    {
      if id !in reservations {
        reservations := reservations[id := DefaultDummy];
      }
      dummy := reservations[id];
    }
  }
}
