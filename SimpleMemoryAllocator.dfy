// The arena of TFLite Micro's SimpleMemoryAllocator: one buffer, with
// persistent head memory growing up from the lowest address, persistent
// tail memory growing down from the highest, and a chain of temporary
// allocations above the head. Addresses are integers; a failed
// allocation (a null pointer) is None.
module SimpleMemoryAllocator {
  import opened Common

  // ---------------------------------------------------------------------
  // Alignment
  // ---------------------------------------------------------------------

  /** The lowest multiple of alignment at or above p. */
  function AlignUp(p: int, alignment: int): (r: int)
    requires alignment > 0
    ensures r % alignment == 0 && p <= r < p + alignment
  {
    FloorMultiple(p + alignment - 1, alignment);
    (p + alignment - 1) / alignment * alignment
  }

  /** The highest multiple of alignment at or below p. */
  function AlignDown(p: int, alignment: int): (r: int)
    requires alignment > 0
    ensures r % alignment == 0 && p - alignment < r <= p
  {
    FloorMultiple(p, alignment);
    p / alignment * alignment
  }

  /** p rounded down to a multiple of a lies in (p - a, p]. */
  lemma FloorMultiple(p: int, a: int)
    requires a > 0
    ensures var m := p / a * a; m % a == 0 && p - a < m <= p
  {
    var q, r := p / a, p % a;
    assert p == q * a + r;
    assert q * a == q * a + 0;
    DivModUnique(q * a, a, q, 0);
  }

  // ---------------------------------------------------------------------
  // The arena on values
  // ---------------------------------------------------------------------

  /** The five pointers of the allocator: the buffer bounds, the head
      watermark, the tail and the end of the temporary chain. */
  datatype Arena = Arena(bufferHead: int, bufferTail: int, head: int, tail: int, temp: int)

  /** The layout every call keeps: head memory, then the temporary chain
      from the head upwards, and tail memory above the head. */
  predicate Valid(a: Arena)
  {
    0 <= a.bufferHead <= a.head <= a.temp && a.head <= a.tail <= a.bufferTail
  }

  /** A fresh arena over [head, tail): nothing allocated. */
  function Fresh(bufferHead: int, bufferTail: int): Arena
  {
    Arena(bufferHead, bufferTail, bufferHead, bufferTail, bufferHead)
  }

  /** A call's result: the returned address (None for nullptr) and the
      arena afterwards. */
  datatype Outcome = Outcome(result: Option<int>, arena: Arena)

  /** AdjustHead: refused while a temporary chain is open; otherwise the
      head becomes size bytes past the aligned buffer start, provided that
      does not reach into the tail, and the temporary chain restarts there. */
  function AdjustHead(a: Arena, size: nat, alignment: int): Outcome
    requires alignment > 0
  {
    if a.head != a.temp then Outcome(None, a)
    else
      var aligned := AlignUp(a.bufferHead, alignment);
      if aligned + size > a.tail then Outcome(None, a)
      else Outcome(Some(aligned), a.(head := aligned + size, temp := aligned + size))
  }

  /** AllocateFromTail: size bytes below the tail, aligned down, provided
      they stay above the head. */
  function AllocateFromTail(a: Arena, size: nat, alignment: int): Outcome
    requires alignment > 0
  {
    var aligned := AlignDown(a.tail - size, alignment);
    if aligned < a.head then Outcome(None, a)
    else Outcome(Some(aligned), a.(tail := aligned))
  }

  /** AllocateTemp: size bytes at the aligned end of the temporary chain,
      provided they stay below the tail; the head is not touched. */
  function AllocateTemp(a: Arena, size: nat, alignment: int): Outcome
    requires alignment > 0
  {
    var aligned := AlignUp(a.temp, alignment);
    if aligned + size > a.tail then Outcome(None, a)
    else Outcome(Some(aligned), a.(temp := aligned + size))
  }

  /** ResetTempAllocations: the chain returns to the head. */
  function ResetTempAllocations(a: Arena): Arena
  {
    a.(temp := a.head)
  }

  function HeadUsedBytes(a: Arena): int { a.head - a.bufferHead }
  function TailUsedBytes(a: Arena): int { a.bufferTail - a.tail }
  function AvailableMemory(a: Arena): int { a.tail - a.head }
  function BufferSize(a: Arena): int { a.bufferTail - a.bufferHead }
  function UsedBytes(a: Arena): int { BufferSize(a) - AvailableMemory(a) }

  // ---------------------------------------------------------------------
  // The documented contract
  // ---------------------------------------------------------------------

  /** Every call keeps the layout. */
  lemma CallsKeepValid(a: Arena, size: nat, alignment: int)
    requires Valid(a) && alignment > 0
    ensures Valid(AdjustHead(a, size, alignment).arena)
    ensures Valid(AllocateFromTail(a, size, alignment).arena)
    ensures Valid(AllocateTemp(a, size, alignment).arena)
    ensures Valid(ResetTempAllocations(a))
  {
  }

  /** Head memory starts aligned at the buffer start, grows upwards to the
      new watermark and never reaches into the memory reserved at the tail. */
  lemma HeadNeverOverlapsTail(a: Arena, size: nat, alignment: int)
    requires Valid(a) && alignment > 0
    ensures var o := AdjustHead(a, size, alignment);
            o.result.Some? ==>
              a.bufferHead <= o.result.value && o.result.value % alignment == 0 &&
              o.arena.head == o.result.value + size <= a.tail &&
              o.arena.tail == a.tail && o.arena.temp == o.arena.head
  {
  }

  /** While a chain of temporary allocations is open, AdjustHead fails and
      changes nothing; after ResetTempAllocations it succeeds whenever the
      aligned head fits below the tail. */
  lemma AdjustHeadNeedsReset(a: Arena, size: nat, alignment: int)
    requires alignment > 0
    ensures a.temp != a.head ==> AdjustHead(a, size, alignment) == Outcome(None, a)
    ensures var r := ResetTempAllocations(a);
            AdjustHead(r, size, alignment).result.Some? <==> AlignUp(a.bufferHead, alignment) + size <= a.tail
  {
  }

  /** Tail memory is allocated downwards from the current tail: the block
      lies below the old tail and at or above the head, and it becomes the
      new tail. It fails exactly when the aligned block would cross the head. */
  lemma TailAllocatesDownward(a: Arena, size: nat, alignment: int)
    requires Valid(a) && alignment > 0
    ensures var o := AllocateFromTail(a, size, alignment);
            (o.result.Some? <==> AlignDown(a.tail - size, alignment) >= a.head) &&
            (o.result.Some? ==>
               a.head <= o.result.value && o.result.value + size <= a.tail &&
               o.result.value % alignment == 0 &&
               o.arena == a.(tail := o.result.value)) &&
            (o.result.None? ==> o.arena == a)
  {
  }

  /** AllocateTemp leaves the head position and the head used size alone. */
  lemma TempKeepsHead(a: Arena, size: nat, alignment: int)
    requires alignment > 0
    ensures var o := AllocateTemp(a, size, alignment);
            o.arena.head == a.head && HeadUsedBytes(o.arena) == HeadUsedBytes(a) &&
            o.arena.tail == a.tail
  {
  }

  /** The results and final arena of AllocateTemp calls of the given
      sizes, in order. */
  datatype Chain = Chain(results: seq<Option<int>>, arena: Arena)

  function TempRun(a: Arena, sizes: seq<nat>, alignment: int): (c: Chain)
    requires alignment > 0
    ensures |c.results| == |sizes|
  {
    if sizes == [] then Chain([], a)
    else
      var c := TempRun(a, sizes[..|sizes| - 1], alignment);
      var o := AllocateTemp(c.arena, sizes[|sizes| - 1], alignment);
      Chain(c.results + [o.result], o.arena)
  }

  /** The blocks of a chain: each successful block lies between the chain
      start and its end, and a later block starts at or after the end of
      an earlier one. */
  ghost predicate ChainBlocks(start: int, sizes: seq<nat>, c: Chain)
    requires |c.results| == |sizes|
  {
    && (forall i :: 0 <= i < |sizes| && c.results[i].Some? ==>
          start <= c.results[i].value && c.results[i].value + sizes[i] <= c.arena.temp)
    && (forall i, j :: 0 <= i < j < |sizes| && c.results[i].Some? && c.results[j].Some? ==>
          c.results[i].value + sizes[i] <= c.results[j].value)
  }

  /** Repeated AllocateTemp calls form a chain that stays valid until
      ResetTempAllocations: the head, the tail and the layout are kept, the
      blocks are disjoint, in order, and below the tail, and resetting
      afterwards is the same as resetting before. */
  lemma {:induction false} TempRunChain(a: Arena, sizes: seq<nat>, alignment: int)
    requires Valid(a) && alignment > 0
    ensures var c := TempRun(a, sizes, alignment);
            Valid(c.arena) && c.arena.head == a.head && c.arena.tail == a.tail &&
            a.temp <= c.arena.temp && ChainBlocks(a.temp, sizes, c) &&
            ResetTempAllocations(c.arena) == ResetTempAllocations(a)
  {
    if sizes != [] {
      var n := |sizes| - 1;
      var c0 := TempRun(a, sizes[..n], alignment);
      TempRunChain(a, sizes[..n], alignment);
      var o := AllocateTemp(c0.arena, sizes[n], alignment);
      var c := TempRun(a, sizes, alignment);
      assert c == Chain(c0.results + [o.result], o.arena);
      assert c0.arena.temp <= o.arena.temp;
      assert o.result.Some? ==> c0.arena.temp <= o.result.value && o.result.value + sizes[n] == o.arena.temp;
      forall i | 0 <= i < |sizes| && c.results[i].Some?
        ensures a.temp <= c.results[i].value && c.results[i].value + sizes[i] <= c.arena.temp
      {
        if i < n {
          assert c.results[i] == c0.results[i] && sizes[i] == sizes[..n][i];
        }
      }
      forall i, j | 0 <= i < j < |sizes| && c.results[i].Some? && c.results[j].Some?
        ensures c.results[i].value + sizes[i] <= c.results[j].value
      {
        assert c.results[i] == c0.results[i] && sizes[i] == sizes[..n][i];
        if j < n {
          assert c.results[j] == c0.results[j] && sizes[j] == sizes[..n][j];
        }
      }
    }
  }

  /** ResetTempAllocations returns the chain to the current head and
      reopens AdjustHead. */
  lemma ResetReturnsToHead(a: Arena)
    ensures ResetTempAllocations(a).temp == a.head
    ensures ResetTempAllocations(a).head == a.head && ResetTempAllocations(a).tail == a.tail
  {
  }

  /** The used bytes are the head and tail usage, and with the available
      memory they make up the buffer. */
  lemma UsageAddsUp(a: Arena)
    requires Valid(a)
    ensures UsedBytes(a) == HeadUsedBytes(a) + TailUsedBytes(a)
    ensures UsedBytes(a) + AvailableMemory(a) == BufferSize(a)
    ensures 0 <= AvailableMemory(a) && 0 <= HeadUsedBytes(a) && 0 <= TailUsedBytes(a)
  {
  }

  // ---------------------------------------------------------------------
  // The allocator object
  // ---------------------------------------------------------------------

  class SimpleMemoryAllocator {
    const bufferHead: int
    const bufferTail: int
    var headWatermark: int
    var tail: int
    var temp: int

    function State(): Arena
      reads this
    {
      Arena(bufferHead, bufferTail, headWatermark, tail, temp)
    }

    /** The allocator over [bufferHead, bufferTail). */
    constructor (bufferHead: int, bufferTail: int)
      requires 0 <= bufferHead <= bufferTail
      ensures State() == Fresh(bufferHead, bufferTail) && Valid(State())
    {
      this.bufferHead := bufferHead;
      this.bufferTail := bufferTail;
      headWatermark := bufferHead;
      tail := bufferTail;
      temp := bufferHead;
    }

    /** The allocator over the bufferSize bytes at buffer (also what
        Create builds). */
    constructor FromSize(buffer: int, bufferSize: nat)
      requires 0 <= buffer
      ensures State() == Fresh(buffer, buffer + bufferSize) && Valid(State())
    {
      bufferHead := buffer;
      bufferTail := buffer + bufferSize;
      headWatermark := buffer;
      tail := buffer + bufferSize;
      temp := buffer;
    }

    method AdjustHeadOf(size: nat, alignment: int) returns (r: Option<int>)
      requires alignment > 0
      modifies this
      ensures Outcome(r, State()) == AdjustHead(old(State()), size, alignment)
    {
      if headWatermark != temp {
        return None;
      }
      var alignedResult := AlignUp(bufferHead, alignment);
      if alignedResult + size > tail {
        return None;
      }
      headWatermark := alignedResult + size;
      temp := headWatermark;
      return Some(alignedResult);
    }

    method AllocateFromTailOf(size: nat, alignment: int) returns (r: Option<int>)
      requires alignment > 0
      modifies this
      ensures Outcome(r, State()) == AllocateFromTail(old(State()), size, alignment)
    {
      var alignedResult := AlignDown(tail - size, alignment);
      if alignedResult < headWatermark {
        return None;
      }
      tail := alignedResult;
      return Some(alignedResult);
    }

    method AllocateTempOf(size: nat, alignment: int) returns (r: Option<int>)
      requires alignment > 0
      modifies this
      ensures Outcome(r, State()) == AllocateTemp(old(State()), size, alignment)
    {
      var alignedResult := AlignUp(temp, alignment);
      if alignedResult + size > tail {
        return None;
      }
      temp := alignedResult + size;
      return Some(alignedResult);
    }

    method ResetTempAllocationsOf()
      modifies this
      ensures State() == ResetTempAllocations(old(State()))
    {
      temp := headWatermark;
    }

    function GetHead(): int reads this { headWatermark }
    function GetBufferHead(): int reads this { bufferHead }
    function GetTail(): int reads this { tail }
    function GetHeadUsedBytes(): int reads this { HeadUsedBytes(State()) }
    function GetTailUsedBytes(): int reads this { TailUsedBytes(State()) }
    function GetAvailableMemory(): int reads this { AvailableMemory(State()) }
    function GetUsedBytes(): int reads this { UsedBytes(State()) }
  }
}
