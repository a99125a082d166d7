// Profiler event spans: boundary ordering, the priority sweep that turns
// overlapping typed spans into non-overlapping ones, event classification
// and step-detail bookkeeping.
module EventSpan {
  import opened Common

  // Event types, in increasing priority (values of enum EventType).
  const UnknownTime := 0
  const HostCompute := 10
  const HostCompile := 20
  const HostToHost := 30
  const HostToDevice := 40
  const HostPrepare := 50
  const HostWaitInput := 60
  const DeviceToDevice := 70
  const DeviceToHost := 80
  const DeviceCompute := 90
  const DeviceWaitDevice := 100
  const DeviceWaitHost := 110
  const LastEventType := 110

  type EventType = t: int | 0 <= t <= LastEventType

  /** A span of picoseconds [beginPs, beginPs + durationPs]. */
  datatype Timespan = Timespan(beginPs: nat, durationPs: nat)
  {
    function EndPs(): nat { beginPs + durationPs }
  }

  function FromEndPoints(startPs: nat, endPs: nat): (t: Timespan)
    requires startPs <= endPs
    ensures t.beginPs == startPs && t.EndPs() == endPs
  {
    Timespan(startPs, endPs - startPs)
  }

  datatype EventTypeSpan = EventTypeSpan(eventType: EventType, span: Timespan)

  datatype StepMarker = StepMarker(onDevice: bool, eventName: string, span: Timespan)

  datatype StepDetails = StepDetails(markers: seq<StepMarker>, events: seq<EventTypeSpan>)

  /** Step id to its details. */
  type StepEvents = map<int, StepDetails>

  datatype EventBoundary = EventBoundary(timePs: nat, eventType: EventType, isStart: bool)

  /** True if boundary a should appear before boundary b. */
  predicate CmpEventBoundaries(a: EventBoundary, b: EventBoundary)
  {
    if a.timePs == b.timePs then
      if a.isStart == b.isStart then a.eventType > b.eventType else !a.isStart
    else a.timePs < b.timePs
  }

  /** A single integer whose order is the boundary order. */
  function Rank(b: EventBoundary): int
  {
    b.timePs * (2 * (LastEventType + 1)) + (if b.isStart then LastEventType + 1 else 0)
      + (LastEventType - b.eventType)
  }

  lemma RankBounds(b: EventBoundary)
    ensures b.timePs * (2 * (LastEventType + 1)) <= Rank(b)
    ensures Rank(b) < b.timePs * (2 * (LastEventType + 1)) + 2 * (LastEventType + 1)
  {
  }

  lemma CmpIsRankOrder(a: EventBoundary, b: EventBoundary)
    ensures CmpEventBoundaries(a, b) <==> Rank(a) < Rank(b)
  {
    RankBounds(a);
    RankBounds(b);
  }

  lemma RankOrdersTime(a: EventBoundary, b: EventBoundary)
    requires Rank(a) <= Rank(b)
    ensures a.timePs <= b.timePs
  {
    RankBounds(a);
    RankBounds(b);
  }

  /** The comparator's three rules: time first, then ends before starts,
      then the higher type first; and it is a strict order. */
  lemma CmpEventBoundariesRules(a: EventBoundary, b: EventBoundary, c: EventBoundary)
    ensures a.timePs < b.timePs ==> CmpEventBoundaries(a, b)
    ensures a.timePs == b.timePs && !a.isStart && b.isStart ==> CmpEventBoundaries(a, b)
    ensures a.timePs == b.timePs && a.isStart == b.isStart ==>
              (CmpEventBoundaries(a, b) <==> a.eventType > b.eventType)
    ensures !CmpEventBoundaries(a, a)
    ensures CmpEventBoundaries(a, b) ==> !CmpEventBoundaries(b, a)
    ensures CmpEventBoundaries(a, b) && CmpEventBoundaries(b, c) ==> CmpEventBoundaries(a, c)
    ensures !CmpEventBoundaries(a, b) && !CmpEventBoundaries(b, a) ==> a == b
  {
    CmpIsRankOrder(a, b);
    CmpIsRankOrder(b, a);
    CmpIsRankOrder(b, c);
    CmpIsRankOrder(a, c);
    CmpIsRankOrder(a, a);
  }

  predicate SortedByRank(s: seq<EventBoundary>)
  {
    forall i, j :: 0 <= i < j < |s| ==> Rank(s[i]) <= Rank(s[j])
  }

  /** The unsorted boundaries: a start and an end per event, in event order. */
  function RawBoundaries(events: seq<EventTypeSpan>): (r: seq<EventBoundary>)
    ensures |r| == 2 * |events|
  {
    if events == [] then []
    else RawBoundaries(events[..|events| - 1]) + EventBoundariesOf(events[|events| - 1])
  }

  function EventBoundariesOf(e: EventTypeSpan): seq<EventBoundary>
  {
    [EventBoundary(e.span.beginPs, e.eventType, true),
     EventBoundary(e.span.EndPs(), e.eventType, false)]
  }

  function Insert(b: EventBoundary, s: seq<EventBoundary>): seq<EventBoundary>
  {
    if s == [] then [b]
    else if Rank(b) <= Rank(s[0]) then [b] + s
    else [s[0]] + Insert(b, s[1..])
  }

  /** The sort the source delegates to the library (absl::c_sort). */
  function Sort(s: seq<EventBoundary>): seq<EventBoundary>
  {
    if s == [] then [] else Insert(s[0], Sort(s[1..]))
  }

  lemma {:induction false} InsertProps(b: EventBoundary, s: seq<EventBoundary>)
    requires SortedByRank(s)
    ensures SortedByRank(Insert(b, s))
    ensures multiset(Insert(b, s)) == multiset(s) + multiset{b}
  {
    InsertSorted(b, s);
    InsertPermutes(b, s);
  }

  /** Every boundary of an insertion is the inserted one or one of s. */
  lemma {:induction false} InsertMembers(b: EventBoundary, s: seq<EventBoundary>)
    ensures |Insert(b, s)| == |s| + 1
    ensures forall k :: 0 <= k < |Insert(b, s)| ==> Insert(b, s)[k] == b || Insert(b, s)[k] in s
  {
    if s != [] && Rank(b) > Rank(s[0]) {
      InsertMembers(b, s[1..]);
      var t := Insert(b, s[1..]);
      forall k | 0 <= k < |t| ensures t[k] == b || t[k] in s {
        if t[k] != b {
          var m :| 0 <= m < |s[1..]| && s[1..][m] == t[k];
          assert s[m + 1] == t[k];
        }
      }
      assert Insert(b, s) == [s[0]] + t;
    }
  }

  lemma {:induction false} InsertSorted(b: EventBoundary, s: seq<EventBoundary>)
    requires SortedByRank(s)
    ensures SortedByRank(Insert(b, s))
  {
    if s != [] && Rank(b) > Rank(s[0]) {
      InsertSorted(b, s[1..]);
      InsertMembers(b, s[1..]);
      var t := Insert(b, s[1..]);
      forall k | 0 <= k < |t| ensures Rank(s[0]) <= Rank(t[k]) {
        if t[k] != b {
          var m :| 0 <= m < |s[1..]| && s[1..][m] == t[k];
          assert s[m + 1] == t[k];
        }
      }
      assert Insert(b, s) == [s[0]] + t;
    }
  }

  lemma {:induction false} InsertPermutes(b: EventBoundary, s: seq<EventBoundary>)
    ensures multiset(Insert(b, s)) == multiset(s) + multiset{b}
  {
    if s != [] && Rank(b) > Rank(s[0]) {
      InsertPermutes(b, s[1..]);
      assert s == [s[0]] + s[1..];
      assert Insert(b, s) == [s[0]] + Insert(b, s[1..]);
    }
  }

  lemma {:induction false} SortProps(s: seq<EventBoundary>)
    ensures SortedByRank(Sort(s))
    ensures multiset(Sort(s)) == multiset(s)
    ensures |Sort(s)| == |s|
  {
    if s != [] {
      SortProps(s[1..]);
      InsertProps(s[0], Sort(s[1..]));
      assert s == [s[0]] + s[1..];
    }
    assert |multiset(Sort(s))| == |multiset(s)|;
  }

  /** Boundaries of all events, two per event, sorted by the comparator. */
  method GenerateEventBoundaries(events: seq<EventTypeSpan>) returns (r: seq<EventBoundary>)
    ensures r == Sort(RawBoundaries(events))
    ensures |r| == 2 * |events|
    ensures multiset(r) == multiset(RawBoundaries(events))
    ensures forall i, j :: 0 <= i < j < |r| ==> !CmpEventBoundaries(r[j], r[i])
    ensures SortedByRank(r)
  {
    var raw: seq<EventBoundary> := [];
    for i := 0 to |events|
      invariant raw == RawBoundaries(events[..i])
    {
      assert events[..i + 1][..i] == events[..i];
      raw := raw + EventBoundariesOf(events[i]);
    }
    assert events[..|events|] == events;
    SortProps(raw);
    r := Sort(raw);
    forall i, j | 0 <= i < j < |r| ensures !CmpEventBoundaries(r[j], r[i]) {
      CmpIsRankOrder(r[j], r[i]);
    }
  }

  /** Index of the highest type below n whose count is positive, or
      UnknownTime when there is none. */
  function HighestBelow(counts: seq<int>, n: nat): (r: nat)
    requires n <= |counts|
    ensures r == UnknownTime || (r < n && counts[r] > 0)
    ensures forall t :: r < t < n ==> counts[t] <= 0
  {
    if n == 0 then UnknownTime
    else if counts[n - 1] > 0 then n - 1
    else HighestBelow(counts, n - 1)
  }

  /** The highest open event type: the largest type with a positive count. */
  function Highest(counts: seq<int>): nat
  {
    HighestBelow(counts, |counts|)
  }

  lemma HighestUnique(counts: seq<int>, n: nat, r: nat)
    requires n <= |counts|
    requires r == UnknownTime || (r < n && counts[r] > 0)
    requires forall t :: r < t < n ==> counts[t] <= 0
    ensures HighestBelow(counts, n) == r
  {
    var h := HighestBelow(counts, n);
    assert h == UnknownTime || counts[h] > 0;
    assert r == UnknownTime || counts[r] > 0;
  }

  const NumTypes := LastEventType + 1

  /** Counts after one boundary: a start opens one event of its type, an
      end closes one. */
  function Counted(counts: seq<int>, b: EventBoundary): (c: seq<int>)
    requires |counts| == NumTypes
    ensures |c| == NumTypes
  {
    counts[b.eventType := counts[b.eventType] + (if b.isStart then 1 else -1)]
  }

  /** Counts after a sequence of boundaries, starting from all zero. */
  function CountsAfter(bs: seq<EventBoundary>): (c: seq<int>)
    ensures |c| == NumTypes
  {
    if bs == [] then seq(NumTypes, _ => 0)
    else Counted(CountsAfter(bs[..|bs| - 1]), bs[|bs| - 1])
  }

  /** PriorityTracker::Update exactly as the source writes it, on values:
      an end boundary rescans downward only when its count reaches 0, and
      a start boundary raises the maximum whatever its new count is. */
  function UpdateAsWritten(counts: seq<int>, cur: int, b: EventBoundary): (r: (seq<int>, int))
    requires |counts| == NumTypes
  {
    var t := b.eventType;
    var c := Counted(counts, b);
    if b.isStart then (c, if t > cur then t else cur)
    else (c, if t == cur && c[t] == 0 then HighestBelow(c, t) else cur)
  }

  /** A zero-length event [5,5] of DEVICE_COMPUTE inside [0,10] of
      HOST_COMPUTE: its end boundary sorts before its start, its count goes
      to -1 and back to 0, and the start still raises the maximum, so the
      tracker reports DEVICE_COMPUTE for [5,10] although only HOST_COMPUTE
      is open there. */
  lemma ZeroLengthEventLeavesStalePriority()
    ensures var bs := [EventBoundary(0, HostCompute, true),
                       EventBoundary(5, DeviceCompute, false),
                       EventBoundary(5, DeviceCompute, true)];
            var s0 := (seq(NumTypes, _ => 0), UnknownTime);
            var s1 := UpdateAsWritten(s0.0, s0.1, bs[0]);
            var s2 := UpdateAsWritten(s1.0, s1.1, bs[1]);
            var s3 := UpdateAsWritten(s2.0, s2.1, bs[2]);
            s3.1 == DeviceCompute && Highest(s3.0) == HostCompute
  {
    var bs := [EventBoundary(0, HostCompute, true),
               EventBoundary(5, DeviceCompute, false),
               EventBoundary(5, DeviceCompute, true)];
    assert CmpEventBoundaries(bs[1], bs[2]);
    var z: seq<int> := seq(NumTypes, _ => 0);
    var c3 := z[HostCompute := 1][DeviceCompute := -1][DeviceCompute := 0];
    assert UpdateAsWritten(z, UnknownTime, bs[0]) == (z[HostCompute := 1], HostCompute);
    assert UpdateAsWritten(z[HostCompute := 1], HostCompute, bs[1])
        == (z[HostCompute := 1][DeviceCompute := -1], HostCompute);
    assert UpdateAsWritten(z[HostCompute := 1][DeviceCompute := -1], HostCompute, bs[2])
        == (c3, DeviceCompute);
    HighestUnique(c3, |c3|, HostCompute);
  }

  /** When every count stays non-negative (each end follows its start), the
      source's update and the corrected one agree. */
  lemma AsWrittenCorrectWhenNested(counts: seq<int>, b: EventBoundary)
    requires |counts| == NumTypes
    requires forall t :: 0 <= t < NumTypes ==> counts[t] >= 0
    requires !b.isStart ==> counts[b.eventType] > 0
    ensures UpdateAsWritten(counts, Highest(counts), b).1 == Highest(Counted(counts, b))
  {
    var cur := Highest(counts);
    var c := Counted(counts, b);
    var t := b.eventType;
    if b.isStart {
      if t > cur { HighestUnique(c, |c|, t); } else { HighestUnique(c, |c|, cur); }
    } else if t == cur && c[t] == 0 {
      HighestUnique(c, |c|, HighestBelow(c, t));
    } else {
      HighestUnique(c, |c|, cur);
    }
  }

  /** Tracks the highest-priority event type that is currently open. The
      model uses the corrected start rule: a start raises the maximum only
      when its type's count becomes positive. */
  class PriorityTracker {
    var currentMaxPriority: int
    var priorityCount: array<int>

    ghost predicate Valid()
      reads this, priorityCount
    {
      priorityCount.Length == NumTypes && currentMaxPriority == Highest(priorityCount[..])
    }

    constructor ()
      ensures Valid() && fresh(priorityCount)
      ensures priorityCount[..] == CountsAfter([])
      ensures currentMaxPriority == UnknownTime
    {
      currentMaxPriority := UnknownTime;
      priorityCount := new int[NumTypes](_ => 0);
      new;
      HighestUnique(priorityCount[..], NumTypes, UnknownTime);
    }

    method Update(b: EventBoundary) returns (p: EventType)
      requires Valid()
      modifies this, priorityCount
      ensures Valid() && priorityCount == old(priorityCount)
      ensures priorityCount[..] == Counted(old(priorityCount[..]), b)
      ensures p == currentMaxPriority == Highest(priorityCount[..])
    {
      var t := b.eventType;
      ghost var before := priorityCount[..];
      if b.isStart {
        priorityCount[t] := priorityCount[t] + 1;
        assert priorityCount[..] == Counted(before, b);
        if priorityCount[t] > 0 && t > currentMaxPriority {
          currentMaxPriority := t;
        }
        HighestUnique(priorityCount[..], NumTypes, currentMaxPriority);
      } else {
        priorityCount[t] := priorityCount[t] - 1;
        assert priorityCount[..] == Counted(before, b);
        if t == currentMaxPriority && priorityCount[t] == 0 {
          var found := false;
          var i := t - 1;
          while i >= 0
            invariant -1 <= i < t
            invariant forall j :: i < j < t ==> priorityCount[j] <= 0
            invariant priorityCount[..] == Counted(before, b)
          {
            if priorityCount[i] > 0 {
              currentMaxPriority := i;
              found := true;
              break;
            }
            i := i - 1;
          }
          if !found {
            currentMaxPriority := UnknownTime;
          }
          HighestUnique(priorityCount[..], NumTypes, currentMaxPriority);
        } else {
          HighestUnique(priorityCount[..], NumTypes, currentMaxPriority);
        }
      }
      p := currentMaxPriority;
    }
  }

  /** Span k covers [bs[k], bs[k+1]] and carries the highest type open
      after the first k+1 boundaries. */
  predicate SpanFromBoundaries(result: seq<EventTypeSpan>, bs: seq<EventBoundary>, k: nat)
    requires k < |result| && k + 1 < |bs|
  {
    && bs[k].timePs <= bs[k + 1].timePs
    && result[k].span == FromEndPoints(bs[k].timePs, bs[k + 1].timePs)
    && result[k].eventType == Highest(CountsAfter(bs[..k + 1]))
  }

  lemma SpanAppended(result: seq<EventTypeSpan>, bs: seq<EventBoundary>, e: EventTypeSpan)
    requires |result| + 1 < |bs|
    requires forall k :: 0 <= k < |result| ==> SpanFromBoundaries(result, bs, k)
    requires SpanFromBoundaries(result + [e], bs, |result|)
    ensures forall k :: 0 <= k <= |result| ==> SpanFromBoundaries(result + [e], bs, k)
  {
    forall k | 0 <= k < |result| ensures SpanFromBoundaries(result + [e], bs, k) {
      assert (result + [e])[k] == result[k];
      assert SpanFromBoundaries(result, bs, k);
    }
  }

  lemma CountsAfterStep(bs: seq<EventBoundary>, i: nat)
    requires i < |bs|
    ensures CountsAfter(bs[..i + 1]) == Counted(CountsAfter(bs[..i]), bs[i])
  {
    assert bs[..i + 1][..i] == bs[..i];
  }

  /** result splits the spans of events into one span per pair of adjacent
      sorted boundaries, each typed by the highest event type open over it,
      and consecutive spans meet end to begin. */
  predicate NonOverlappedSplit(events: seq<EventTypeSpan>, result: seq<EventTypeSpan>)
  {
    && |events| > 0
    && |result| == 2 * |events| - 1 == |Sort(RawBoundaries(events))| - 1
    && (forall k :: 0 <= k < |result| ==> SpanFromBoundaries(result, Sort(RawBoundaries(events)), k))
    && (forall k :: 0 <= k < |result| - 1 ==>
          result[k].span.EndPs() == result[k + 1].span.beginPs)
  }

  /** Splits overlapping typed spans into one span per pair of adjacent
      boundaries, typed by the highest event type open over it. The source
      computes size() - 1 on an unsigned size, so it needs a non-empty input. */
  method ToNonOverlappedEvents(events: seq<EventTypeSpan>) returns (result: seq<EventTypeSpan>)
    requires |events| > 0
    ensures NonOverlappedSplit(events, result)
  {
    var bs := GenerateEventBoundaries(events);
    result := [];
    var tracker := new PriorityTracker();
    var i := 0;
    while i < |bs| - 1
      invariant 0 <= i <= |bs| - 1
      invariant fresh(tracker) && fresh(tracker.priorityCount)
      invariant tracker.Valid()
      invariant tracker.priorityCount[..] == CountsAfter(bs[..i])
      invariant |result| == i
      invariant forall k :: 0 <= k < i ==> SpanFromBoundaries(result, bs, k)
    {
      var highest := tracker.Update(bs[i]);
      CountsAfterStep(bs, i);
      assert Rank(bs[i]) <= Rank(bs[i + 1]);
      RankOrdersTime(bs[i], bs[i + 1]);
      var e := EventTypeSpan(highest, FromEndPoints(bs[i].timePs, bs[i + 1].timePs));
      SpanAppended(result, bs, e);
      result := result + [e];
      i := i + 1;
    }
    forall k | 0 <= k < |result| - 1
      ensures result[k].span.EndPs() == result[k + 1].span.beginPs
    {
      assert SpanFromBoundaries(result, bs, k) && SpanFromBoundaries(result, bs, k + 1);
    }
  }

  /** How a name is compared by StartsWithIgnoreCase: ASCII letters fold. */
  function ToLowerAscii(c: char): char
  {
    if 'A' <= c <= 'Z' then (c as int + 32) as char else c
  }

  predicate StartsWithIgnoreCase(s: string, prefix: string)
  {
    |prefix| <= |s| && forall i :: 0 <= i < |prefix| ==> ToLowerAscii(s[i]) == ToLowerAscii(prefix[i])
  }

  /** absl::StrContains: `sub` occurs somewhere in `s`. */
  predicate Contains(s: string, sub: string)
  {
    exists i :: 0 <= i <= |s| && StartsWith(s[i..], sub)
  }

  function ClassifyGpuEvent(name: string): (t: EventType)
    ensures t == HostToDevice <==> StartsWithIgnoreCase(name, "MEMCPYHtoD")
    ensures t == DeviceToHost <==>
              !StartsWithIgnoreCase(name, "MEMCPYHtoD") && StartsWithIgnoreCase(name, "MEMCPYDtoH")
    ensures t == DeviceToDevice <==>
              !StartsWithIgnoreCase(name, "MEMCPYHtoD") && !StartsWithIgnoreCase(name, "MEMCPYDtoH")
              && StartsWithIgnoreCase(name, "MEMCPYDtoD")
    ensures t in {HostToDevice, DeviceToHost, DeviceToDevice, DeviceCompute}
  {
    if StartsWithIgnoreCase(name, "MEMCPYHtoD") then HostToDevice
    else if StartsWithIgnoreCase(name, "MEMCPYDtoH") then DeviceToHost
    else if StartsWithIgnoreCase(name, "MEMCPYDtoD") then DeviceToDevice
    else DeviceCompute
  }

  function ClassifyCpuEvent(name: string, correlationId: int): (t: EventType)
    ensures t in {HostToDevice, HostToHost, HostPrepare, HostWaitInput, HostCompute}
    ensures t == HostToDevice <==>
              StartsWithIgnoreCase(name, "MEMCPYHtoD") || Contains(name, "Infeed")
    ensures t == HostPrepare ==> correlationId >= 0 || StartsWithIgnoreCase(name, "ExecutorState::Process")
    ensures correlationId >= 0 ==> t in {HostToDevice, HostToHost, HostPrepare}
    ensures t == HostCompute ==> correlationId < 0 && !StartsWithIgnoreCase(name, "IteratorGetNext")
  {
    if StartsWithIgnoreCase(name, "MEMCPYHtoD") || Contains(name, "Infeed") then HostToDevice
    else if StartsWithIgnoreCase(name, "MEMCPYHtoH") then HostToHost
    else if correlationId >= 0 || StartsWithIgnoreCase(name, "ExecutorState::Process") then HostPrepare
    else if StartsWithIgnoreCase(name, "IteratorGetNext") then HostWaitInput
    else HostCompute
  }

  lemma ClassifyGpuIgnoresCase()
    ensures ClassifyGpuEvent("memcpyHtoD") == HostToDevice
  {
    assert StartsWithIgnoreCase("memcpyHtoD", "MEMCPYHtoD");
  }

  lemma ClassifyCpuInfeed()
    ensures ClassifyCpuEvent("MyInfeed", -1) == HostToDevice
  {
    assert StartsWith("MyInfeed"[2..], "Infeed");
  }

  /** dst's details for a step after src's are appended (CombineStepDetails). */
  function Appended(dst: StepDetails, src: StepDetails): StepDetails
  {
    StepDetails(dst.markers + src.markers, dst.events + src.events)
  }

  function DetailsOf(m: StepEvents, id: int): StepDetails
  {
    if id in m then m[id] else StepDetails([], [])
  }

  /** The whole effect of CombineStepEvents(src, &dst). */
  function Combined(src: StepEvents, dst: StepEvents): (r: StepEvents)
    ensures r.Keys == src.Keys + dst.Keys
  {
    map id | id in src.Keys + dst.Keys ::
      if id in src then Appended(DetailsOf(dst, id), src[id]) else dst[id]
  }

  /** Appends every src step's markers and events after dst's contents for
      that step; steps only in dst are untouched. */
  method CombineStepEvents(src: StepEvents, dst: StepEvents) returns (r: StepEvents)
    ensures r == Combined(src, dst)
    ensures forall id :: id in src ==>
              && id in r
              && r[id].markers == DetailsOf(dst, id).markers + src[id].markers
              && r[id].events == DetailsOf(dst, id).events + src[id].events
    ensures forall id :: id in dst && id !in src ==> id in r && r[id] == dst[id]
  {
    r := dst;
    var todo := src.Keys;
    while todo != {}
      invariant todo <= src.Keys
      invariant r.Keys == dst.Keys + (src.Keys - todo)
      invariant forall id :: id in r ==>
                  r[id] == if id in src && id !in todo
                           then Appended(DetailsOf(dst, id), src[id]) else dst[id]
      decreases todo
    {
      ghost var some := ElementOf(todo);
      var id :| id in todo;
      r := r[id := Appended(DetailsOf(r, id), src[id])];
      todo := todo - {id};
    }
    assert r.Keys == Combined(src, dst).Keys;
    forall id | id in r ensures r[id] == Combined(src, dst)[id] {
    }
  }

  /** StepDetails::StepTime: the first marker span of maximal positive
      duration, or the default (empty) span when no marker has one. */
  method StepTime(details: StepDetails) returns (t: Timespan)
    ensures t == Timespan(0, 0) || exists k :: 0 <= k < |details.markers| && t == details.markers[k].span
    ensures forall k :: 0 <= k < |details.markers| ==> details.markers[k].span.durationPs <= t.durationPs
    ensures t != Timespan(0, 0) ==>
              exists k :: && 0 <= k < |details.markers|
                          && t == details.markers[k].span
                          && forall j :: 0 <= j < k ==> details.markers[j].span.durationPs < t.durationPs
    ensures (forall k :: 0 <= k < |details.markers| ==> details.markers[k].span.durationPs == 0)
              ==> t == Timespan(0, 0)
  {
    var ms := details.markers;
    t := Timespan(0, 0);
    ghost var at := -1;
    for i := 0 to |ms|
      invariant forall k :: 0 <= k < i ==> ms[k].span.durationPs <= t.durationPs
      invariant at == -1 ==> t == Timespan(0, 0)
      invariant at != -1 ==>
                  && 0 <= at < i && t == ms[at].span && t.durationPs > 0
                  && forall j :: 0 <= j < at ==> ms[j].span.durationPs < t.durationPs
    {
      if ms[i].span.durationPs > t.durationPs {
        t := ms[i].span;
        at := i;
      }
    }
  }

  /** Converts every step's events to non-overlapping ones; markers stay. */
  method ToNonOverlappedStepEvents(overlapped: StepEvents) returns (r: StepEvents)
    requires forall id :: id in overlapped ==> |overlapped[id].events| > 0
    ensures r.Keys == overlapped.Keys
    ensures forall id :: id in r ==>
              r[id].markers == overlapped[id].markers &&
              NonOverlappedSplit(overlapped[id].events, r[id].events)
  {
    r := map[];
    var todo := overlapped.Keys;
    while todo != {}
      invariant todo <= overlapped.Keys
      invariant r.Keys == overlapped.Keys - todo
      invariant forall id :: id in r ==>
                  r[id].markers == overlapped[id].markers &&
                  NonOverlappedSplit(overlapped[id].events, r[id].events)
      decreases todo
    {
      ghost var some := ElementOf(todo);
      var id :| id in todo;
      var events := ToNonOverlappedEvents(overlapped[id].events);
      r := r[id := StepDetails(overlapped[id].markers, events)];
      todo := todo - {id};
    }
  }
}
