// Building per-step profiler events from host and device trace lines.
module XplaneToStepEvents {
  import opened Common
  import opened EventSpan

  predicate IsStepMarker(name: string)
  {
    (StartsWith(name, "train") || StartsWith(name, "test") || StartsWith(name, "TraceContext"))
    && '/' !in name
  }

  function IsRealCpuCompute(name: string): (r: bool)
    ensures IsStepMarker(name) ==> !r
    ensures (StartsWith(name, "EagerExecute") || StartsWith(name, "EagerLocalExecute")
             || StartsWith(name, "EagerKernelExecute") || StartsWith(name, "FunctionRun")) ==> !r
  {
    var notReal := StartsWith(name, "EagerExecute") || StartsWith(name, "EagerLocalExecute")
                   || StartsWith(name, "EagerKernelExecute") || StartsWith(name, "FunctionRun")
                   || IsStepMarker(name);
    !notReal
  }

  lemma StepMarkerExamples()
    ensures IsStepMarker("train_step") && IsStepMarker("TraceContext")
    ensures !IsStepMarker("train/step") && !IsStepMarker("step")
  {
    assert "train/step"[5] == '/';
    assert !StartsWith("step", "train") by { assert "step"[0] != "train"[0]; }
    assert !StartsWith("step", "test") by { assert "step"[1] != "test"[1]; }
  }

  /** The stats an event carries; other stat kinds are ignored. */
  datatype XStat =
    | CorrelationIdStat(intValue: int)
    | GroupIdStat(intValue: int)
    | TensorShapesStat(strValue: string)
    | OtherStat

  datatype XEvent = XEvent(name: string, timestampPs: nat, durationPs: nat, stats: seq<XStat>)

  /** A trace line; derived lines are the ones IsDerivedThreadId flags. */
  datatype XLine = XLine(derived: bool, events: seq<XEvent>)

  /** The value of the last correlation-id stat, or -1 when there is none. */
  function CorrelationId(stats: seq<XStat>): int
  {
    if stats == [] then -1
    else if stats[|stats| - 1].CorrelationIdStat? then stats[|stats| - 1].intValue
    else CorrelationId(stats[..|stats| - 1])
  }

  /** The value of the last group-id stat, or -1 when there is none. */
  function GroupId(stats: seq<XStat>): int
  {
    if stats == [] then -1
    else if stats[|stats| - 1].GroupIdStat? then stats[|stats| - 1].intValue
    else GroupId(stats[..|stats| - 1])
  }

  /** The last tensor-shapes stat, or "" when there is none. */
  function TensorShapes(stats: seq<XStat>): string
  {
    if stats == [] then ""
    else if stats[|stats| - 1].TensorShapesStat? then stats[|stats| - 1].strValue
    else TensorShapes(stats[..|stats| - 1])
  }

  datatype Item = MarkerItem(marker: StepMarker) | EventItem(event: EventTypeSpan)

  /** What one host event contributes to the step events: nothing, or one
      marker or one event for step group_id. */
  function HostItem(e: XEvent, useDeviceStepEvents: bool, deviceStepEvents: StepEvents)
    : (r: Option<(int, Item)>)
    ensures r.Some? <==>
              GroupId(e.stats) >= 0 && (useDeviceStepEvents ==> GroupId(e.stats) in deviceStepEvents)
              && (IsStepMarker(e.name) || IsRealCpuCompute(e.name))
    ensures r.Some? ==> r.value.0 == GroupId(e.stats)
    ensures r.Some? ==> (r.value.1.MarkerItem? <==> IsStepMarker(e.name))
  {
    var correlationId := CorrelationId(e.stats);
    var groupId := GroupId(e.stats);
    if groupId < 0 then None
    else if useDeviceStepEvents && groupId !in deviceStepEvents then None
    else
      var span := Timespan(e.timestampPs, e.durationPs);
      if IsStepMarker(e.name) then Some((groupId, MarkerItem(StepMarker(false, e.name, span))))
      else if IsRealCpuCompute(e.name) then
        Some((groupId, EventItem(EventTypeSpan(ClassifyCpuEvent(e.name, correlationId), span))))
      else None
  }

  function AddItem(m: StepEvents, id: int, item: Item): (r: StepEvents)
    ensures r.Keys == m.Keys + {id}
  {
    var d := DetailsOf(m, id);
    m[id := match item
            case MarkerItem(mk) => StepDetails(d.markers + [mk], d.events)
            case EventItem(ev) => StepDetails(d.markers, d.events + [ev])]
  }

  /** The step events of the first events of a host line. */
  function HostLineSpec(events: seq<XEvent>, useDeviceStepEvents: bool, deviceStepEvents: StepEvents)
    : StepEvents
  {
    if events == [] then map[]
    else
      var m := HostLineSpec(events[..|events| - 1], useDeviceStepEvents, deviceStepEvents);
      match HostItem(events[|events| - 1], useDeviceStepEvents, deviceStepEvents)
      case None => m
      case Some(p) => AddItem(m, p.0, p.1)
  }

  /** Host events are kept only for a non-negative group id, and only for a
      step present on the device when device step events are used. */
  lemma {:induction false} HostLineSteps(events: seq<XEvent>, useDevice: bool, device: StepEvents)
    ensures forall id :: id in HostLineSpec(events, useDevice, device) ==>
              id >= 0 && (useDevice ==> id in device)
  {
    if events != [] {
      HostLineSteps(events[..|events| - 1], useDevice, device);
    }
  }

  method ConvertHostThreadsXLineToStepEvents(
    line: XLine, useDeviceStepEvents: bool, deviceStepEvents: StepEvents)
    returns (result: StepEvents)
    ensures result == HostLineSpec(line.events, useDeviceStepEvents, deviceStepEvents)
  {
    result := map[];
    var events := line.events;
    for i := 0 to |events|
      invariant result == HostLineSpec(events[..i], useDeviceStepEvents, deviceStepEvents)
    {
      assert events[..i + 1][..i] == events[..i];
      var item := HostItem(events[i], useDeviceStepEvents, deviceStepEvents);
      if item.Some? {
        result := AddItem(result, item.value.0, item.value.1);
      }
    }
    assert events[..|events|] == events;
  }

  /** What one device event contributes. The device classifier is passed in:
      the two-argument ClassifyGpuEvent it calls is not part of this model. */
  function DeviceItem(e: XEvent, classify: (string, string) -> EventType)
    : (r: Option<(int, EventTypeSpan)>)
    ensures r.Some? <==> CorrelationId(e.stats) >= 0 && GroupId(e.stats) >= 0
    ensures r.Some? ==> r.value.0 == GroupId(e.stats)
    ensures r.Some? ==> r.value.1.span == Timespan(e.timestampPs, e.durationPs)
  {
    if CorrelationId(e.stats) >= 0 && GroupId(e.stats) >= 0 then
      Some((GroupId(e.stats),
            EventTypeSpan(classify(e.name, TensorShapes(e.stats)), Timespan(e.timestampPs, e.durationPs))))
    else None
  }

  function DeviceLineSpec(events: seq<XEvent>, classify: (string, string) -> EventType): StepEvents
  {
    if events == [] then map[]
    else
      var m := DeviceLineSpec(events[..|events| - 1], classify);
      match DeviceItem(events[|events| - 1], classify)
      case None => m
      case Some(p) => AddItem(m, p.0, EventItem(p.1))
  }

  /** Device lines yield events only, under non-negative step ids. */
  lemma {:induction false} DeviceLineSteps(events: seq<XEvent>, classify: (string, string) -> EventType)
    ensures forall id :: id in DeviceLineSpec(events, classify) ==>
              id >= 0 && DeviceLineSpec(events, classify)[id].markers == []
  {
    if events != [] {
      DeviceLineSteps(events[..|events| - 1], classify);
    }
  }

  method ConvertDeviceTraceXLineToStepEvents(line: XLine, classify: (string, string) -> EventType)
    returns (result: StepEvents)
    ensures result == DeviceLineSpec(line.events, classify)
  {
    result := map[];
    var events := line.events;
    for i := 0 to |events|
      invariant result == DeviceLineSpec(events[..i], classify)
    {
      assert events[..i + 1][..i] == events[..i];
      var item := DeviceItem(events[i], classify);
      if item.Some? {
        result := AddItem(result, item.value.0, EventItem(item.value.1));
      }
    }
    assert events[..|events|] == events;
  }

  function HostPlaneSpec(lines: seq<XLine>, useDevice: bool, device: StepEvents): StepEvents
  {
    if lines == [] then map[]
    else Combined(HostLineSpec(lines[|lines| - 1].events, useDevice, device),
                  HostPlaneSpec(lines[..|lines| - 1], useDevice, device))
  }

  lemma {:induction false} HostPlaneSteps(lines: seq<XLine>, useDevice: bool, device: StepEvents)
    ensures forall id :: id in HostPlaneSpec(lines, useDevice, device) ==>
              id >= 0 && (useDevice ==> id in device)
  {
    if lines != [] {
      HostPlaneSteps(lines[..|lines| - 1], useDevice, device);
      HostLineSteps(lines[|lines| - 1].events, useDevice, device);
    }
  }

  method ConvertHostThreadsXPlaneToStepEvents(
    lines: seq<XLine>, useDeviceStepEvents: bool, deviceStepEvents: StepEvents)
    returns (result: StepEvents)
    ensures result == HostPlaneSpec(lines, useDeviceStepEvents, deviceStepEvents)
  {
    result := map[];
    for i := 0 to |lines|
      invariant result == HostPlaneSpec(lines[..i], useDeviceStepEvents, deviceStepEvents)
    {
      assert lines[..i + 1][..i] == lines[..i];
      var fromLine := ConvertHostThreadsXLineToStepEvents(lines[i], useDeviceStepEvents, deviceStepEvents);
      result := CombineStepEvents(fromLine, result);
    }
    assert lines[..|lines|] == lines;
  }

  function DevicePlaneSpec(lines: seq<XLine>, classify: (string, string) -> EventType): StepEvents
  {
    if lines == [] then map[]
    else if lines[|lines| - 1].derived then DevicePlaneSpec(lines[..|lines| - 1], classify)
    else Combined(DeviceLineSpec(lines[|lines| - 1].events, classify),
                  DevicePlaneSpec(lines[..|lines| - 1], classify))
  }

  /** Derived-thread lines contribute nothing to the device step events. */
  lemma DerivedLinesIgnored(lines: seq<XLine>, line: XLine, classify: (string, string) -> EventType)
    requires line.derived
    ensures DevicePlaneSpec(lines + [line], classify) == DevicePlaneSpec(lines, classify)
  {
    assert (lines + [line])[..|lines|] == lines;
  }

  method ConvertDeviceTraceXPlaneToStepEvents(lines: seq<XLine>, classify: (string, string) -> EventType)
    returns (result: StepEvents)
    ensures result == DevicePlaneSpec(lines, classify)
  {
    result := map[];
    for i := 0 to |lines|
      invariant result == DevicePlaneSpec(lines[..i], classify)
    {
      assert lines[..i + 1][..i] == lines[..i];
      if !lines[i].derived {
        var fromLine := ConvertDeviceTraceXLineToStepEvents(lines[i], classify);
        result := CombineStepEvents(fromLine, result);
      }
    }
    assert lines[..|lines|] == lines;
  }
}
