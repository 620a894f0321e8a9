/**
 * The control-line monitor of one port: it samples the CTS and DSR input lines
 * and reports each change of level as an event, CTS before DSR. The status it
 * keeps per line starts out unknown, so the first sample is always reported.
 */
module ControlLines {
  import opened SerialTypes

  /** The status of a line before its first sample. */
  const Unknown: int := -1

  const StatusError: string := "error getting status bits: "

  datatype Line = CTS | DSR

  /** The status a sampled bit is recorded as. */
  function Level(bit: bool): int
  {
    if bit then 1 else 0
  }

  function LineBit(bits: ModemStatusBits, line: Line): bool
  {
    if line == CTS then bits.cts else bits.dsr
  }

  function CtsEvent(level: int): SerialData
  {
    SerialData(level, NotSet, [])
  }

  function DsrEvent(level: int): SerialData
  {
    SerialData(NotSet, level, [])
  }

  predicate IsStatus(v: int)
  {
    v == Unknown || v == 0 || v == 1
  }

  /** The level an event reports for `line`, or NotSet. */
  function EventLevel(e: SerialData, line: Line): int
  {
    if line == CTS then e.ctsSet else e.dsrSet
  }

  /** A control-line event: exactly one line named, with a level of 0 or 1, and no bytes. */
  predicate IsControlEvent(e: SerialData, line: Line)
  {
    var other := if line == CTS then DSR else CTS;
    && (EventLevel(e, line) == 0 || EventLevel(e, line) == 1)
    && EventLevel(e, other) == NotSet
    && e.data == []
  }

  /**
   * What one poll reports, given the statuses recorded so far: an event for a
   * line exactly when its sampled level differs from its status, CTS first.
   */
  function Changes(cts: int, dsr: int, bits: ModemStatusBits): seq<SerialData>
  {
    (if Level(bits.cts) != cts then [CtsEvent(Level(bits.cts))] else [])
    + (if Level(bits.dsr) != dsr then [DsrEvent(Level(bits.dsr))] else [])
  }

  /** The two statuses of one running monitor. */
  class StatusTracker {
    var ctsStatus: int
    var dsrStatus: int

    ghost predicate Valid()
      reads this
    {
      IsStatus(ctsStatus) && IsStatus(dsrStatus)
    }

    constructor ()
      ensures Valid() && ctsStatus == Unknown && dsrStatus == Unknown
    {
      ctsStatus := Unknown;
      dsrStatus := Unknown;
    }

    /** One pass of the polling loop over an already sampled pair of bits. */
    method Poll(bits: ModemStatusBits) returns (events: seq<SerialData>)
      requires Valid()
      modifies this
      ensures Valid()
      ensures ctsStatus == Level(bits.cts) && dsrStatus == Level(bits.dsr)
      ensures events == Changes(old(ctsStatus), old(dsrStatus), bits)
    {
      events := [];
      if bits.cts && ctsStatus < 1 {
        ctsStatus := 1;
        events := events + [CtsEvent(1)];
      } else if !bits.cts && ctsStatus != 0 {
        ctsStatus := 0;
        events := events + [CtsEvent(0)];
      }

      if bits.dsr && dsrStatus < 1 {
        dsrStatus := 1;
        events := events + [DsrEvent(1)];
      } else if !bits.dsr && dsrStatus != 0 {
        events := events + [DsrEvent(0)];
        dsrStatus := 0;
      }
    }
  }

  /** What sampling the lines returns: the bits, or the port's error. */
  datatype Sample = Sampled(bits: ModemStatusBits) | SampleFailed(reason: string)

  datatype MonitorRun = MonitorRun(events: seq<SerialData>, error: Option<string>)

  /**
   * The events a monitor with statuses `cts` and `dsr` reports over a script of
   * samples, and the error that stops it, if a sample fails.
   */
  function Run(cts: int, dsr: int, samples: seq<Sample>): MonitorRun
    decreases |samples|
  {
    if samples == [] then MonitorRun([], None)
    else match samples[0]
      case SampleFailed(reason) => MonitorRun([], Some(StatusError + reason))
      case Sampled(bits) =>
        var rest := Run(Level(bits.cts), Level(bits.dsr), samples[1..]);
        MonitorRun(Changes(cts, dsr, bits) + rest.events, rest.error)
  }

  /**
   * The monitor loop, run over the samples taken before it is cancelled: it
   * reports what Run describes from unknown statuses, and stops at the first
   * failed sample.
   */
  method GetControlStatus(samples: seq<Sample>) returns (events: seq<SerialData>, error: Option<string>)
    ensures MonitorRun(events, error) == Run(Unknown, Unknown, samples)
  {
    var tracker := new StatusTracker();
    events, error := [], None;
    var i := 0;
    while i < |samples|
      invariant 0 <= i <= |samples|
      invariant tracker.Valid()
      invariant var rest := Run(tracker.ctsStatus, tracker.dsrStatus, samples[i..]);
        Run(Unknown, Unknown, samples) == MonitorRun(events + rest.events, rest.error)
    {
      match samples[i]
      case SampleFailed(reason) =>
        error := Some(StatusError + reason);
        return;
      case Sampled(bits) =>
        ghost var cts, dsr := tracker.ctsStatus, tracker.dsrStatus;
        var emitted := tracker.Poll(bits);
        assert samples[i..][1..] == samples[i + 1..];
        ghost var rest := Run(tracker.ctsStatus, tracker.dsrStatus, samples[i + 1..]);
        assert Run(cts, dsr, samples[i..]).events == emitted + rest.events;
        events := events + emitted;
        i := i + 1;
    }
  }

  // ---------------------------------------------------------------------------
  // Properties of one poll
  // ---------------------------------------------------------------------------

  /** Both statuses start unknown, so the first poll reports both lines, even when clear. */
  lemma FirstPollReportsBoth(bits: ModemStatusBits, later: seq<Sample>)
    ensures var events := Run(Unknown, Unknown, [Sampled(bits)] + later).events;
      && |events| >= 2
      && events[0] == CtsEvent(Level(bits.cts))
      && events[1] == DsrEvent(Level(bits.dsr))
  {
    assert ([Sampled(bits)] + later)[1..] == later;
  }

  /**
   * The events of one poll: each names exactly one line with level 0 or 1 and
   * carries no bytes; a poll reports at most one event per line, CTS first.
   */
  lemma PollEventsWellFormed(cts: int, dsr: int, bits: ModemStatusBits)
    ensures var events := Changes(cts, dsr, bits);
      && |events| <= 2
      && AllControlEvents(events)
      && (forall i, j :: 0 <= i < j < |events| ==> IsControlEvent(events[i], CTS) && IsControlEvent(events[j], DSR))
  {
  }

  // ---------------------------------------------------------------------------
  // Properties of a whole run
  // ---------------------------------------------------------------------------

  predicate AllControlEvents(events: seq<SerialData>)
  {
    forall i :: 0 <= i < |events| ==> IsControlEvent(events[i], CTS) || IsControlEvent(events[i], DSR)
  }

  /** Every event of a run is a well-formed control-line event. */
  lemma {:induction false} RunEventsWellFormed(cts: int, dsr: int, samples: seq<Sample>)
    ensures AllControlEvents(Run(cts, dsr, samples).events)
    decreases |samples|
  {
    if samples != [] && samples[0].Sampled? {
      var bits := samples[0].bits;
      RunEventsWellFormed(Level(bits.cts), Level(bits.dsr), samples[1..]);
      PollEventsWellFormed(cts, dsr, bits);
      var now, later := Changes(cts, dsr, bits), Run(Level(bits.cts), Level(bits.dsr), samples[1..]).events;
      forall i | 0 <= i < |now + later|
        ensures IsControlEvent((now + later)[i], CTS) || IsControlEvent((now + later)[i], DSR)
      {
        if i < |now| {
          assert (now + later)[i] == now[i];
        } else {
          assert (now + later)[i] == later[i - |now|];
        }
      }
    }
  }

  /** The levels `line` is sampled at, up to the first failed sample. */
  function SampledLevels(samples: seq<Sample>, line: Line): seq<int>
  {
    if samples == [] || samples[0].SampleFailed? then []
    else [Level(LineBit(samples[0].bits, line))] + SampledLevels(samples[1..], line)
  }

  function LevelOf(e: SerialData, line: Line): seq<int>
  {
    if EventLevel(e, line) != NotSet then [EventLevel(e, line)] else []
  }

  /** The levels a sequence of events reports for `line`, in order. */
  function Reported(events: seq<SerialData>, line: Line): seq<int>
  {
    if events == [] then [] else LevelOf(events[0], line) + Reported(events[1..], line)
  }

  lemma {:induction false} ReportedAppend(a: seq<SerialData>, b: seq<SerialData>, line: Line)
    ensures Reported(a + b, line) == Reported(a, line) + Reported(b, line)
  {
    if a == [] {
      assert a + b == b;
    } else {
      calc {
        Reported(a + b, line);
        LevelOf((a + b)[0], line) + Reported((a + b)[1..], line);
        { assert (a + b)[0] == a[0] && (a + b)[1..] == a[1..] + b; }
        LevelOf(a[0], line) + Reported(a[1..] + b, line);
        { ReportedAppend(a[1..], b, line); }
        LevelOf(a[0], line) + (Reported(a[1..], line) + Reported(b, line));
        Reported(a, line) + Reported(b, line);
      }
    }
  }

  /** Each level that differs from the one before it, starting from `previous`. */
  function Transitions(previous: int, levels: seq<int>): seq<int>
    decreases |levels|
  {
    if levels == [] then []
    else (if levels[0] != previous then [levels[0]] else []) + Transitions(levels[0], levels[1..])
  }

  /** One poll reports for `line` its sampled level, when that differs from the line's status. */
  lemma ReportedChanges(cts: int, dsr: int, bits: ModemStatusBits, line: Line)
    ensures var level := Level(LineBit(bits, line));
      Reported(Changes(cts, dsr, bits), line) == if level != (if line == CTS then cts else dsr) then [level] else []
  {
    var c := if Level(bits.cts) != cts then [CtsEvent(Level(bits.cts))] else [];
    var d := if Level(bits.dsr) != dsr then [DsrEvent(Level(bits.dsr))] else [];
    ReportedAppend(c, d, line);
  }

  /**
   * Changes are neither lost nor repeated: the levels reported for a line are
   * exactly the transitions of its samples, the first sample compared with the
   * starting status.
   */
  lemma {:induction false} RunReportsTransitions(cts: int, dsr: int, samples: seq<Sample>, line: Line)
    ensures Reported(Run(cts, dsr, samples).events, line)
         == Transitions(if line == CTS then cts else dsr, SampledLevels(samples, line))
    decreases |samples|
  {
    if samples != [] && samples[0].Sampled? {
      var bits := samples[0].bits;
      var rest := Run(Level(bits.cts), Level(bits.dsr), samples[1..]);
      ReportedAppend(Changes(cts, dsr, bits), rest.events, line);
      RunReportsTransitions(Level(bits.cts), Level(bits.dsr), samples[1..], line);
      ReportedChanges(cts, dsr, bits, line);
      assert SampledLevels(samples, line) == [Level(LineBit(bits, line))] + SampledLevels(samples[1..], line);
    }
  }

  /** Transitions never repeat a level: consecutive entries differ, and the first differs from the start. */
  lemma {:induction false} TransitionsAlternate(previous: int, levels: seq<int>)
    ensures var t := Transitions(previous, levels);
      && (|t| > 0 ==> t[0] != previous)
      && forall i :: 0 < i < |t| ==> t[i] != t[i - 1]
    decreases |levels|
  {
    if levels != [] {
      TransitionsAlternate(levels[0], levels[1..]);
      var rest := Transitions(levels[0], levels[1..]);
      if levels[0] != previous {
        assert Transitions(previous, levels) == [levels[0]] + rest;
      } else {
        assert Transitions(previous, levels) == rest;
      }
    }
  }

  /** Once a line is sampled at the same level again and again, it reports nothing more. */
  lemma {:induction false} SteadySamplesAreSilent(bits: ModemStatusBits, samples: seq<Sample>)
    requires forall i :: 0 <= i < |samples| ==> samples[i] == Sampled(bits)
    ensures Run(Level(bits.cts), Level(bits.dsr), samples) == MonitorRun([], None)
  {
    if samples != [] {
      SteadySamplesAreSilent(bits, samples[1..]);
    }
  }
}
