/**
 * Applying one event to its destination port: a CTS change is mirrored on RTS,
 * a DSR change on DTR, and a data chunk is written out. Failures name the
 * destination's label; a chunk is logged only once it has been written.
 */
module EventApplier {
  import opened SerialTypes
  import opened PortWriter
  import ControlLines

  /** The one action an event calls for on the destination port. */
  datatype Decision = MirrorRts(level: bool) | MirrorDtr(level: bool) | Forward(bytes: seq<byte>)

  /** The three-way case analysis on the event's fields, CTS first. */
  function Decide(d: SerialData): (r: Decision)
    ensures r.MirrorRts? <==> d.ctsSet != NotSet
    ensures r.MirrorDtr? <==> d.ctsSet == NotSet && d.dsrSet != NotSet
    ensures r.Forward? <==> d.ctsSet == NotSet && d.dsrSet == NotSet
    ensures r.MirrorRts? ==> r.level == (d.ctsSet > 0)
    ensures r.MirrorDtr? ==> r.level == (d.dsrSet > 0)
    ensures r.Forward? ==> r.bytes == d.data
  {
    if d.ctsSet != NotSet then MirrorRts(d.ctsSet > 0)
    else if d.dsrSet != NotSet then MirrorDtr(d.dsrSet > 0)
    else Forward(d.data)
  }

  /** A call made on a port handle. */
  datatype PortCall = SetRts(level: bool) | SetDtr(level: bool) | Write(bytes: seq<byte>)

  datatype LogEntry =
    | ControlFlow(direction: string, line: string, state: bool)
    | DataDump(direction: string, bytes: seq<byte>)

  /**
   * A destination port: its label, the direction text its log lines carry, the
   * calls made on its handle, and the bytes the handle took, in order.
   */
  datatype Endpoint = Endpoint(portLabel: string, direction: string, calls: seq<PortCall>, written: seq<byte>)

  /** How the port handle answers: the error of a line-set call, if it fails, and the replies to Write calls. */
  datatype PortReplies = PortReplies(lineError: Option<string>, writes: seq<WriteReply>)

  /** Done, failed with the message sent to the shutdown channel, or still waiting on a write. */
  datatype Status = Done | Fatal(message: string) | StillWriting

  datatype Applied = Applied(port: Endpoint, log: seq<LogEntry>, status: Status)

  function WriteCalls(chunks: seq<seq<byte>>): seq<PortCall>
  {
    seq(|chunks|, i requires 0 <= i < |chunks| => Write(chunks[i]))
  }

  /** A control-flow log line, written only when control-flow logging is on. */
  function ControlLog(enabled: bool, direction: string, line: string, state: bool): seq<LogEntry>
  {
    if enabled then [ControlFlow(direction, line, state)] else []
  }

  /** The message of a failed line-set call; it names the port. */
  function LineError(line: string, name: string, level: bool, e: string): (msg: string)
    ensures Contains(msg, name)
  {
    var head := "error setting " + line + " on ";
    var msg := head + name + " port to value " + BoolText(level) + ": " + e;
    assert ContainsAt(msg, name, |head|) by {
      assert msg == head + name + (" port to value " + BoolText(level) + ": " + e);
    }
    msg
  }

  /** The message of a failed write; it names the port. */
  function WriteError(name: string, e: string): (msg: string)
    ensures Contains(msg, name)
  {
    var head := "error writing data to ";
    var msg := head + name + ": " + e;
    assert ContainsAt(msg, name, |head|) by {
      assert msg == head + name + (": " + e);
    }
    msg
  }

  /**
   * HandleSerialData: apply `d` to `port`. The control-flow line is logged before
   * the line is set, whether or not that succeeds; a chunk is logged after it is
   * written, and only then.
   */
  function HandleSerialData(port: Endpoint, d: SerialData, logControlFlow: bool, replies: PortReplies): (r: Applied)
    ensures r.port.portLabel == port.portLabel && r.port.direction == port.direction
    ensures port.calls <= r.port.calls && port.written <= r.port.written
  {
    match Decide(d)
    case MirrorRts(level) =>
      var log := ControlLog(logControlFlow, port.direction, "CTS", level);
      var after := port.(calls := port.calls + [SetRts(level)]);
      if replies.lineError.Some?
      then Applied(after, log, Fatal(LineError("RTS", port.portLabel, level, replies.lineError.value)))
      else Applied(after, log, Done)
    case MirrorDtr(level) =>
      var log := ControlLog(logControlFlow, port.direction, "DSR", level);
      var after := port.(calls := port.calls + [SetDtr(level)]);
      if replies.lineError.Some?
      then Applied(after, log, Fatal(LineError("DTR", port.portLabel, level, replies.lineError.value)))
      else Applied(after, log, Done)
    case Forward(bytes) =>
      var t := WriteFrom(bytes, 0, replies.writes);
      var after := port.(calls := port.calls + WriteCalls(t.calls), written := port.written + Flatten(t.taken));
      match t.outcome
      case Failed(e) => Applied(after, [], Fatal(WriteError(port.portLabel, e)))
      case Stalled => Applied(after, [], StillWriting)
      case Completed => Applied(after, [DataDump(port.direction, bytes)], Done)
  }

  // ---------------------------------------------------------------------------
  // What applying an event does
  // ---------------------------------------------------------------------------

  /** The calls an event adds to its destination port. */
  function Added(port: Endpoint, d: SerialData, logControlFlow: bool, replies: PortReplies): seq<PortCall>
  {
    HandleSerialData(port, d, logControlFlow, replies).port.calls[|port.calls|..]
  }

  /**
   * A line change makes one call: a CTS event sets RTS at its level, otherwise a
   * DSR event sets DTR at its level.
   */
  lemma ControlEventMakesOneCall(port: Endpoint, d: SerialData, logControlFlow: bool, replies: PortReplies)
    ensures d.ctsSet != NotSet ==> Added(port, d, logControlFlow, replies) == [SetRts(d.ctsSet > 0)]
    ensures d.ctsSet == NotSet && d.dsrSet != NotSet ==> Added(port, d, logControlFlow, replies) == [SetDtr(d.dsrSet > 0)]
  {
  }

  lemma ForwardAddsWriteCalls(port: Endpoint, d: SerialData, logControlFlow: bool, replies: PortReplies)
    requires Decide(d).Forward?
    ensures Added(port, d, logControlFlow, replies) == WriteCalls(WriteFrom(d.data, 0, replies.writes).calls)
  {
  }

  /**
   * A chunk makes Write calls only, at most one per reply, each offered a
   * non-empty tail of the chunk, the first of them the whole chunk; an empty
   * chunk makes none.
   */
  lemma ChunkMakesOnlyWrites(port: Endpoint, d: SerialData, logControlFlow: bool, replies: PortReplies)
    requires Decide(d).Forward?
    ensures var added, bytes := Added(port, d, logControlFlow, replies), d.data;
      && |added| <= |replies.writes|
      && (bytes == [] ==> added == [])
      && (forall j :: 0 <= j < |added| ==>
            added[j].Write? && 0 < |added[j].bytes| <= |bytes| && added[j].bytes == bytes[|bytes| - |added[j].bytes|..])
      && (|added| > 0 ==> added[0] == Write(bytes))
  {
    var bytes := d.data;
    var t := WriteFrom(bytes, 0, replies.writes);
    ForwardAddsWriteCalls(port, d, logControlFlow, replies);
    CallsOfferTheRest(bytes, 0, replies.writes);
    if |t.calls| > 0 {
      assert replies.writes[..0] == [];
    }
  }

  predicate ContainsAt(text: string, part: string, k: int)
  {
    0 <= k <= |text| - |part| && text[k..k + |part|] == part
  }

  ghost predicate Contains(text: string, part: string)
  {
    exists k :: ContainsAt(text, part, k)
  }

  /** Every failure is reported with the destination's label. */
  lemma FailureNamesDestination(port: Endpoint, d: SerialData, logControlFlow: bool, replies: PortReplies)
    requires HandleSerialData(port, d, logControlFlow, replies).status.Fatal?
    ensures Contains(HandleSerialData(port, d, logControlFlow, replies).status.message, port.portLabel)
  {
  }

  /**
   * A chunk is logged exactly when it has been written in full, and then the
   * bytes the port took, in order, are the chunk.
   */
  lemma DataLoggedOnlyAfterWrite(port: Endpoint, d: SerialData, logControlFlow: bool, replies: PortReplies)
    requires Decide(d).Forward?
    ensures var r := HandleSerialData(port, d, logControlFlow, replies);
      var t := WriteFrom(d.data, 0, replies.writes);
      && (r.log != [] <==> t.outcome == Completed)
      && (r.log != [] ==> r.log == [DataDump(port.direction, d.data)] && Flatten(t.taken) == d.data)
      && (r.status == Done <==> t.outcome == Completed)
  {
    var t := WriteFrom(d.data, 0, replies.writes);
    if t.outcome == Completed {
      CompletedTakesAll(d.data, 0, replies.writes);
    }
  }

  /**
   * A line change is logged (when logging is on) whether or not setting the line
   * fails; the status is Done exactly when the handle accepted the new level.
   */
  lemma ControlChangeLoggedEvenOnFailure(port: Endpoint, d: SerialData, replies: PortReplies)
    requires !Decide(d).Forward?
    ensures var on := HandleSerialData(port, d, true, replies);
      var off := HandleSerialData(port, d, false, replies);
      && |on.log| == 1 && on.log[0].ControlFlow? && on.log[0].direction == port.direction
      && on.log[0].state == Decide(d).level
      && on.log[0].line == (if Decide(d).MirrorRts? then "CTS" else "DSR")
      && off.log == []
      && (on.status == Done <==> replies.lineError.None?)
  {
  }

  // ---------------------------------------------------------------------------
  // Producers and the applier together
  // ---------------------------------------------------------------------------

  /**
   * The monitor's events are mirrored line for line: a CTS change sampled on one
   * port sets RTS on the other to the sampled level, a DSR change sets DTR.
   */
  lemma {:induction false} MonitorEventsAreMirrored(cts: int, dsr: int, bits: ModemStatusBits)
    ensures forall e :: e in ControlLines.Changes(cts, dsr, bits) ==>
      (Decide(e) == MirrorRts(bits.cts) && e.ctsSet != NotSet)
      || (Decide(e) == MirrorDtr(bits.dsr) && e.dsrSet != NotSet)
  {
    var events := ControlLines.Changes(cts, dsr, bits);
    forall e | e in events
      ensures (Decide(e) == MirrorRts(bits.cts) && e.ctsSet != NotSet)
           || (Decide(e) == MirrorDtr(bits.dsr) && e.dsrSet != NotSet)
    {
      if e == ControlLines.CtsEvent(ControlLines.Level(bits.cts)) {
        assert Decide(e) == MirrorRts(bits.cts);
      } else {
        assert e == ControlLines.DsrEvent(ControlLines.Level(bits.dsr));
      }
    }
  }

  /** A reader's chunk is forwarded as it is, however its bytes look. */
  lemma ReadChunksAreForwarded(bytes: seq<byte>)
    ensures Decide(DataEvent(bytes)) == Forward(bytes)
  {
  }

  // ---------------------------------------------------------------------------
  // Events applied one after another
  // ---------------------------------------------------------------------------

  /**
   * Apply `events` to `port` one at a time, each answered by its own replies,
   * stopping at the first event that does not finish with Done.
   */
  function ApplyInOrder(port: Endpoint, events: seq<SerialData>, logControlFlow: bool, replies: seq<PortReplies>): Applied
    requires |replies| == |events|
    decreases |events|
  {
    if events == [] then Applied(port, [], Done)
    else
      var first := HandleSerialData(port, events[0], logControlFlow, replies[0]);
      if first.status != Done then first
      else
        var rest := ApplyInOrder(first.port, events[1..], logControlFlow, replies[1..]);
        Applied(rest.port, first.log + rest.log, rest.status)
  }

  function AllData(events: seq<SerialData>): seq<byte>
  {
    if events == [] then [] else events[0].data + AllData(events[1..])
  }

  lemma ChunkWrittenWhole(port: Endpoint, d: SerialData, logControlFlow: bool, replies: PortReplies)
    requires Decide(d).Forward?
    requires HandleSerialData(port, d, logControlFlow, replies).status == Done
    ensures HandleSerialData(port, d, logControlFlow, replies).port.written == port.written + d.data
  {
    DataLoggedOnlyAfterWrite(port, d, logControlFlow, replies);
  }

  /** The first event of a sequence, applied: it stops the sequence, or the rest goes on from where it left the port. */
  lemma ApplyStep(port: Endpoint, events: seq<SerialData>, logControlFlow: bool, replies: seq<PortReplies>)
    requires |replies| == |events| && events != []
    ensures var first := HandleSerialData(port, events[0], logControlFlow, replies[0]);
      var all := ApplyInOrder(port, events, logControlFlow, replies);
      && (first.status != Done ==> all == first)
      && (first.status == Done ==>
            var rest := ApplyInOrder(first.port, events[1..], logControlFlow, replies[1..]);
            all.port == rest.port && all.status == rest.status)
  {
  }

  /**
   * Chunks applied one at a time reach the port whole and in order: when every
   * write completes, the port has taken the chunks' bytes concatenated.
   */
  lemma {:induction false} InOrderDeliveryKeepsBytes(port: Endpoint, events: seq<SerialData>, logControlFlow: bool, replies: seq<PortReplies>)
    requires |replies| == |events|
    requires forall i :: 0 <= i < |events| ==> Decide(events[i]).Forward?
    requires ApplyInOrder(port, events, logControlFlow, replies).status == Done
    ensures ApplyInOrder(port, events, logControlFlow, replies).port.written == port.written + AllData(events)
    decreases |events|
  {
    if events != [] {
      var first := HandleSerialData(port, events[0], logControlFlow, replies[0]);
      ApplyStep(port, events, logControlFlow, replies);
      assert Decide(events[0]).Forward?;
      ChunkWrittenWhole(port, events[0], logControlFlow, replies[0]);
      assert forall i :: 0 <= i < |events[1..]| ==> Decide(events[1..][i]).Forward? by {
        forall i | 0 <= i < |events[1..]| ensures Decide(events[1..][i]).Forward? {
          assert events[1..][i] == events[i + 1];
        }
      }
      InOrderDeliveryKeepsBytes(first.port, events[1..], logControlFlow, replies[1..]);
      assert port.written + events[0].data + AllData(events[1..]) == port.written + (events[0].data + AllData(events[1..]));
    }
  }
}
