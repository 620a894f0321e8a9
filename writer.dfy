/**
 * Writing a chunk of bytes to a port: the port may take fewer bytes than offered,
 * so the loop offers the unwritten rest again until every byte is taken or a
 * write fails. The port's answers are given as a script of replies, one per call.
 */
module PortWriter {
  import opened SerialTypes

  /**
   * What one Write call returns: the count of bytes the port took, or an error.
   * A call that returns a count together with an error is the error: the loop
   * ignores the count then.
   */
  datatype WriteReply = Wrote(n: nat) | WriteFailed(reason: string)

  /**
   * Completed: every byte was taken. Failed: a Write returned an error.
   * Stalled: the script of replies ran out before the data did, where the
   * port would keep the loop waiting or spinning.
   */
  datatype WriteOutcome = Completed | Failed(reason: string) | Stalled

  /** A write loop's outcome, the argument of each Write call, and the bytes each call took. */
  datatype WriteTrace = WriteTrace(outcome: WriteOutcome, calls: seq<seq<byte>>, taken: seq<seq<byte>>)

  function Min(a: int, b: int): int
  {
    if a <= b then a else b
  }

  /** The write loop, `written` bytes into `data`, answered by `replies` in order. */
  function WriteFrom(data: seq<byte>, written: nat, replies: seq<WriteReply>): WriteTrace
    decreases |replies|
  {
    if written >= |data| then WriteTrace(Completed, [], [])
    else if replies == [] then WriteTrace(Stalled, [], [])
    else
      var call := data[written..];
      match replies[0]
      case WriteFailed(reason) => WriteTrace(Failed(reason), [call], [])
      case Wrote(n) =>
        var rest := WriteFrom(data, written + n, replies[1..]);
        WriteTrace(rest.outcome, [call] + rest.calls, [call[..Min(n, |call|)]] + rest.taken)
  }

  /** The trace `t` of a later part of a loop, after the calls already made. */
  function After(calls: seq<seq<byte>>, taken: seq<seq<byte>>, t: WriteTrace): WriteTrace
  {
    WriteTrace(t.outcome, calls + t.calls, taken + t.taken)
  }

  lemma AfterAfter(calls: seq<seq<byte>>, taken: seq<seq<byte>>, calls2: seq<seq<byte>>, taken2: seq<seq<byte>>, t: WriteTrace)
    ensures After(calls, taken, After(calls2, taken2, t)) == After(calls + calls2, taken + taken2, t)
  {
    assert calls + (calls2 + t.calls) == calls + calls2 + t.calls;
    assert taken + (taken2 + t.taken) == taken + taken2 + t.taken;
  }

  /** One call of the loop, unfolded. */
  lemma WriteStep(data: seq<byte>, written: nat, replies: seq<WriteReply>)
    requires written < |data| && replies != []
    ensures var call := data[written..];
      WriteFrom(data, written, replies) ==
        match replies[0]
        case WriteFailed(reason) => WriteTrace(Failed(reason), [call], [])
        case Wrote(n) => After([call], [call[..Min(n, |call|)]], WriteFrom(data, written + n, replies[1..]))
  {
  }

  /** The write loop over a whole chunk, as WriteFrom describes it from offset 0. */
  method WriteBytes(data: seq<byte>, replies: seq<WriteReply>)
    returns (outcome: WriteOutcome, calls: seq<seq<byte>>, taken: seq<seq<byte>>)
    ensures WriteTrace(outcome, calls, taken) == WriteFrom(data, 0, replies)
  {
    var bytesWritten: nat := 0;
    var k := 0;
    calls, taken := [], [];
    while bytesWritten < |data|
      invariant 0 <= k <= |replies|
      invariant WriteFrom(data, 0, replies) == After(calls, taken, WriteFrom(data, bytesWritten, replies[k..]))
      decreases |replies| - k
    {
      if k == |replies| {
        outcome := Stalled;
        return;
      }
      var call := data[bytesWritten..];
      assert replies[k..][1..] == replies[k + 1..];
      WriteStep(data, bytesWritten, replies[k..]);
      match replies[k]
      case WriteFailed(reason) =>
        assert taken + [] == taken;
        calls := calls + [call];
        outcome := Failed(reason);
        return;
      case Wrote(n) =>
        AfterAfter(calls, taken, [call], [call[..Min(n, |call|)]], WriteFrom(data, bytesWritten + n, replies[k + 1..]));
        calls := calls + [call];
        taken := taken + [call[..Min(n, |call|)]];
        bytesWritten := bytesWritten + n;
        k := k + 1;
    }
    outcome := Completed;
  }

  // ---------------------------------------------------------------------------
  // What the loop guarantees
  // ---------------------------------------------------------------------------

  /** The bytes the successful replies of a script report as taken. */
  function Accepted(replies: seq<WriteReply>): nat
  {
    if replies == [] then 0
    else (if replies[0].Wrote? then replies[0].n else 0) + Accepted(replies[1..])
  }

  function Flatten(chunks: seq<seq<byte>>): seq<byte>
  {
    if chunks == [] then [] else chunks[0] + Flatten(chunks[1..])
  }

  /**
   * Each Write call is offered exactly the bytes not yet taken: the j-th call gets
   * the data after what the first j replies took, and is never empty. Every call
   * but the last got a count back, and there is at most one call per reply.
   */
  lemma {:induction false} CallsOfferTheRest(data: seq<byte>, written: nat, replies: seq<WriteReply>)
    ensures var t := WriteFrom(data, written, replies);
      && |t.calls| <= |replies|
      && (forall j :: 0 <= j < |t.calls| ==>
            written + Accepted(replies[..j]) < |data| && t.calls[j] == data[written + Accepted(replies[..j])..])
      && (forall j :: 0 <= j < |t.calls| - 1 ==> replies[j].Wrote?)
    decreases |replies|
  {
    var t := WriteFrom(data, written, replies);
    if written < |data| && replies != [] && replies[0].Wrote? {
      var n := replies[0].n;
      CallsOfferTheRest(data, written + n, replies[1..]);
      var rest := WriteFrom(data, written + n, replies[1..]);
      assert t.calls == [data[written..]] + rest.calls;
      forall j | 0 <= j < |t.calls|
        ensures written + Accepted(replies[..j]) < |data| && t.calls[j] == data[written + Accepted(replies[..j])..]
      {
        if j > 0 {
          assert replies[..j][1..] == replies[1..][..j - 1];
          assert Accepted(replies[..j]) == n + Accepted(replies[1..][..j - 1]);
        }
      }
    }
  }

  /** The loop reports success only when the bytes taken, in call order, are the data. */
  lemma {:induction false} CompletedTakesAll(data: seq<byte>, written: nat, replies: seq<WriteReply>)
    requires written <= |data|
    requires WriteFrom(data, written, replies).outcome == Completed
    ensures Flatten(WriteFrom(data, written, replies).taken) == data[written..]
    decreases |replies|
  {
    if written < |data| {
      var n := replies[0].n;
      var call := data[written..];
      var rest := WriteFrom(data, written + n, replies[1..]);
      if written + n >= |data| {
        assert rest.taken == [];
        assert call[..Min(n, |call|)] == call;
      } else {
        CompletedTakesAll(data, written + n, replies[1..]);
        assert call[..n] + data[written + n..] == data[written..];
      }
    }
  }

  /** A failing write ends the loop at once: its error is the outcome, and no call follows it. */
  lemma {:induction false} FailureStopsAtFirstError(data: seq<byte>, written: nat, replies: seq<WriteReply>)
    requires WriteFrom(data, written, replies).outcome.Failed?
    ensures var t := WriteFrom(data, written, replies);
      && 1 <= |t.calls| <= |replies|
      && replies[|t.calls| - 1] == WriteFailed(t.outcome.reason)
      && forall j :: 0 <= j < |t.calls| - 1 ==> replies[j].Wrote?
    decreases |replies|
  {
    if replies[0].Wrote? {
      FailureStopsAtFirstError(data, written + replies[0].n, replies[1..]);
    }
  }

  /** An empty chunk makes no Write call at all. */
  lemma EmptyDataMakesNoCall(replies: seq<WriteReply>)
    ensures WriteFrom([], 0, replies) == WriteTrace(Completed, [], [])
  {
  }

  /**
   * Progress: when every call takes at least one byte, a script with one reply
   * per byte completes. (A port that keeps taking nothing would keep the loop
   * running for ever.)
   */
  lemma {:induction false} ProgressCompletes(data: seq<byte>, written: nat, replies: seq<WriteReply>)
    requires forall j :: 0 <= j < |replies| ==> replies[j].Wrote? && replies[j].n >= 1
    requires |data| <= written + |replies|
    ensures WriteFrom(data, written, replies).outcome == Completed
    decreases |replies|
  {
    if written < |data| {
      ProgressCompletes(data, written + replies[0].n, replies[1..]);
    }
  }
}
