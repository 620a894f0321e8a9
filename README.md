# serial-proxy, modelled in Dafny

serial-proxy joins two serial ports. For each port:

- a monitor samples the CTS and DSR input lines and reports every change of level;
- a reader forwards every chunk of bytes it reads.

The main loop hands each event to the *other* port. There, an applier does one of three things:

- a CTS change sets RTS;
- a DSR change sets DTR;
- a chunk is written out, with the unwritten rest offered again until every byte is taken.

A port definition such as `COM5,19200,N,8,1` is parsed into the settings the port is opened with.

The model covers the sequential logic of `serial.go`, one module per piece:

| module | file | models |
|---|---|---|
| `SerialTypes` | types.dfy | the `SerialData` event, the modem status bits, `Option`/`Result` |
| `PortOptions` | options.dfy | `ParseSerialOptions`: the anchored pattern as a predicate over its five capture groups, `FindStringSubmatch`, `strconv.Atoi`, the two switches |
| `ControlLines` | control.dfy | `GetControlStatus`: the two tri-state statuses as a class updated by `Poll`, and the polling loop as a method over a script of samples |
| `PortWriter` | writer.dfy | `WriteBytes`: the partial-write loop as a method over a script of `Write` replies |
| `EventApplier` | applier.dfy | `HandleSerialData`: the three-way dispatch, its error messages and its logging |
| `EventRouter` | router.dfy | the routing in `MainLoop`: left to right, right to left, stop at the first fatal cause |

Four things the model has to settle about the source:

- **The pattern** `^(.*?),(\d{3,7}),([neomsNEOMS]),([5678]),(1|1.5|2)$` follows Go's regexp rules:
  - `.` matches anything but a newline;
  - `\d` is an ASCII digit;
  - `$` is the end of the text.

  A match splits the text in exactly one way (`MatchUnique`), so the laziness of `(.*?)` never changes the groups.
- **The `.` in `1.5` is unescaped**, so a stop-bits group such as `1x5` passes the pattern. The stop-bits switch then rejects it.
- **The port's answers are inputs**, one kind per call:
  - `GetModemStatusBits`: the monitor is given the samples it takes before it is cancelled. It stops cleanly when they run out, or with an error at the first failed sample.
  - `Write`: the write loop is given a script of replies, each a count or an error. A script that runs out before the data does ends with `Stalled`, standing for a port that keeps the loop waiting.
  - `SetRTS` and `SetDTR`: each call is answered by one optional error.
- **The first clear sample.** Both statuses are seeded with -1, so the first sample of each line is reported, clear or set (`FirstPollReportsBoth`).

## Model

| member | source | states |
|---|---|---|
| `SerialTypes.DataEvent` | serial.go:147 | a reader's event leaves both control fields at -1 and carries the bytes read |
| `SerialTypes.BoolText` | serial.go:74 | `%v` of a bool reads "true" exactly when the bool is true |
| `PortOptions.DigitRun` | serial.go:236 | the leading digit run of a text: all digits, and the next character (if any) is not a digit |
| `PortOptions.MatchAtSound` | serial.go:236-237 | a candidate split found at a port length is a match of the pattern with that port group |
| `PortOptions.MatchAtComplete` | serial.go:236-237 | every match of the pattern is found by trying the split at its port length |
| `PortOptions.MatchUnique` | serial.go:236 | two matches of one text have the same five groups, so the lazy port group is the only one |
| `PortOptions.FindFrom` | serial.go:236-237 | trying port lengths from `i` upward finds a match whose port group is at least `i` long, or shows there is none |
| `PortOptions.FindSubmatch` | serial.go:236-240 | `FindStringSubmatch` returns groups `g` exactly when the text matches with groups `g`; otherwise it returns no match |
| `PortOptions.Atoi` | serial.go:243 | a successful conversion lies in the int64 range, and the text starts with a digit or a sign |
| `PortOptions.AtoiOfDigits` | serial.go:243-246 | one to seven ASCII digits always convert, to their decimal value, so neither inner-error branch (baud rate or data bits) is reachable |
| `PortOptions.InnerError` | serial.go:245 | the inner-error message starts with the definition error and the whole definition |
| `PortOptions.ParityOf` | serial.go:248-261 | the parity switch accepts exactly the one-letter groups n, o, e, m, s, each the letter of the parity it selects |
| `PortOptions.StopBitsOf` | serial.go:268-277 | the stop-bits switch accepts exactly "1", "1.5" and "2", each the text of the stop bits it selects |
| `PortOptions.ParityOfLetter` | serial.go:248-261 | each of n, o, e, m, s selects its parity in either case |
| `PortOptions.StopBitsIgnoreCase` | serial.go:268-277 | lower-casing a stop-bits group the pattern accepted never changes which literal it is |
| `PortOptions.ParseSerialOptions` | serial.go:232-280 | a failure's message starts with the definition error and the definition; a success comes from a match of the pattern and keeps its port group |
| `PortOptions.ParseOfMatch` | serial.go:242-279 | for a matching definition: the port group, the decimal baud rate, the letter's parity, the data-bits digit and the stop bits; or the plain definition error when the stop-bits group matched only through the wildcard |
| `PortOptions.ParseOfMismatch` | serial.go:237-240 | a definition the pattern rejects gives the plain definition error |
| `PortOptions.ParseAcceptance` | serial.go:236-277 | parsing succeeds exactly when the pattern matches with a stop-bits group of "1", "1.5" or "2" |
| `PortOptions.ParseErrorNamesInput` | serial.go:237-277 | every failure is exactly the definition error followed by the definition |
| `PortOptions.ParseBounds` | serial.go:236-266 | a parsed baud rate lies in 0..9999999, and data bits are 5, 6, 7 or 8 |
| `PortOptions.ParseFormatRoundTrip` | serial.go:232-280 | every configuration a definition can express (any port without a newline, baud 0..9999999 written with at least three digits, data bits 5..8) parses back from its written-out definition |
| `PortOptions.ParseAcceptsTypicalDefinition` | serial.go:232-280 | `COM5,19200,N,8,1` parses to COM5, 19200 baud, no parity, 8 data bits, one stop bit |
| `PortOptions.ParseRejectsUnknownParity` | serial.go:236-240 | `COM5,19200,X,8,1` fails with the plain definition error |
| `PortOptions.ParseRejectsWildcardStopBits` | serial.go:268-277 | `COM1,9600,n,8,1x5` matches the pattern but fails with the plain definition error |
| `ControlLines.StatusTracker.constructor` | serial.go:100-101 | both statuses start unknown (-1) |
| `ControlLines.StatusTracker.Poll` | serial.go:109-123 | after a poll each status is the sampled level; the events are an event per line whose level differs from its old status, CTS first |
| `ControlLines.GetControlStatus` | serial.go:100-123 | the loop reports what `Run` gives from unknown statuses over the samples, and stops with "error getting status bits: " and the reason at the first failed sample |
| `ControlLines.FirstPollReportsBoth` | serial.go:100-123 | the first poll reports CTS and then DSR at their sampled levels, clear or set |
| `ControlLines.PollEventsWellFormed` | serial.go:109-123 | a poll emits at most two events; each names exactly one line with level 0 or 1 and carries no bytes; CTS comes before DSR |
| `ControlLines.RunEventsWellFormed` | serial.go:102-123 | every event of a whole run is a well-formed control-line event |
| `ControlLines.RunReportsTransitions` | serial.go:102-123 | the levels reported for a line are exactly the changes in its sampled levels, the first compared with the starting status: none lost, none repeated |
| `ControlLines.TransitionsAlternate` | serial.go:109-123 | reported levels never repeat: each differs from the one before it, the first from the starting status |
| `ControlLines.SteadySamplesAreSilent` | serial.go:109-123 | once a sample is repeated, the run reports nothing and no error |
| `PortWriter.WriteBytes` | serial.go:159-173 | the loop's outcome, the argument of each `Write` call and the bytes each call took are those of `WriteFrom` from offset 0 |
| `PortWriter.CallsOfferTheRest` | serial.go:164-169 | the j-th call is offered the non-empty rest of the data after what the first j replies took; every call but the last got a count; at most one call per reply |
| `PortWriter.CompletedTakesAll` | serial.go:163-172 | the loop completes only when the bytes taken, concatenated in call order, are the data |
| `PortWriter.FailureStopsAtFirstError` | serial.go:165-168 | a failure is the first error reply, and no call follows it |
| `PortWriter.EmptyDataMakesNoCall` | serial.go:163-172 | empty data completes with no `Write` call |
| `PortWriter.ProgressCompletes` | serial.go:164-170 | when each reply takes at least one byte and there are enough replies, the loop completes |
| `EventApplier.Decide` | serial.go:70-84 | CTSset other than -1 sets RTS to CTSset > 0; otherwise DSRset other than -1 sets DTR to DSRset > 0; otherwise the data is written, exactly when both fields are -1 |
| `EventApplier.LineError` | serial.go:74-81 | a failed line-set message contains the destination's label |
| `EventApplier.WriteError` | serial.go:88 | a failed write message contains the destination's label |
| `EventApplier.HandleSerialData` | serial.go:69-94 | applying an event keeps the port's label and direction, and only appends to its calls and to the bytes it took |
| `EventApplier.ControlEventMakesOneCall` | serial.go:70-83 | an event with CTSset other than -1 makes exactly one call, SetRts(CTSset > 0); otherwise one with DSRset other than -1 makes exactly one call, SetDtr(DSRset > 0) |
| `EventApplier.ChunkMakesOnlyWrites` | serial.go:84-86 | a chunk makes only Write calls, at most one per reply; the first gets the whole chunk, each a non-empty tail; an empty chunk makes none |
| `EventApplier.FailureNamesDestination` | serial.go:70-90 | every fatal status names the destination's label |
| `EventApplier.DataLoggedOnlyAfterWrite` | serial.go:86-92 | a chunk is logged exactly when its write completes, and then the port took exactly the chunk; the status is Done exactly then |
| `EventApplier.ControlChangeLoggedEvenOnFailure` | serial.go:70-83 | a line change is logged (line, level, direction) whether or not setting it fails, only when control-flow logging is on; Done exactly when the line set succeeded |
| `EventApplier.MonitorEventsAreMirrored` | serial.go:70-83 | each event a poll emits sets RTS to the sampled CTS level or DTR to the sampled DSR level |
| `EventApplier.ReadChunksAreForwarded` | serial.go:84-86 | a reader's chunk is dispatched to a write of exactly its bytes |
| `EventApplier.InOrderDeliveryKeepsBytes` | serial.go:84-92 | chunks applied one at a time, every write completing, leave the port having taken the chunks' bytes concatenated in order |
| `EventRouter.MainLoop` | serial.go:55-66 | every event before the first fatal cause goes to the port opposite its source, in receipt order; the loop returns that cause |
| `EventRouter.RoutingKeepsSourceOrder` | serial.go:57-61 | the events handed to the port opposite a side are exactly that side's events, in order |
| `EventRouter.NothingReturnsToItsSource` | serial.go:57-61 | when only one side sends, nothing is handed to that side |

## Left out

- Concurrency is not modelled: goroutines, channels, `select`, the `sync.WaitGroup` and `context` cancellation (serial.go:39-54, 96-98, 125-131, 160-161). `MainLoop` is modelled over the sequence of receipts its `select` yields. Its result `None` means the receipts ran out while the loop was still waiting.
- The appliers run concurrently in the source, so two chunks for one port may be written out of order. `InOrderDeliveryKeepsBytes` holds only when they run one at a time. The interleaving of concurrent appliers is not modelled.
- Time is not modelled: the 10 ms polling pause, `time.Sleep(delay)` in `HandleSerialData` (delay is 0 at both call sites), and the port's read timeout.
- The `ReadBytes` loop (serial.go:134-157) is not modelled. Only the event it emits for a read is (`SerialTypes.DataEvent`); its read error and its buffer size are left out.
- `SerialTypes.DataEvent`: the event's bytes are an immutable value. The source sends `buf[:n]` (serial.go:147), a slice of the reader's buffer, without copying it. The reader reuses that buffer on its next `ser.Read(buf)` (serial.go:140). So a later read can overwrite a chunk while its applier is still writing it (serial.go:165) or logging it (serial.go:92). The model does not capture this aliasing. `ReadChunksAreForwarded`, `DataLoggedOnlyAfterWrite` and `InOrderDeliveryKeepsBytes` hold only for a chunk that is not overwritten before its applier finishes.
- The go-serial library is not part of this model. Its calls are inputs:
  - `GetModemStatusBits` (serial.go:103): the samples taken before cancellation.
  - `Write` (serial.go:165): a script of replies.
  - `SetRTS` and `SetDTR` (serial.go:175-181): one optional error per call.

  `OpenSerialPort` (serial.go:217-230) is left out.
- `GetUserInput` (serial.go:183-186) is left out: it reads stdin.
- `LogData` (serial.go:188-200) is left out because its `hex.Dump` text is not part of this model. It is modelled as a `DataDump` log entry.
- `LogControlFlow` (serial.go:202-215) is modelled as a `ControlFlow` entry that exists only when the logging flag is on. Its "set"/"clear" text is not modelled.
- main.go is not part of this model. It holds flag handling, log-file setup, opening the ports and shutdown.
- `PortOptions.ParseSerialOptions`: on an error the source also returns a partly filled options record; the model returns only the error.
- `PortOptions.NumErrorText`: Go quotes the field with `strconv.Quote`; the model splices it in as it is. The two differ only on characters that need escaping, and no inner error is reachable anyway.
- `PortOptions.ToLower` lower-cases ASCII letters only. The groups it is applied to hold only ASCII letters, digits and the wildcard character, and the wildcard is never compared with a letter.
- `PortWriter.WriteBytes`: the port's replies are a finite script. When the script runs out before the data does, the outcome is `Stalled`, where the source would go on calling `Write`. A reply of 0 bytes makes no progress, as in the source.
- `PortWriter.WriteBytes`: a `Write` that returns a count together with an error is treated as the error, as the source does. A count larger than what was offered advances the offset as in the source, but only the offered bytes are recorded as taken.
