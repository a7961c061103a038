/** The recording pipeline: lossy taps, a bounded queue, and the writer that ends with
    a verdict on the recording. */
module Recording {

  import opened Json
  import opened Utf8
  import opened Asciicast

  const QUEUE_CAPACITY := 1024
  const FLUSH_THRESHOLD_BYTES := 64 * 1024

  // ---- the writer ----

  /** Opening, the event loop, the final shutdown, an abort on an I/O error, and the end. */
  datatype Phase = Opening | Running | Closing | Aborting | Done(graceful: bool)

  datatype Writer = Writer(
    phase: Phase, entries: Entries, file: string, eventCount: nat, bytesWritten: nat, unflushedBytes: nat)

  /** What the writer meets: the outcome of opening the file and writing the header, a
      second without events, the end of the channel, or an item. */
  datatype Input =
    | Opened(fileOk: bool, headerOk: bool)
    | TimedOut(flushOk: bool)
    | Closed
    | Received(event: RecordingEvent, micros: nat, writeOk: bool, flushOk: bool)
    | ShutDown(ok: bool)

  const NEW_WRITER := Writer(Opening, [], "", 0, 0, 0)

  /** Bytes of a line with its line break. */
  function LineBytes(line: string): nat { |Encoded(line)| + 1 }

  function OnEvent(w: Writer, e: RecordingEvent, micros: nat, writeOk: bool, flushOk: bool): Writer
    requires !e.Stop?
  {
    var line := ToAsciicastLine(e, micros);
    if !writeOk then w.(phase := Aborting)
    else
      var unflushed := w.unflushedBytes + LineBytes(line);
      Writer(if unflushed >= FLUSH_THRESHOLD_BYTES && !flushOk then Aborting else Running,
             w.entries + [(e, micros)], w.file + (line + "\n"), w.eventCount + 1, w.bytesWritten + LineBytes(line),
             if unflushed >= FLUSH_THRESHOLD_BYTES && flushOk then 0 else unflushed)
  }

  function WriterNext(w: Writer, header: string, input: Input): Writer {
    match input
    case Opened(fileOk, headerOk) =>
      if !w.phase.Opening? then w
      else if !fileOk || !headerOk then w.(phase := Aborting)
      else Writer(Running, [], header + "\n", 0, LineBytes(header), 0)
    case TimedOut(flushOk) =>
      if !w.phase.Running? || w.unflushedBytes == 0 then w
      else if flushOk then w.(unflushedBytes := 0) else w.(phase := Aborting)
    case Closed => if w.phase.Running? then w.(phase := Closing) else w
    case Received(e, micros, writeOk, flushOk) =>
      if !w.phase.Running? then w
      else if e.Stop? then w.(phase := Closing)
      else OnEvent(w, e, micros, writeOk, flushOk)
    case ShutDown(ok) => if w.phase.Closing? then w.(phase := if ok then Done(true) else Aborting) else w
  }

  function WriterRun(w: Writer, header: string, inputs: seq<Input>): Writer
    decreases |inputs|
  {
    if inputs == [] then w else WriterRun(WriterNext(w, header, inputs[0]), header, inputs[1..])
  }

  function AllButLast(entries: Entries): Entries
    requires entries != []
  {
    entries[..|entries| - 1]
  }

  predicate Clean(entries: Entries)
    decreases |entries|
  {
    entries == [] || (!entries[|entries| - 1].0.Stop? && Clean(AllButLast(entries)))
  }

  /** Header and lines, each with its line break. */
  function FileText(header: string, entries: Entries): string
    requires Clean(entries)
    decreases |entries|
  {
    if entries == [] then header + "\n"
    else
      var (e, micros) := entries[|entries| - 1];
      FileText(header, AllButLast(entries)) + (ToAsciicastLine(e, micros) + "\n")
  }

  /** The file is the header and the lines written, the counters agree with it, and at
      the head of the loop less than the threshold is unflushed. */
  ghost predicate WriterOk(w: Writer, header: string) {
    && Clean(w.entries)
    && (w.phase.Opening? ==> w == NEW_WRITER)
    && (w.phase.Running? || w.phase.Closing? || w.phase == Done(true) ==>
         && w.file == FileText(header, w.entries)
         && w.eventCount == |w.entries|
         && w.bytesWritten == |Encoded(w.file)|
         && w.unflushedBytes < FLUSH_THRESHOLD_BYTES)
  }

  lemma {:induction false} TerminatedAppend(lines: seq<string>, line: string)
    ensures Terminated(lines + [line]) == Terminated(lines) + (line + "\n")
  {
    if lines == [] {
      assert lines + [line] == [line] && [line][1..] == [];
      assert "\n" + "" == "\n";
    } else {
      TerminatedAppend(lines[1..], line);
      assert (lines + [line])[1..] == lines[1..] + [line];
      Regroup("\n", Terminated(lines[1..]), line + "\n");
      Regroup(lines[0], "\n" + Terminated(lines[1..]), line + "\n");
    }
  }

  lemma EncodedLine(file: string, line: string)
    ensures |Encoded(file + (line + "\n"))| == |Encoded(file)| + LineBytes(line)
  {
    EncodedConcat(file, line + "\n");
    EncodedConcat(line, "\n");
    assert "\n"[1..] == "" && Encode('\n') == [10];
    assert Encoded("\n") == [10] + [];
  }

  lemma {:induction false} FileTextLines(header: string, entries: Entries)
    requires Clean(entries)
    ensures Recordable(entries) && FileText(header, entries) == Terminated([header] + LinesOf(entries))
    decreases |entries|
  {
    hide ToAsciicastLine;
    if entries == [] {
      assert [header] + LinesOf([]) == [header];
      TerminatedAppend([], header);
      assert [] + [header] == [header] && "" + (header + "\n") == header + "\n";
    } else {
      var (e, micros) := entries[|entries| - 1];
      FileTextLines(header, AllButLast(entries));
      TerminatedAppend([header] + LinesOf(AllButLast(entries)), ToAsciicastLine(e, micros));
      assert [header] + LinesOf(entries) == [header] + LinesOf(AllButLast(entries)) + [ToAsciicastLine(e, micros)];
    }
  }

  lemma FileGrows(header: string, entries: Entries, e: RecordingEvent, micros: nat)
    requires Clean(entries) && !e.Stop?
    ensures Clean(entries + [(e, micros)])
    ensures var line := ToAsciicastLine(e, micros);
            var file := FileText(header, entries + [(e, micros)]);
            file == FileText(header, entries) + (line + "\n")
            && |Encoded(file)| == |Encoded(FileText(header, entries))| + LineBytes(line)
  {
    assert AllButLast(entries + [(e, micros)]) == entries;
    EncodedLine(FileText(header, entries), ToAsciicastLine(e, micros));
  }

  lemma HeaderOnly(header: string)
    ensures FileText(header, []) == header + "\n" && |Encoded(header + "\n")| == LineBytes(header)
  {
    EncodedLine("", header);
    assert "" + (header + "\n") == header + "\n";
  }

  lemma WriterStepKeeps(w: Writer, header: string, input: Input)
    requires WriterOk(w, header)
    ensures WriterOk(WriterNext(w, header, input), header)
  {
    hide ToAsciicastLine;
    if input.Opened? {
      HeaderOnly(header);
    } else if input.Received? && w.phase.Running? && !input.event.Stop? {
      FileGrows(header, w.entries, input.event, input.micros);
    }
  }

  lemma {:induction false} WriterRunKeeps(w: Writer, header: string, inputs: seq<Input>)
    requires WriterOk(w, header)
    ensures WriterOk(WriterRun(w, header, inputs), header)
    decreases |inputs|
  {
    if inputs != [] {
      WriterStepKeeps(w, header, inputs[0]);
      WriterRunKeeps(WriterNext(w, header, inputs[0]), header, inputs[1..]);
    }
  }

  // ---- the writer described by what it meets ----

  /** The loop ends: the channel is closed or the stop signal arrives. */
  predicate Ends(input: Input) { input.Closed? || (input.Received? && input.event.Stop?) }

  /** Inputs before the one that ends the loop, or all. */
  function LoopLength(inputs: seq<Input>): (n: nat)
    ensures n <= |inputs|
    ensures n < |inputs| ==> Ends(inputs[n])
    ensures forall i :: 0 <= i < n ==> !Ends(inputs[i])
  {
    if inputs == [] || Ends(inputs[0]) then 0 else 1 + LoopLength(inputs[1..])
  }

  /** Size of the line of an event, with its line break. */
  function LineSize(e: RecordingEvent, micros: nat): nat
    requires !e.Stop?
  {
    |Encoded(ToAsciicastLine(e, micros) + "\n")|
  }

  /** Bytes written since the last flush: a flush comes with every second of silence and
      with the line that brings the sum to 64 KiB. */
  function Pending(inputs: seq<Input>): nat
    decreases |inputs|
  {
    if inputs == [] then 0
    else
      var before := Pending(inputs[..|inputs| - 1]);
      match inputs[|inputs| - 1]
      case TimedOut(_) => 0
      case Received(e, micros, _, _) =>
        if e.Stop? then before
        else if before + LineSize(e, micros) < 64 * 1024 then before + LineSize(e, micros) else 0
      case _ => before
  }

  /** The I/O that comes with an input fails: flushing what is pending, writing a line, or
      the flush that a line makes due. */
  predicate Fails(pending: nat, input: Input) {
    match input
    case TimedOut(flushOk) => pending > 0 && !flushOk
    case Received(e, micros, writeOk, flushOk) =>
      !e.Stop? && (!writeOk || (pending + LineSize(e, micros) >= 64 * 1024 && !flushOk))
    case _ => false
  }

  ghost predicate LoopFails(inputs: seq<Input>) {
    exists i :: 0 <= i < LoopLength(inputs) && Fails(Pending(inputs[..i]), inputs[i])
  }

  /** The events of a loop with their times. */
  function EventsIn(inputs: seq<Input>): (entries: Entries)
    ensures Clean(entries)
    decreases |inputs|
  {
    if inputs == [] then []
    else
      var before := EventsIn(inputs[..|inputs| - 1]);
      match inputs[|inputs| - 1]
      case Received(e, micros, _, _) => if e.Stop? then before else CleanSnoc(before, e, micros); before + [(e, micros)]
      case _ => before
  }

  lemma CleanSnoc(entries: Entries, e: RecordingEvent, micros: nat)
    requires Clean(entries) && !e.Stop?
    ensures Clean(entries + [(e, micros)])
  {
    assert AllButLast(entries + [(e, micros)]) == entries;
  }

  lemma SizeIsLineBytes(e: RecordingEvent, micros: nat)
    requires !e.Stop?
    ensures LineSize(e, micros) == LineBytes(ToAsciicastLine(e, micros))
  {
    var line := ToAsciicastLine(e, micros);
    EncodedLine("", line);
    assert "" + (line + "\n") == line + "\n";
  }

  predicate InLoop(inputs: seq<Input>) {
    forall i :: 0 <= i < |inputs| ==> inputs[i].TimedOut? || inputs[i].Closed? || inputs[i].Received?
  }

  /** The writer has gone through `inputs` and is still in its loop. */
  ghost predicate Abreast(w: Writer, inputs: seq<Input>) {
    w.phase.Running? && w.unflushedBytes == Pending(inputs) && w.entries == EventsIn(inputs)
  }

  lemma LoopStep(w: Writer, header: string, front: seq<Input>, input: Input)
    requires Abreast(w, front) && !Ends(input) && (input.TimedOut? || input.Received?)
    ensures var w' := WriterNext(w, header, input);
            if Fails(Pending(front), input) then w'.phase.Aborting? else Abreast(w', front + [input])
  {
    hide ToAsciicastLine;
    assert (front + [input])[..|front|] == front;
    if input.Received? {
      SizeIsLineBytes(input.event, input.micros);
    }
  }

  lemma {:induction false} WriterRunSnoc(w: Writer, header: string, inputs: seq<Input>, input: Input)
    ensures WriterRun(w, header, inputs + [input]) == WriterNext(WriterRun(w, header, inputs), header, input)
    decreases |inputs|
  {
    hide WriterNext;
    if inputs == [] {
      assert inputs + [input] == [input] && [input][1..] == [];
    } else {
      WriterRunSnoc(WriterNext(w, header, inputs[0]), header, inputs[1..], input);
      assert (inputs + [input])[1..] == inputs[1..] + [input];
    }
  }

  /** The first `k` inputs of the loop take the writer along, unless one of them fails. */
  lemma {:induction false} LoopRun(w: Writer, header: string, inputs: seq<Input>, k: nat)
    requires Abreast(w, []) && InLoop(inputs) && k <= LoopLength(inputs)
    ensures var w' := WriterRun(w, header, inputs[..k]);
            if exists i :: 0 <= i < k && Fails(Pending(inputs[..i]), inputs[i]) then w'.phase.Aborting?
            else Abreast(w', inputs[..k])
  {
    hide WriterNext, Fails, Pending, EventsIn;
    if k == 0 {
      assert inputs[..0] == [];
    } else {
      LoopRun(w, header, inputs, k - 1);
      assert inputs[..k] == inputs[..k - 1] + [inputs[k - 1]];
      WriterRunSnoc(w, header, inputs[..k - 1], inputs[k - 1]);
      var before := WriterRun(w, header, inputs[..k - 1]);
      if before.phase.Aborting? {
        AbortedStays(before, header, [inputs[k - 1]]);
        OneStep(before, header, inputs[k - 1]);
      } else {
        LoopStep(before, header, inputs[..k - 1], inputs[k - 1]);
      }
    }
  }

  lemma OneStep(w: Writer, header: string, input: Input)
    ensures WriterRun(w, header, [input]) == WriterNext(w, header, input)
  {
    assert [input][1..] == [];
  }

  lemma {:induction false} WriterRunConcat(w: Writer, header: string, a: seq<Input>, b: seq<Input>)
    ensures WriterRun(w, header, a + b) == WriterRun(WriterRun(w, header, a), header, b)
    decreases |a|
  {
    hide WriterNext;
    if a == [] {
      assert a + b == b;
    } else {
      assert (a + b)[1..] == a[1..] + b;
      WriterRunConcat(WriterNext(w, header, a[0]), header, a[1..], b);
    }
  }

  /** Some I/O fails on the way: opening, in the loop, or closing. */
  ghost predicate SomeIoFails(start: Input, inputs: seq<Input>, shutdownOk: bool)
    requires start.Opened?
  {
    !start.fileOk || !start.headerOk || LoopFails(inputs) || (LoopLength(inputs) < |inputs| && !shutdownOk)
  }

  /** The writer aborts exactly if some I/O fails, and otherwise is through exactly if its
      loop was ended; then it has written exactly the events of the loop. */
  lemma WriterEnds(header: string, start: Input, inputs: seq<Input>, shutdownOk: bool)
    requires start.Opened? && InLoop(inputs)
    ensures var w := WriterRun(NEW_WRITER, header, [start] + inputs + [ShutDown(shutdownOk)]);
            && (w.phase.Aborting? <==> SomeIoFails(start, inputs, shutdownOk))
            && (w.phase == Done(true) <==>
                 !SomeIoFails(start, inputs, shutdownOk) && LoopLength(inputs) < |inputs|)
            && (!w.phase.Aborting? ==> w.entries == EventsIn(inputs[..LoopLength(inputs)]))
  {
    var w := WriterNext(NEW_WRITER, header, start);
    var more := inputs + [ShutDown(shutdownOk)];
    assert [start] + inputs + [ShutDown(shutdownOk)] == [start] + more;
    OneStep(NEW_WRITER, header, start);
    WriterRunConcat(NEW_WRITER, header, [start], more);
    if !start.fileOk || !start.headerOk {
      AbortedStays(w, header, more);
    } else {
      OpenedWriterEnds(w, header, inputs, shutdownOk);
    }
  }

  lemma OpenedWriterEnds(w: Writer, header: string, inputs: seq<Input>, shutdownOk: bool)
    requires Abreast(w, []) && InLoop(inputs)
    ensures var w' := WriterRun(w, header, inputs + [ShutDown(shutdownOk)]);
            var n := LoopLength(inputs);
            && (w'.phase.Aborting? <==> LoopFails(inputs) || (n < |inputs| && !shutdownOk))
            && (w'.phase == Done(true) <==> !LoopFails(inputs) && n < |inputs| && shutdownOk)
            && (!w'.phase.Aborting? ==> w'.entries == EventsIn(inputs[..n]))
  {
    hide Pending, EventsIn, Fails;
    var n := LoopLength(inputs);
    var rest := inputs[n..] + [ShutDown(shutdownOk)];
    assert inputs + [ShutDown(shutdownOk)] == inputs[..n] + rest;
    WriterRunConcat(w, header, inputs[..n], rest);
    LoopRun(w, header, inputs, n);
    var v := WriterRun(w, header, inputs[..n]);
    if LoopFails(inputs) {
      AbortedStays(v, header, rest);
    } else if n == |inputs| {
      assert rest == [ShutDown(shutdownOk)];
      OneStep(v, header, ShutDown(shutdownOk));
    } else {
      assert rest == [inputs[n]] + (inputs[n + 1..] + [ShutDown(shutdownOk)]);
      WriterRunConcat(v, header, [inputs[n]], inputs[n + 1..] + [ShutDown(shutdownOk)]);
      OneStep(v, header, inputs[n]);
      ClosingIgnores(WriterNext(v, header, inputs[n]), header, inputs[n + 1..], shutdownOk);
    }
  }

  datatype Ended = StillRunning | Aborted | Finished

  /** The writer over a script of what it meets. */
  method RunWriter(header: string, start: Input, inputs: seq<Input>, shutdownOk: bool)
    returns (ended: Ended, file: string, eventCount: nat, bytesWritten: nat)
    requires start.Opened? && InLoop(inputs)
    ensures ended.Aborted? <==> SomeIoFails(start, inputs, shutdownOk)
    ensures ended.Finished? ==> LoopLength(inputs) < |inputs|
    ensures ended.StillRunning? ==> LoopLength(inputs) == |inputs|
    ensures var entries := EventsIn(inputs[..LoopLength(inputs)]);
            !ended.Aborted? ==>
              file == FileText(header, entries) && eventCount == |entries| && bytesWritten == |Encoded(file)|
    ensures var w := WriterRun(NEW_WRITER, header, [start] + inputs + [ShutDown(shutdownOk)]);
            && (ended.Aborted? <==> w.phase.Aborting?)
            && (ended.Finished? <==> w.phase == Done(true))
            && (!ended.Aborted? ==> file == w.file && eventCount == w.eventCount && bytesWritten == w.bytesWritten)
  {
    hide ToAsciicastLine;
    ghost var script := [start] + inputs + [ShutDown(shutdownOk)];
    ended, file, eventCount, bytesWritten := Aborted, "", 0, 0;
    WriterEnds(header, start, inputs, shutdownOk);
    WriterRunKeeps(NEW_WRITER, header, script);
    ghost var w := WriterNext(NEW_WRITER, header, start);
    assert script[1..] == inputs + [ShutDown(shutdownOk)];
    if !start.fileOk || !start.headerOk {
      AbortedStays(w, header, script[1..]);
      return;
    }
    file := header + "\n";
    bytesWritten := LineBytes(header);
    var unflushedBytes: nat := 0;
    var i := 0;
    var stopped := false;
    assert inputs[0..] == inputs;
    while i < |inputs| && !stopped
      invariant 0 <= i <= |inputs|
      invariant w == Writer(if stopped then Closing else Running, w.entries, file, eventCount,
                            bytesWritten, unflushedBytes)
      invariant WriterRun(NEW_WRITER, header, script) == WriterRun(w, header, inputs[i..] + [ShutDown(shutdownOk)])
    {
      var input := inputs[i];
      ghost var rest := inputs[i + 1..] + [ShutDown(shutdownOk)];
      assert inputs[i..] + [ShutDown(shutdownOk)] == [input] + rest;
      w := WriterNext(w, header, input);
      i := i + 1;
      match input {
        case TimedOut(flushOk) =>
          if unflushedBytes > 0 {
            if !flushOk {
              AbortedStays(w, header, rest);
              return;
            }
            unflushedBytes := 0;
          }
        case Received(event, micros, writeOk, flushOk) =>
          if event.Stop? {
            stopped := true;
          } else {
            var line := ToAsciicastLine(event, micros);
            if !writeOk {
              AbortedStays(w, header, rest);
              return;
            }
            file := file + (line + "\n");
            eventCount := eventCount + 1;
            bytesWritten := bytesWritten + LineBytes(line);
            unflushedBytes := unflushedBytes + LineBytes(line);
            if unflushedBytes >= FLUSH_THRESHOLD_BYTES {
              if !flushOk {
                AbortedStays(w, header, rest);
                return;
              }
              unflushedBytes := 0;
            }
          }
        case _ => stopped := true;
      }
    }
    if !stopped {
      assert inputs[i..] + [ShutDown(shutdownOk)] == [ShutDown(shutdownOk)];
      ended := StillRunning;
    } else {
      ClosingIgnores(w, header, inputs[i..], shutdownOk);
      ended := if shutdownOk then Finished else Aborted;
    }
  }

  lemma {:induction false} AbortedStays(w: Writer, header: string, inputs: seq<Input>)
    requires w.phase.Aborting?
    ensures WriterRun(w, header, inputs) == w
    decreases |inputs|
  {
    if inputs != [] {
      AbortedStays(w, header, inputs[1..]);
    }
  }

  lemma {:induction false} ClosingIgnores(w: Writer, header: string, inputs: seq<Input>, ok: bool)
    requires w.phase.Closing? && InLoop(inputs)
    ensures WriterRun(w, header, inputs + [ShutDown(ok)]) == w.(phase := if ok then Done(true) else Aborting)
    decreases |inputs|
  {
    if inputs == [] {
      assert inputs + [ShutDown(ok)] == [ShutDown(ok)];
    } else {
      ClosingIgnores(w, header, inputs[1..], ok);
      assert (inputs + [ShutDown(ok)])[1..] == inputs[1..] + [ShutDown(ok)];
    }
  }
}
