/** Properties of OutputToInputStream that span several calls: the writer's
    outcome is reported at most once over any sequence of calls; bytes reach
    the reader in the order the writer wrote them, over any sequence of calls
    and any interleaving of the two threads; draining a stream yields exactly
    the written bytes, whatever the chunk size, or the writer's failure; and
    the scenarios the stream's unit tests exercise. */
module OutputToInputProps {
  import opened JavaIO
  import Channel
  import opened WriterTask
  import opened OutputToInput

  /** One call on the stream: a reader call, or a writer step between reader calls. */
  datatype Call =
    | ReadCall(i: Interleaving)
    | ReadIntoCall(length: int, off: int, len: int, i: Interleaving)
    | CloseCall
    | WriterCall(step: Step)

  predicate CanPerform(s: State, c: Call) {
    match c
    case ReadCall(i) => ReadCanFinish(s, i)
    case ReadIntoCall(length, off, len, i) => ReadIntoCanFinish(s, length, off, len, i)
    case CloseCall => Inv(s)
    case WriterCall(step) => Inv(s) && Active(s) && Enabled(s.pipe.value, s.writer.value, step)
  }

  /** The state after call `c`, and whether `c` raised the writer's failure
      to the reader. Only the call that first looks at the outcome can. */
  function Perform(s: State, c: Call): (r: (State, bool))
    requires CanPerform(s, c)
    ensures Inv(r.0)
    ensures s.resultChecked ==> r.0.resultChecked
    ensures r.1 ==> !s.resultChecked && r.0.resultChecked
    ensures ReaderOpen(r.0) ==> ReaderOpen(s)
  {
    match c
    case ReadCall(i) =>
      var (s1, res) := ReadStep(s, i); (s1, RaisesWriterFailure(res))
    case ReadIntoCall(length, off, len, i) =>
      var (s1, res, _) := ReadIntoStep(s, length, off, len, i); (s1, RaisesWriterFailure(res))
    case CloseCall =>
      var (s1, res) := CloseStep(s); (s1, RaisesWriterFailure(res))
    case WriterCall(step) =>
      (WriterAct(s, step).0, false)
  }

  /** The reader's end of the pipe is not closed (or there is no pipe yet). */
  predicate ReaderOpen(s: State) {
    !Active(s) || !s.pipe.value.consumerClosed
  }

  predicate CanPerformAll(s: State, calls: seq<Call>)
    decreases |calls|
  {
    calls == [] || (CanPerform(s, calls[0]) && CanPerformAll(Perform(s, calls[0]).0, calls[1..]))
  }

  /** How many of `calls` raise the writer's failure to the reader. */
  function Reports(s: State, calls: seq<Call>): nat
    requires CanPerformAll(s, calls)
    decreases |calls|
  {
    if calls == [] then 0
    else
      var (s1, raised) := Perform(s, calls[0]);
      (if raised then 1 else 0) + Reports(s1, calls[1..])
  }

  /** No double report: over any sequence of reads, closes and writer steps,
      the writer's failure is raised at most once, and never once its outcome
      has been looked at. */
  lemma {:induction false} ReportedAtMostOnce(s: State, calls: seq<Call>)
    requires CanPerformAll(s, calls)
    ensures Reports(s, calls) <= if s.resultChecked then 0 else 1
    decreases |calls|
  {
    if calls != [] {
      var (s1, raised) := Perform(s, calls[0]);
      ReportedAtMostOnce(s1, calls[1..]);
    }
  }

  /** The writer task as a read sees it: the submitted one, or, before the
      first read, the one the read is about to submit. */
  function WriterOf(s: State): Task {
    if s.writer.Some? then s.writer.value else Running
  }

  /** The byte the pipe read of read() takes, whether or not the check after
      it then raises; none at end of data or on an error. */
  function ReadTaken(s: State, i: Interleaving): seq<byte>
    requires ReadCanFinish(s, i)
  {
    if !Starts(s) then []
    else
      var (_, read) := Channel.Read(Arrived(s, i.whileReading).pipe.value);
      if read.Ok? && read.value >= 0 then [read.value as byte] else []
  }

  /** What follows the pipe read, as one run of writer steps: the steps
      before the check and those while it waits push their bytes behind the
      buffered ones, and the writer ends as they say. */
  lemma AfterReadFifo(s: State, read: int, beforeCheck: seq<Step>, whileChecking: seq<Step>)
    requires Inv(s) && Active(s) && WriterCanTake(s, beforeCheck)
    requires CheckCanFinish(TakeSteps(s, beforeCheck), read, whileChecking)
    ensures var s1 := CheckStep(TakeSteps(s, beforeCheck), read, whileChecking).0;
            && s1.pipe.value.buffer == s.pipe.value.buffer + Pushed(s, beforeCheck + whileChecking)
            && Accepting(s1) == (Accepting(s) && AllWrites(beforeCheck + whileChecking))
            && s1.writer.value == TaskAfter(s.writer.value, beforeCheck + whileChecking)
            && s1.pipe.value.consumerClosed == s.pipe.value.consumerClosed
  {
    var s1 := TakeSteps(s, beforeCheck);
    PayloadAppend(beforeCheck, whileChecking);
    TaskAfterAppend(s.writer.value, beforeCheck, whileChecking);
    assert Pushed(s, beforeCheck + whileChecking) == Pushed(s, beforeCheck) + Pushed(s1, whileChecking);
    AppendAssoc(s.pipe.value.buffer, Pushed(s, beforeCheck), Pushed(s1, whileChecking));
  }

  /** The writer's steps while the pipe read waits push their bytes behind
      the buffered ones; the reader's end is as it was. */
  lemma ArrivedFifo(s: State, steps: seq<Step>)
    requires Inv(s) && Starts(s) && WriterCanTake(Started(s), steps)
    ensures var s1 := Arrived(s, steps);
            && s1.pipe.value.buffer == Buffered(s) + Pushed(s, steps)
            && Accepting(s1) == (Accepting(s) && AllWrites(steps))
            && ReaderOpen(s1) == ReaderOpen(s)
            && s1.writer.value == TaskAfter(WriterOf(s), steps)
  {
  }

  /** read() on a started stream, after the writer's steps while the pipe
      read waits: the pipe read, then, when it returned a value, the
      writer's steps before the check and the check. */
  lemma ReadStepAfterRead(s: State, i: Interleaving)
    requires ReadCanFinish(s, i) && Starts(s)
    ensures var s1 := Arrived(s, i.whileReading);
            var (p, read) := Channel.Read(s1.pipe.value);
            var s2 := s1.(pipe := Some(p));
            ReadStep(s, i).0 == if read.Ok? then CheckStep(TakeSteps(s2, i.beforeCheck), read.value, i.whileChecking).0 else s2
  {
  }

  /** The steps of an interleaving as those while the pipe read waits,
      then the rest. */
  lemma SegmentsSplit(s: State, i: Interleaving, s1: State)
    requires Inv(s) && Inv(s1) && Active(s1)
    requires Accepting(s1) == (Accepting(s) && AllWrites(i.whileReading))
    ensures Segments(i) == i.whileReading + (i.beforeCheck + i.whileChecking)
    ensures AllWrites(Segments(i)) == (AllWrites(i.whileReading) && AllWrites(i.beforeCheck + i.whileChecking))
    ensures Pushed(s, Segments(i)) == Pushed(s, i.whileReading) + Pushed(s1, i.beforeCheck + i.whileChecking)
    ensures TaskAfter(WriterOf(s), Segments(i)) ==
            TaskAfter(TaskAfter(WriterOf(s), i.whileReading), i.beforeCheck + i.whileChecking)
  {
    var later := i.beforeCheck + i.whileChecking;
    assert Segments(i) == i.whileReading + later;
    PayloadAppend(i.whileReading, later);
    TaskAfterAppend(WriterOf(s), i.whileReading, later);
  }

  /** FIFO through one read(): the bytes in the pipe before the call followed
      by those the writer pushes during it are the byte the call takes
      followed by what the pipe holds after it. A read that returns normally
      returns the byte it took. The sink stays open exactly when the writer
      only wrote, and the writer task ends as its steps say. */
  lemma ReadFifo(s: State, i: Interleaving)
    requires ReadCanFinish(s, i)
    ensures var (s1, res) := ReadStep(s, i);
            && Buffered(s) + Pushed(s, Segments(i)) == ReadTaken(s, i) + Buffered(s1)
            && Accepting(s1) == (Accepting(s) && AllWrites(Segments(i)))
            && ReaderOpen(s1) == ReaderOpen(s)
            && WriterOf(s1) == TaskAfter(WriterOf(s), Segments(i))
            && (res.Ok? ==> ReadTaken(s, i) == if res.value >= 0 then [res.value as byte] else [])
  {
    if Starts(s) {
      var s1 := Arrived(s, i.whileReading);
      ArrivedFifo(s, i.whileReading);
      ReadStepAfterRead(s, i);
      var (p, read) := Channel.Read(s1.pipe.value);
      var s2 := s1.(pipe := Some(p));
      SegmentsSplit(s, i, s2);
      var later := i.beforeCheck + i.whileChecking;
      if read.Ok? {
        AfterReadFifo(s2, read.value, i.beforeCheck, i.whileChecking);
        calc {
          Buffered(s) + Pushed(s, Segments(i));
          Buffered(s) + (Pushed(s, i.whileReading) + Pushed(s2, later));
          { AppendAssoc(Buffered(s), Pushed(s, i.whileReading), Pushed(s2, later)); }
          s1.pipe.value.buffer + Pushed(s2, later);
          (ReadTaken(s, i) + p.buffer) + Pushed(s2, later);
          { AppendAssoc(ReadTaken(s, i), p.buffer, Pushed(s2, later)); }
          ReadTaken(s, i) + Buffered(ReadStep(s, i).0);
        }
      } else {
        assert later == [] && Pushed(s2, later) == [];
        assert Pushed(s, i.whileReading) + [] == Pushed(s, i.whileReading);
      }
    } else {
      assert Segments(i) == [];
    }
  }

  lemma ReadIntoStartedUnfold(s: State, length: int, off: int, len: int, beforeCheck: seq<Step>, whileChecking: seq<Step>)
    requires Inv(s) && Active(s) && ReadIntoStartedCanFinish(s, length, off, len, beforeCheck, whileChecking)
    ensures var (p, read, bytes) := Channel.ReadInto(s.pipe.value, length, off, len);
            var s2 := s.(pipe := Some(p));
            var r := ReadIntoStarted(s, length, off, len, beforeCheck, whileChecking);
            r.2 == bytes && r.0 == if read.Ok? then CheckStep(TakeSteps(s2, beforeCheck), read.value, whileChecking).0 else s2
  {
  }

  lemma ReadIntoStartedFifo(s: State, length: int, off: int, len: int, beforeCheck: seq<Step>, whileChecking: seq<Step>)
    requires Inv(s) && Active(s) && ReadIntoStartedCanFinish(s, length, off, len, beforeCheck, whileChecking)
    ensures var (s1, _, bytes) := ReadIntoStarted(s, length, off, len, beforeCheck, whileChecking);
            && s.pipe.value.buffer + Pushed(s, beforeCheck + whileChecking) == bytes + s1.pipe.value.buffer
            && Accepting(s1) == (Accepting(s) && AllWrites(beforeCheck + whileChecking))
            && s1.writer.value == TaskAfter(s.writer.value, beforeCheck + whileChecking)
  {
    ReadIntoStartedUnfold(s, length, off, len, beforeCheck, whileChecking);
    var (p, read, bytes) := Channel.ReadInto(s.pipe.value, length, off, len);
    var s2 := s.(pipe := Some(p));
    var pushed := Pushed(s, beforeCheck + whileChecking);
    assert Pushed(s2, beforeCheck + whileChecking) == pushed;
    if read.Ok? {
      AfterReadFifo(s2, read.value, beforeCheck, whileChecking);
      AppendAssoc(bytes, p.buffer, pushed);
    } else {
      assert beforeCheck + whileChecking == [];
    }
  }

  /** FIFO through one read(b, off, len): as for read(), with the bytes the
      call copies into the array in place of the single byte. */
  lemma ReadIntoFifo(s: State, length: int, off: int, len: int, i: Interleaving)
    requires ReadIntoCanFinish(s, length, off, len, i)
    ensures var (s1, _, bytes) := ReadIntoStep(s, length, off, len, i);
            && Buffered(s) + Pushed(s, Segments(i)) == bytes + Buffered(s1)
            && Accepting(s1) == (Accepting(s) && AllWrites(Segments(i)))
            && ReaderOpen(s1) == ReaderOpen(s)
            && WriterOf(s1) == TaskAfter(WriterOf(s), Segments(i))
  {
    if Starts(s) {
      var s1 := Arrived(s, i.whileReading);
      ArrivedFifo(s, i.whileReading);
      SegmentsSplit(s, i, s1);
      ReadIntoStartedFifo(s1, length, off, len, i.beforeCheck, i.whileChecking);
      var later := i.beforeCheck + i.whileChecking;
      var (s3, _, bytes) := ReadIntoStarted(s1, length, off, len, i.beforeCheck, i.whileChecking);
      assert ReadIntoStep(s, length, off, len, i) == ReadIntoStarted(s1, length, off, len, i.beforeCheck, i.whileChecking);
      calc {
        Buffered(s) + Pushed(s, Segments(i));
        Buffered(s) + (Pushed(s, i.whileReading) + Pushed(s1, later));
        { AppendAssoc(Buffered(s), Pushed(s, i.whileReading), Pushed(s1, later)); }
        (Buffered(s) + Pushed(s, i.whileReading)) + Pushed(s1, later);
        s1.pipe.value.buffer + Pushed(s1, later);
        bytes + s3.pipe.value.buffer;
      }
    } else {
      assert Segments(i) == [];
    }
  }

  /** The writer steps that run during call `c`. */
  function CallSteps(c: Call): seq<Step> {
    match c
    case ReadCall(i) => Segments(i)
    case ReadIntoCall(_, _, _, i) => Segments(i)
    case CloseCall => []
    case WriterCall(step) => [step]
  }

  /** The bytes call `c` takes out of the pipe. */
  function Taken(s: State, c: Call): seq<byte>
    requires CanPerform(s, c)
  {
    match c
    case ReadCall(i) => ReadTaken(s, i)
    case ReadIntoCall(length, off, len, i) => ReadIntoStep(s, length, off, len, i).2
    case CloseCall => []
    case WriterCall(_) => []
  }

  /** FIFO through any one call that leaves the reader's end open. */
  lemma CallFifo(s: State, c: Call)
    requires CanPerform(s, c) && ReaderOpen(Perform(s, c).0)
    ensures var s1 := Perform(s, c).0;
            && Buffered(s) + Pushed(s, CallSteps(c)) == Taken(s, c) + Buffered(s1)
            && Accepting(s1) == (Accepting(s) && AllWrites(CallSteps(c)))
            && WriterOf(s1) == TaskAfter(WriterOf(s), CallSteps(c))
  {
    match c
    case ReadCall(i) => ReadFifo(s, i);
    case ReadIntoCall(length, off, len, i) => ReadIntoFifo(s, length, off, len, i);
    case CloseCall =>
    case WriterCall(step) =>
      var (p, t) := (s.pipe.value, s.writer.value);
      assert [step][1..] == [];
      assert EnabledAll(p, t, [step]);
      StepsAppendPayload(p, t, [step]);
      assert ApplyAll(p, t, [step]) == Apply(p, t, step);
  }

  /** The writer steps that run during `calls`, in order. */
  function Schedule(calls: seq<Call>): seq<Step> {
    if calls == [] then [] else CallSteps(calls[0]) + Schedule(calls[1..])
  }

  /** The state after `calls`. */
  function After(s: State, calls: seq<Call>): State
    requires CanPerformAll(s, calls)
    decreases |calls|
  {
    if calls == [] then s else After(Perform(s, calls[0]).0, calls[1..])
  }

  /** The bytes `calls` take out of the pipe, in order. */
  function Delivered(s: State, calls: seq<Call>): seq<byte>
    requires CanPerformAll(s, calls)
    decreases |calls|
  {
    if calls == [] then [] else Taken(s, calls[0]) + Delivered(Perform(s, calls[0]).0, calls[1..])
  }

  /** FIFO over any sequence of reads, closes and writer steps, with the
      writer's steps interleaved with the reads in any way, as long as the
      reader's end stays open: the bytes in the pipe at the start followed
      by everything the writer wrote before closing its sink are exactly
      the bytes the reads took, in order, followed by what the pipe still
      holds. The writer task ends as its own steps say. */
  lemma {:induction false} Fifo(s: State, calls: seq<Call>)
    requires CanPerformAll(s, calls) && ReaderOpen(After(s, calls))
    ensures ReaderOpen(s)
    ensures Buffered(s) + Pushed(s, Schedule(calls)) == Delivered(s, calls) + Buffered(After(s, calls))
    ensures WriterOf(After(s, calls)) == TaskAfter(WriterOf(s), Schedule(calls))
    decreases |calls|
  {
    if calls == [] {
      assert Pushed(s, []) == [];
      assert Buffered(s) + [] == Buffered(s) == [] + Buffered(s);
    } else {
      var c, rest := calls[0], calls[1..];
      var s1 := Perform(s, c).0;
      Fifo(s1, rest);
      CallFifo(s, c);
      PayloadAppend(CallSteps(c), Schedule(rest));
      TaskAfterAppend(WriterOf(s), CallSteps(c), Schedule(rest));
      var taken, pushed := Taken(s, c), Pushed(s1, Schedule(rest));
      calc {
        Buffered(s) + Pushed(s, Schedule(calls));
        Buffered(s) + (Pushed(s, CallSteps(c)) + pushed);
        { AppendAssoc(Buffered(s), Pushed(s, CallSteps(c)), pushed); }
        (taken + Buffered(s1)) + pushed;
        { AppendAssoc(taken, Buffered(s1), pushed); }
        taken + (Delivered(s1, rest) + Buffered(After(s1, rest)));
        { AppendAssoc(taken, Delivered(s1, rest), Buffered(After(s1, rest))); }
        Delivered(s, calls) + Buffered(After(s, calls));
      }
    }
  }

  /** The writer has finished and the reader's end is still open: from here
      every read returns at once. */
  predicate Finished(s: State) {
    Inv(s) && Active(s) && s.writer.value.Done? && !s.pipe.value.consumerClosed
  }

  /** read(b) with a buffer of `size` bytes on a stream whose writer has
      finished: it never waits, copies the oldest buffered bytes, and takes
      bytes whenever there are any. */
  lemma ReadIntoFinished(s: State, size: int)
    requires Finished(s) && size > 0
    ensures ReadIntoCanFinish(s, size, 0, size, NoInterleaving)
    ensures var (s1, res, bytes) := ReadIntoStep(s, size, 0, size, NoInterleaving);
            Finished(s1) && s1.writer == s.writer && s.pipe.value.buffer == bytes + s1.pipe.value.buffer &&
            (bytes == [] <==> s.pipe.value.buffer == []) &&
            (res.Ok? ==> res.value == |bytes| || (res.value == EndOfStream && bytes == []))
  {
  }

  /** read() on a stream whose writer has finished never waits. */
  lemma ReadFinished(s: State)
    requires Finished(s)
    ensures ReadCanFinish(s, NoInterleaving)
  {
  }

  /** The writer steps of a schedule of read calls, in order. */
  function StepsOf(sched: seq<Interleaving>): seq<Step> {
    if sched == [] then [] else Segments(sched[0]) + StepsOf(sched[1..])
  }

  /** consumeAndCloseStream with the k-th read() running beside the writer
      steps of sched[k]: every read can run to its end, every read but the
      last returns a byte, and the schedule ends with the last read. */
  predicate ConsumeCanFinish(s: State, sched: seq<Interleaving>)
    decreases |sched|
  {
    sched != [] && ReadCanFinish(s, sched[0]) &&
    var (s1, res) := ReadStep(s, sched[0]);
    if res.Ok? && res.value > EndOfStream then ConsumeCanFinish(s1, sched[1..]) else |sched| == 1
  }

  /** A common start stays a prefix. */
  lemma PrefixAfter(c: seq<byte>, a: seq<byte>, b: seq<byte>)
    requires a <= b
    ensures c + a <= c + b
  {
    assert (c + b)[..|c + a|] == c + a;
  }

  /** The bytes taken by a call followed by those of the calls after it:
      the step shared by the reading loops' FIFO proofs. Whatever the
      writer pushes during the first call joins the buffered bytes before
      the bytes of the later calls are reckoned. */
  lemma FifoThen(s: State, s1: State, taken: seq<byte>, seg: seq<Step>, later: seq<Step>, rest: seq<byte>)
    requires Inv(s) && Inv(s1)
    requires Buffered(s) + Pushed(s, seg) == taken + Buffered(s1)
    requires Accepting(s1) == (Accepting(s) && AllWrites(seg))
    requires rest <= Buffered(s1) + Pushed(s1, later)
    ensures taken + rest <= Buffered(s) + Pushed(s, seg + later)
    ensures rest == Buffered(s1) + Pushed(s1, later) ==> taken + rest == Buffered(s) + Pushed(s, seg + later)
  {
    PayloadAppend(seg, later);
    var pushed := Pushed(s1, later);
    calc {
      Buffered(s) + Pushed(s, seg + later);
      Buffered(s) + (Pushed(s, seg) + pushed);
      { AppendAssoc(Buffered(s), Pushed(s, seg), pushed); }
      (taken + Buffered(s1)) + pushed;
      { AppendAssoc(taken, Buffered(s1), pushed); }
      taken + (Buffered(s1) + pushed);
    }
    PrefixAfter(taken, rest, Buffered(s1) + pushed);
  }

  /** The steps of a schedule: those of its first read, then the rest. */
  lemma StepsOfSplit(sched: seq<Interleaving>)
    requires sched != []
    ensures StepsOf(sched) == Segments(sched[0]) + StepsOf(sched[1..])
    ensures |sched| == 1 ==> StepsOf(sched) == Segments(sched[0])
  {
    if |sched| == 1 {
      assert sched[1..] == [];
      assert Segments(sched[0]) + [] == Segments(sched[0]);
    }
  }

  /** StreamsTestUtils.consumeAndCloseStream: read() until it returns -1 or
      throws, then close() in a finally block, whose own exception would
      replace the read's. The result is the bytes read, the exception that
      escapes, and the final state; the writer runs beside the reads as
      `sched` says, from a stream in any state, started or not. A stream
      that gets past initialisation ends closed, and a finished writer is
      left as it was. ConsumeFifo and ConsumeReports state what the
      bytes and the exception are. */
  function ConsumeAndClose(s: State, sched: seq<Interleaving>): (r: (seq<byte>, Option<Error>, State))
    requires ConsumeCanFinish(s, sched)
    ensures Inv(r.2)
    ensures !Starts(s) ==> r == ([], Some(IllegalArgument), s)
    ensures Starts(s) ==> Active(r.2) && r.2.pipe.value.consumerClosed
    ensures Active(s) && s.writer.value.Done? ==> r.2.writer == s.writer
    decreases |sched|
  {
    var (s1, res) := ReadStep(s, sched[0]);
    if res.Ok? && res.value > EndOfStream then
      var (rest, err, s2) := ConsumeAndClose(s1, sched[1..]);
      ([res.value as byte] + rest, err, s2)
    else
      var (s2, closed) := CloseStep(s1);
      var escaped := match closed case Err(e) => Some(e) case Ok(_) => if res.Err? then Some(res.error) else None;
      ([], escaped, s2)
  }

  /** FIFO through consumeAndCloseStream: the bytes read are a prefix of
      the buffered bytes followed by what the writer writes before closing
      its sink, and all of them when nothing escapes; the writer task ends
      as its steps say. */
  lemma {:induction false} ConsumeFifo(s: State, sched: seq<Interleaving>)
    requires ConsumeCanFinish(s, sched)
    ensures var (bytes, escaped, s') := ConsumeAndClose(s, sched);
            && WriterOf(s') == TaskAfter(WriterOf(s), StepsOf(sched))
            && bytes <= Buffered(s) + Pushed(s, StepsOf(sched))
            && (escaped == None ==> bytes == Buffered(s) + Pushed(s, StepsOf(sched)))
    decreases |sched|
  {
    var i := sched[0];
    var (s1, res) := ReadStep(s, i);
    ReadFifo(s, i);
    StepsOfSplit(sched);
    if res.Ok? && res.value > EndOfStream {
      ConsumeFifo(s1, sched[1..]);
      var (rest, err, s2) := ConsumeAndClose(s1, sched[1..]);
      assert ConsumeAndClose(s, sched) == ([res.value as byte] + rest, err, s2);
      FifoThen(s, s1, [res.value as byte], Segments(i), StepsOf(sched[1..]), rest);
      TaskAfterAppend(WriterOf(s), Segments(i), StepsOf(sched[1..]));
    } else {
      var (s2, closed) := CloseStep(s1);
      if res.Ok? {
        assert ReadTaken(s, i) == [] && Buffered(s1) == [];
      }
    }
  }

  /** What escapes consumeAndCloseStream: on a stream whose reader's end is
      open the writer's outcome is always looked at, and what escapes is
      exactly the writer's failure, wrapped, when it failed and had not been
      reported before. */
  lemma {:induction false} ConsumeReports(s: State, sched: seq<Interleaving>)
    requires ConsumeCanFinish(s, sched)
    ensures var (bytes, escaped, s') := ConsumeAndClose(s, sched);
            Starts(s) && ReaderOpen(s) ==>
              && s'.resultChecked
              && (escaped.Some? <==> !s.resultChecked && s'.writer.value.outcome.Failure?)
              && (escaped.Some? ==> escaped.value == Reported(s'.writer.value.outcome.cause))
    decreases |sched|
  {
    if Starts(s) && ReaderOpen(s) {
      var i := sched[0];
      var (s1, res) := ReadStep(s, i);
      ReadFifo(s, i);
      if res.Err? {
        assert RaisesWriterFailure(res);
        var (s2, closed) := CloseStep(s1);
      } else if res.value > EndOfStream {
        ConsumeReports(s1, sched[1..]);
      } else {
        assert s1.resultChecked;
        var (s2, closed) := CloseStep(s1);
      }
    }
  }

  /** consumeAndCloseStream reads nothing when its first read throws: on a
      finished writer whose failure was not reported yet, and on a stream
      closed before, where an exception escapes. */
  lemma ConsumeNothingRead(s: State, sched: seq<Interleaving>)
    requires ConsumeCanFinish(s, sched)
    ensures var (bytes, escaped, s') := ConsumeAndClose(s, sched);
            && (Finished(s) && !s.resultChecked && s.writer.value.outcome.Failure? ==> bytes == [])
            && (Active(s) && !ReaderOpen(s) ==> bytes == [] && escaped.Some?)
  {
  }

  /** The unit tests' reading loop with the k-th read(buf) of a buffer of
      `size` bytes running beside the writer steps of sched[k]: every read can
      run to its end, every read but the last returns bytes, and the schedule
      ends with the last read. */
  predicate ReadAllCanFinish(s: State, size: int, sched: seq<Interleaving>)
    decreases |sched|
  {
    sched != [] && ReadIntoCanFinish(s, size, 0, size, sched[0]) &&
    var (s1, res, _) := ReadIntoStep(s, size, 0, size, sched[0]);
    if res.Ok? && res.value > 0 then ReadAllCanFinish(s1, size, sched[1..]) else |sched| == 1
  }

  /** The reading loop of the stream's unit tests: read(buf) with a buffer of
      `size` bytes while it returns more than 0, collecting what it returns,
      then close(); an exception from a read escapes the loop at once, and
      the stream is then left open, and a finished writer as it was.
      ReadAllFifo and ReadAllReports state what the bytes and the exception
      are, whatever the chunk size and however the writer runs beside the
      reads. */
  function ReadAllChunks(s: State, size: int, sched: seq<Interleaving>): (r: (seq<byte>, Option<Error>, State))
    requires size > 0 && ReadAllCanFinish(s, size, sched)
    ensures Inv(r.2)
    ensures !Starts(s) ==> r == ([], Some(IllegalArgument), s)
    ensures Active(s) && s.writer.value.Done? ==> r.2.writer == s.writer
    decreases |sched|
  {
    var (s1, res, bytes) := ReadIntoStep(s, size, 0, size, sched[0]);
    if res.Err? then ([], Some(res.error), s1)
    else if res.value > 0 then
      var (rest, err, s2) := ReadAllChunks(s1, size, sched[1..]);
      (bytes + rest, err, s2)
    else
      var (s2, closed) := CloseStep(s1);
      var escaped := match closed case Err(e) => Some(e) case Ok(_) => None;
      ([], escaped, s2)
  }

  /** FIFO through the reading loop: the bytes collected are a prefix of the
      buffered bytes followed by what the writer writes before closing its
      sink, and all of them, with the stream closed, when nothing escapes;
      the writer task ends as its steps say. */
  lemma {:induction false} ReadAllFifo(s: State, size: int, sched: seq<Interleaving>)
    requires size > 0 && ReadAllCanFinish(s, size, sched)
    ensures var (bytes, escaped, s') := ReadAllChunks(s, size, sched);
            && WriterOf(s') == TaskAfter(WriterOf(s), StepsOf(sched))
            && bytes <= Buffered(s) + Pushed(s, StepsOf(sched))
            && (escaped == None ==>
                  bytes == Buffered(s) + Pushed(s, StepsOf(sched)) && Active(s') && s'.pipe.value.consumerClosed)
    decreases |sched|
  {
    var i := sched[0];
    var (s1, res, bytes) := ReadIntoStep(s, size, 0, size, i);
    ReadIntoFifo(s, size, 0, size, i);
    StepsOfSplit(sched);
    if res.Err? {
    } else if res.value > 0 {
      ReadAllFifo(s1, size, sched[1..]);
      var (rest, err, s2) := ReadAllChunks(s1, size, sched[1..]);
      assert ReadAllChunks(s, size, sched) == (bytes + rest, err, s2);
      FifoThen(s, s1, bytes, Segments(i), StepsOf(sched[1..]), rest);
      TaskAfterAppend(WriterOf(s), Segments(i), StepsOf(sched[1..]));
    } else {
      var (s2, closed) := CloseStep(s1);
      assert bytes == [] && Buffered(s1) == [];
    }
  }

  /** What escapes the reading loop: as for consumeAndCloseStream, on a
      stream whose reader's end is open, except that a read's exception
      escapes before close(). */
  lemma {:induction false} ReadAllReports(s: State, size: int, sched: seq<Interleaving>)
    requires size > 0 && ReadAllCanFinish(s, size, sched)
    ensures var (bytes, escaped, s') := ReadAllChunks(s, size, sched);
            Starts(s) && ReaderOpen(s) ==>
              && s'.resultChecked
              && (escaped.Some? <==> !s.resultChecked && s'.writer.value.outcome.Failure?)
              && (escaped.Some? ==> escaped.value == Reported(s'.writer.value.outcome.cause))
    decreases |sched|
  {
    if Starts(s) && ReaderOpen(s) {
      var i := sched[0];
      var (s1, res, bytes) := ReadIntoStep(s, size, 0, size, i);
      ReadIntoFifo(s, size, 0, size, i);
      assert InBounds(size, 0, size);
      if res.Err? {
        assert RaisesWriterFailure(res);
      } else if res.value > 0 {
        ReadAllReports(s1, size, sched[1..]);
      } else {
        assert res == Ok(EndOfStream) && s1.resultChecked;
        var (s2, closed) := CloseStep(s1);
      }
    }
  }

  /** The reading loop reads nothing when its first read throws: on a
      finished writer whose failure was not reported yet, and on a stream
      closed before, where "Pipe closed" escapes. */
  lemma ReadAllNothingRead(s: State, size: int, sched: seq<Interleaving>)
    requires size > 0 && ReadAllCanFinish(s, size, sched)
    ensures var (bytes, escaped, s') := ReadAllChunks(s, size, sched);
            && (Finished(s) && !s.resultChecked && s.writer.value.outcome.Failure? ==> bytes == [])
            && (Active(s) && !ReaderOpen(s) ==> bytes == [] && escaped == Some(PipeClosed))
  {
    assert InBounds(size, 0, size);
  }

  /** A writer that ends by returning normally, on an open stream whose
      outcome was not looked at yet, lets the reading loop collect every byte
      buffered or written before its sink was closed, with no exception. */
  lemma ReadAllSucceeds(s: State, size: int, sched: seq<Interleaving>)
    requires size > 0 && ReadAllCanFinish(s, size, sched)
    requires Starts(s) && ReaderOpen(s) && TaskAfter(WriterOf(s), StepsOf(sched)) == Done(Success)
    ensures ReadAllChunks(s, size, sched).1 == None
    ensures ReadAllChunks(s, size, sched).0 == Buffered(s) + Pushed(s, StepsOf(sched))
  {
    ReadAllFifo(s, size, sched);
    ReadAllReports(s, size, sched);
  }

  /** Round trip: a writer routine that writes `bytes`, then closes its sink
      or returns, and in the end returns normally, is read back exactly, in
      order and with no exception, by reading chunks of any size until end of
      stream, whatever the pipe's size and however the writer's steps fall
      between and during the reads. */
  lemma {:induction false} RoundTrip(bufferSize: int, size: int, bytes: seq<byte>, rest: seq<Step>, sched: seq<Interleaving>)
    requires 0 < bufferSize && 0 < size
    requires rest != [] && !rest[0].WriteByte? && TaskAfter(Running, rest) == Done(Success)
    requires StepsOf(sched) == WriteAll(bytes) + rest
    requires ReadAllCanFinish(Initial(bufferSize), size, sched)
    ensures ReadAllChunks(Initial(bufferSize), size, sched).0 == bytes
    ensures ReadAllChunks(Initial(bufferSize), size, sched).1 == None
  {
    var s := Initial(bufferSize);
    WriteAllThenSucceed(bytes, rest);
    assert Buffered(s) + Pushed(s, StepsOf(sched)) == [] + bytes;
    ReadAllSucceeds(s, size, sched);
  }

  /** A read(b) whose writer steps all run while its pipe read waits and
      leave the writer finished is the read of a finished stream. */
  lemma {:induction false} ReadIntoAfterWriter(s: State, size: int, steps: seq<Step>)
    requires Inv(s) && Starts(s) && size > 0 && WriterCanTake(Started(s), steps)
    requires Finished(Arrived(s, steps))
    ensures ReadIntoCanFinish(s, size, 0, size, Interleaving(steps, [], []))
    ensures ReadIntoStep(s, size, 0, size, Interleaving(steps, [], [])) ==
            ReadIntoStep(Arrived(s, steps), size, 0, size, NoInterleaving)
  {
    var s1 := Arrived(s, steps);
    ReadIntoFinished(s1, size);
    assert Arrived(s1, []) == s1;
  }

  /** A writer that runs to success while the first read(b) waits, leaving
      no more than one buffer's worth: the reading loop takes it all with
      that read and sees the end of the stream on the next. */
  lemma ReadAllAfterWriter(s: State, size: int, steps: seq<Step>)
    requires Inv(s) && Starts(s) && size > 0 && WriterCanTake(Started(s), steps)
    requires Finished(Arrived(s, steps)) && Arrived(s, steps).writer.value == Done(Success)
    requires 0 < |Arrived(s, steps).pipe.value.buffer| <= size
    ensures ReadAllCanFinish(s, size, [Interleaving(steps, [], []), NoInterleaving])
  {
    var sched := [Interleaving(steps, [], []), NoInterleaving];
    var s1 := Arrived(s, steps);
    ReadIntoAfterWriter(s, size, steps);
    ReadIntoFinished(s1, size);
    var s2 := ReadIntoStep(s1, size, 0, size, NoInterleaving).0;
    ReadIntoFinished(s2, size);
    assert sched[1..] == [NoInterleaving];
  }

  /** A writer routine that writes `bytes` into a fresh pipe with room for
      them, closes its sink and ends with `o`, all while the first read
      waits: the read then finds the bytes and a finished writer. */
  lemma WriterRunsFirst(bufferSize: int, bytes: seq<byte>, o: Outcome)
    requires 0 < bufferSize && |bytes| <= bufferSize
    ensures var s := Initial(bufferSize);
            var steps := WriteAll(bytes) + [CloseSink, Finish(o)];
            && Starts(s) && WriterCanTake(Started(s), steps)
            && Finished(Arrived(s, steps)) && Arrived(s, steps).writer.value == Done(o)
            && Arrived(s, steps).pipe.value.buffer == bytes
  {
    var s := Initial(bufferSize);
    WriteCloseThenFinish(Started(s).pipe.value, bytes, o);
  }

  /** OutputToInputStreamTest.simpleStringOutToIn: the writer copies "test"
      into the sink, closes it and returns, here all while the first read
      waits; print() then reads "test" with a 1024-byte buffer and sees the
      end of the stream on its second read. */
  lemma SimpleStringOutToIn()
    ensures var test: seq<byte> := [116, 101, 115, 116];
            var sched := [Interleaving(WriteAll(test) + [CloseSink, Finish(Success)], [], []), NoInterleaving];
            ReadAllCanFinish(Initial(DefaultBufferSize), 1024, sched) &&
            ReadAllChunks(Initial(DefaultBufferSize), 1024, sched).0 == test &&
            ReadAllChunks(Initial(DefaultBufferSize), 1024, sched).1 == None
  {
    var test: seq<byte> := [116, 101, 115, 116];
    var writer := WriteAll(test) + [CloseSink, Finish(Success)];
    var sched := [Interleaving(writer, [], []), NoInterleaving];
    var s := Initial(DefaultBufferSize);
    WriterRunsFirst(DefaultBufferSize, test, Success);
    ReadAllAfterWriter(s, 1024, writer);
    assert StepsOf(sched) == writer + [] by {
      assert sched[1..] == [NoInterleaving];
      assert StepsOf(sched[1..]) == [];
    }
    RoundTrip(DefaultBufferSize, 1024, test, [CloseSink, Finish(Success)], sched);
  }

  /** Failure propagation (testExceptionPropagation): a writer that throws `e`
      before writing anything, however its end falls among the reads, makes
      consumeAndCloseStream raise an IOException whose cause is `e` and whose
      message ends with e's message, with nothing read. */
  lemma ExceptionPropagation(e: Throwable, sched: seq<Interleaving>)
    requires StepsOf(sched) == [Finish(Failure(Some(e)))]
    requires ConsumeCanFinish(Initial(DefaultBufferSize), sched)
    ensures var (bytes, escaped, _) := ConsumeAndClose(Initial(DefaultBufferSize), sched);
            bytes == [] && escaped == Some(WrapCause(e)) && escaped.value.cause == Some(e) &&
            (e.message.Some? ==> EndsWith(escaped.value.message.value, e.message.value))
  {
    ConsumeFifo(Initial(DefaultBufferSize), sched);
    ConsumeReports(Initial(DefaultBufferSize), sched);
  }

  /** In testExceptionPropagation the writer ends while the first read()
      waits; that read then raises and consumeAndCloseStream stops. */
  lemma ExceptionPropagationSchedule(e: Throwable)
    ensures var sched := [Interleaving([Finish(Failure(Some(e)))], [], [])];
            StepsOf(sched) == [Finish(Failure(Some(e)))] && ConsumeCanFinish(Initial(DefaultBufferSize), sched)
  {
    var s := TakeSteps(Started(Initial(DefaultBufferSize)), [Finish(Failure(Some(e)))]);
    assert s.writer == Some(Done(Failure(Some(e))));
    ReadFinished(s);
  }

  /** The writer writes 7 and closes its sink before the reader starts and is
      still running then: the first read() returns 7 without looking at the
      writer; the second sees end of data and waits for the writer to return;
      close() then raises nothing. */
  lemma WriterClosesBeforeReaderStarts()
    ensures var s0 := InitStep(Initial(DefaultBufferSize)).value;
            var s1 := WriterAct(WriterAct(s0, WriteByte(7)).0, CloseSink).0;
            ReadCanFinish(s1, NoInterleaving) &&
            var (s2, r2) := ReadStep(s1, NoInterleaving);
            var later := Interleaving([], [], [Finish(Success)]);
            r2 == Ok(7) && !s2.resultChecked && ReadCanFinish(s2, later) &&
            var (s3, r3) := ReadStep(s2, later);
            r3 == Ok(EndOfStream) && CloseStep(s3).1 == Ok(())
  {
  }

  /** The reader reads one byte and closes while the writer is still
      running: close() neither waits nor checks, and the writer's next write
      fails with "Pipe closed". */
  lemma ReaderClosesBeforeWriterFinished()
    ensures var i := Interleaving([WriteByte(1)], [], []);
            ReadCanFinish(Initial(DefaultBufferSize), i) &&
            var (s1, r1) := ReadStep(Initial(DefaultBufferSize), i);
            var (s2, r2) := CloseStep(s1);
            r1 == Ok(1) && r2 == Ok(()) && !s2.resultChecked && s2.writer == Some(Running) &&
            WriterAct(s2, WriteByte(2)).1 == Err(PipeClosed)
  {
  }

  /** The reader closes a stream that was read while its writer is still
      running, and the writer then fails. read() on the closed stream gives
      "Pipe closed" without looking at the writer, but read(b, 0, 0) returns
      from the pipe before its closed check and so reaches the check, which
      raises the failure. */
  lemma ZeroLengthReadAfterClose(e: Throwable)
    ensures var s := Initial(DefaultBufferSize);
            ReadIntoCanFinish(s, 1, 0, 0, NoInterleaving) &&
            var (s1, r1, _) := ReadIntoStep(s, 1, 0, 0, NoInterleaving);
            var (s2, r2) := CloseStep(s1);
            r1 == Ok(0) && r2 == Ok(()) && s2.writer == Some(Running) &&
            var s3 := WriterAct(s2, Finish(Failure(Some(e)))).0;
            ReadCanFinish(s3, NoInterleaving) && ReadStep(s3, NoInterleaving).1 == Err(PipeClosed) &&
            ReadIntoCanFinish(s3, 1, 0, 0, NoInterleaving) &&
            ReadIntoStep(s3, 1, 0, 0, NoInterleaving).1 == Err(Reported(Some(e)))
  {
  }

  /** A second close() right after the first changes nothing and raises nothing. */
  lemma CloseTwice(s: State)
    requires Inv(s)
    ensures var (s1, _) := CloseStep(s); CloseStep(s1) == (s1, Ok(()))
  {
  }
}
