/** OutputToInputStream: an InputStream whose bytes are produced by a writer
    routine running on another thread. The pipe and the writer's Future are
    created lazily by the first read; each read and close then reconciles
    what the pipe returned with the writer's outcome, so that a writer
    failure reaches the reader, and reaches it once.

    The state of the object is the `State` value below; the functions over
    it (InitStep, CheckStep, ReadStep, ReadIntoStep, CloseStep, WriterAct)
    say what each operation does, and the class at the end performs them on
    its fields and is proved to agree with them. */
module OutputToInput {
  import opened JavaIO
  import Channel
  import opened WriterTask

  /** The pipe size used by the constructors that take none. */
  const DefaultBufferSize: int := 4096

  /** What ExecutionException.getCause() is missing is replaced by: the
      ExecutionException itself. */
  const ExecutionException: Throwable := Throwable("java.util.concurrent.ExecutionException", None)

  /** The writer steps that run during a read call, in three stretches:
      `whileReading` while the pipe read waits for data, `beforeCheck` after
      the pipe read has returned and before checkForException asks
      Future.isDone(), and `whileChecking` while it waits in Future.get() for
      the writer to complete. */
  datatype Interleaving = Interleaving(whileReading: seq<Step>, beforeCheck: seq<Step>, whileChecking: seq<Step>)

  const NoInterleaving: Interleaving := Interleaving([], [], [])

  /** All the writer steps of a read call, in the order they run. */
  function Segments(i: Interleaving): seq<Step> {
    i.whileReading + i.beforeCheck + i.whileChecking
  }

  /** The fields of an OutputToInputStream: `bufferSize`, `pipe` for
      pipedInputStream together with its connected sink, `writer` for
      writerFuture, and `resultChecked`. */
  datatype State = State(bufferSize: int, pipe: Option<Channel.Pipe>, writer: Option<Task>, resultChecked: bool)

  /** The pipe and the writer exist together; the pipe has the configured
      size; a finished writer has closed its sink; and the writer's outcome
      has been looked at only once the writer has finished. */
  predicate Inv(s: State) {
    && (s.pipe.Some? <==> s.writer.Some?)
    && (s.pipe.Some? ==> Channel.Valid(s.pipe.value) && s.pipe.value.capacity == s.bufferSize)
    && (s.writer.Some? && s.writer.value.Done? ==> s.pipe.value.producerClosed)
    && (s.resultChecked ==> s.writer.Some? && s.writer.value.Done?)
  }

  /** The stream has been initialised: the pipe exists and the writer was submitted. */
  predicate Active(s: State) {
    s.pipe.Some?
  }

  /** A read gets past the lazy initialisation: the stream is initialised, or
      its size is one the pipe constructor accepts. */
  predicate Starts(s: State) {
    Active(s) || s.bufferSize > 0
  }

  /** The bytes waiting in the pipe; none before the pipe exists. */
  function Buffered(s: State): seq<byte> {
    if Active(s) then s.pipe.value.buffer else []
  }

  /** The writer's sink still takes bytes. A stream not yet initialised will
      get a fresh pipe, whose sink does. */
  predicate Accepting(s: State) {
    !Active(s) || Channel.SinkOpen(s.pipe.value)
  }

  /** The bytes that writer steps from `s` put into the pipe: those written
      before the sink is closed, and none once the sink no longer takes any. */
  function Pushed(s: State, steps: seq<Step>): seq<byte> {
    if Accepting(s) then Payload(steps) else []
  }

  /** A newly constructed stream: no pipe, no writer. */
  function Initial(bufferSize: int): (s: State)
    ensures Inv(s) && !Active(s) && s.writer.None? && !s.resultChecked && s.bufferSize == bufferSize
  {
    State(bufferSize, None, None, false)
  }

  /** A read or close raised the writer's own failure: an IOException with a cause.
      The pipe's own errors carry none. */
  predicate RaisesWriterFailure<T>(r: Result<T, Error>) {
    r.Err? && r.error.IOException? && r.error.cause.Some?
  }

  /** The IOException for a writer that failed: it wraps the cause of the
      ExecutionException, or the ExecutionException itself when it has none. */
  function Reported(cause: Option<Throwable>): (e: Error)
    ensures e.IOException? && e.cause.Some? && e.message.Some?
    ensures cause.Some? ==> e.cause == cause
    ensures cause.Some? && cause.value.message.Some? ==> EndsWith(e.message.value, cause.value.message.value)
    ensures cause.None? ==> e.cause == Some(ExecutionException)
  {
    WrapCause(if cause.Some? then cause.value else ExecutionException)
  }

  /** initializePipedStream(): creates the pipe with the configured size and
      submits the writer. A size that is not positive makes the pipe
      constructor throw, and nothing is created. */
  function InitStep(s: State): (r: Result<State, Error>)
    requires Inv(s) && !Active(s)
    ensures r.Err? <==> s.bufferSize <= 0
    ensures r.Err? ==> r.error == IllegalArgument
    ensures r.Ok? ==> Inv(r.value) && Active(r.value) && r.value.writer == Some(Running)
    ensures r.Ok? ==> r.value.bufferSize == s.bufferSize && !r.value.resultChecked
    ensures r.Ok? ==> var p := r.value.pipe.value; p.buffer == [] && !p.producerClosed && !p.consumerClosed
  {
    match Channel.Create(s.bufferSize)
    case Err(e) => Err(e)
    case Ok(p) => Ok(s.(pipe := Some(p), writer := Some(Running)))
  }

  /** The state a read works on: the given one, or the one its lazy
      initialisation creates. */
  function Started(s: State): (r: State)
    requires Inv(s) && Starts(s)
    ensures Inv(r) && Active(r) && r.bufferSize == s.bufferSize && r.resultChecked == s.resultChecked
    ensures Active(s) ==> r == s
    ensures !Active(s) ==> r.pipe.value.buffer == [] && Channel.SinkOpen(r.pipe.value) && r.writer == Some(Running)
  {
    if Active(s) then s else InitStep(s).value
  }

  /** The writer can take `steps`, one after another. */
  predicate WriterCanTake(s: State, steps: seq<Step>)
    requires Inv(s) && Active(s)
  {
    EnabledAll(s.pipe.value, s.writer.value, steps)
  }

  /** The state after the writer has taken `steps`; the reader's fields and
      the reader's end of the pipe are untouched. The bytes the steps write
      go behind the buffered ones, in order, while the sink takes them; the
      sink stays open exactly when every step was a write; and the writer
      task ends as its steps say. */
  function TakeSteps(s: State, steps: seq<Step>): (r: State)
    requires Inv(s) && Active(s) && WriterCanTake(s, steps)
    ensures Inv(r) && Active(r) && r.bufferSize == s.bufferSize && r.resultChecked == s.resultChecked
    ensures r.pipe.value.consumerClosed == s.pipe.value.consumerClosed
    ensures r.pipe.value.buffer == s.pipe.value.buffer + Pushed(s, steps)
    ensures Accepting(r) == (Accepting(s) && AllWrites(steps))
    ensures r.writer.value == TaskAfter(s.writer.value, steps)
    ensures s.writer.value.Done? ==> r == s
  {
    var (p, t) := ApplyAll(s.pipe.value, s.writer.value, steps);
    StepsAppendPayload(s.pipe.value, s.writer.value, steps);
    s.(pipe := Some(p), writer := Some(t))
  }

  /** The state when the pipe read of a read call returns: after the lazy
      initialisation and the writer's steps while the read waited. */
  function Arrived(s: State, whileReading: seq<Step>): (r: State)
    requires Inv(s) && Starts(s) && WriterCanTake(Started(s), whileReading)
    ensures Inv(r) && Active(r)
  {
    TakeSteps(Started(s), whileReading)
  }

  /** checkForException(read) looks at the writer's outcome: the read hit end
      of data or the writer is seen done, and the outcome was not looked at before. */
  predicate CheckFires(s: State, read: int)
    requires Inv(s) && Active(s)
  {
    (read < 0 || s.writer.value.Done?) && !s.resultChecked
  }

  /** The check does not wait forever: when it fires, the steps the writer
      takes while Future.get() waits bring it to completion; when it does not
      fire, nothing waits. */
  predicate CheckCanFinish(s: State, read: int, during: seq<Step>)
    requires Inv(s) && Active(s)
  {
    if CheckFires(s, read) then WriterCanTake(s, during) && TakeSteps(s, during).writer.value.Done?
    else during == []
  }

  /** checkForException(read): when it fires it sets resultChecked first and
      then waits for the writer; a failed writer is raised as the IOException
      wrapping its cause, a successful one raises nothing. */
  function CheckStep(s: State, read: int, during: seq<Step>): (r: (State, Option<Error>))
    requires Inv(s) && Active(s) && CheckCanFinish(s, read, during)
    ensures Inv(r.0) && Active(r.0) && r.0.bufferSize == s.bufferSize
    ensures r.0.resultChecked == (s.resultChecked || CheckFires(s, read))
    ensures r.0.pipe.value.consumerClosed == s.pipe.value.consumerClosed
    ensures r.0.pipe.value.buffer == s.pipe.value.buffer + Pushed(s, during)
    ensures Accepting(r.0) == (Accepting(s) && AllWrites(during))
    ensures r.0.writer.value == TaskAfter(s.writer.value, during)
    ensures !CheckFires(s, read) ==> r == (s, None)
    ensures r.1.Some? <==> CheckFires(s, read) && r.0.writer.value.outcome.Failure?
    ensures r.1.Some? ==> r.1.value == Reported(r.0.writer.value.outcome.cause)
  {
    if CheckFires(s, read) then
      var s1 := TakeSteps(s, during).(resultChecked := true);
      match s1.writer.value.outcome
      case Success => (s1, None)
      case Failure(c) => (s1, Some(Reported(c)))
    else (s, None)
  }

  /** What follows a pipe read that returned `read` can run to its end: after
      an error nothing does; after a value, the writer's `beforeCheck` steps
      can run and the check after them can finish. */
  predicate AfterReadCanFinish(s: State, read: Result<int, Error>, beforeCheck: seq<Step>, whileChecking: seq<Step>)
    requires Inv(s) && Active(s)
  {
    match read
    case Err(_) => beforeCheck == [] && whileChecking == []
    case Ok(v) => WriterCanTake(s, beforeCheck) && CheckCanFinish(TakeSteps(s, beforeCheck), v, whileChecking)
  }

  /** read() can run to its end: it fails at initialisation, with no writer
      to take steps, or the pipe read has data, end of data or a closed end
      after the writer's `whileReading` steps, and what follows can finish. */
  predicate ReadCanFinish(s: State, i: Interleaving) {
    Inv(s) &&
    if !Starts(s) then i == NoInterleaving
    else
      WriterCanTake(Started(s), i.whileReading) &&
      var s1 := Arrived(s, i.whileReading);
      Channel.CanRead(s1.pipe.value) &&
      var (p, read) := Channel.Read(s1.pipe.value);
      AfterReadCanFinish(s1.(pipe := Some(p)), read, i.beforeCheck, i.whileChecking)
  }

  /** read(): initialise if needed, read one value from the pipe, run the
      check on it, and return the value unless the check raised.

      The stream is initialised by its first read and stays so; the pipe's
      value reaches the caller unchanged, and it is the oldest byte in the
      pipe when the pipe read returns; on an open stream the only error is
      the writer's failure; a failed writer that has not been reported is
      raised as soon as it is seen done, even when a byte was available; the
      outcome is looked at by at most one call, and end of data is only
      returned once it has been, with nothing left to come. */
  function ReadStep(s: State, i: Interleaving): (r: (State, Result<int, Error>))
    requires ReadCanFinish(s, i)
    ensures Inv(r.0) && r.0.bufferSize == s.bufferSize
    ensures Active(r.0) <==> Starts(s)
    ensures !Starts(s) ==> r == (s, Err(IllegalArgument))
    ensures s.resultChecked ==> r.0.resultChecked
    ensures r.1.Ok? ==> -1 <= r.1.value < 256
    ensures Starts(s) && r.1.Ok? && r.1.value >= 0 ==>
              var b := Arrived(s, i.whileReading).pipe.value.buffer; b != [] && r.1.value == b[0]
    ensures Active(s) && !s.pipe.value.consumerClosed && s.pipe.value.buffer != [] && r.1.Ok? ==>
              r.1.value == s.pipe.value.buffer[0]
    ensures Active(s) && s.pipe.value.consumerClosed ==> r.1 == Err(PipeClosed)
    ensures Starts(s) && !Started(s).pipe.value.consumerClosed && r.1.Err? ==> RaisesWriterFailure(r.1)
    ensures r.1 == Ok(EndOfStream) ==> r.0.resultChecked && r.0.pipe.value.buffer == [] && !Accepting(r.0)
    ensures RaisesWriterFailure(r.1) <==> !s.resultChecked && r.0.resultChecked && r.0.writer.value.outcome.Failure?
    ensures RaisesWriterFailure(r.1) ==> r.1.error == Reported(r.0.writer.value.outcome.cause)
    ensures Active(s) && !s.pipe.value.consumerClosed && !s.resultChecked && s.writer.value.Done? ==>
              r.0.resultChecked && (s.writer.value.outcome.Failure? ==> r.1 == Err(Reported(s.writer.value.outcome.cause)))
    ensures Active(s) ==> r.0.pipe.value.consumerClosed == s.pipe.value.consumerClosed
    ensures Active(s) && s.writer.value.Done? ==> r.0.writer == s.writer
    ensures Active(s) && s.writer.value.Done? && r.1.Ok? && r.1.value >= 0 ==>
              s.pipe.value.buffer == [r.1.value as byte] + r.0.pipe.value.buffer
  {
    if !Starts(s) then (s, Err(IllegalArgument))
    else
      var s1 := Arrived(s, i.whileReading);
      var (p, read) := Channel.Read(s1.pipe.value);
      var s2 := s1.(pipe := Some(p));
      match read
      case Err(e) => (s2, Err(e))
      case Ok(v) =>
        var (s3, failure) := CheckStep(TakeSteps(s2, i.beforeCheck), v, i.whileChecking);
        if failure.Some? then (s3, Err(failure.value)) else (s3, Ok(v))
  }

  /** read(b, off, len) into an array of `length` elements can run to its end:
      as for read(), with the pipe read only waiting when the arguments are
      inside the array and ask for at least one byte. */
  predicate ReadIntoCanFinish(s: State, length: int, off: int, len: int, i: Interleaving) {
    Inv(s) &&
    if !Starts(s) then i == NoInterleaving
    else
      WriterCanTake(Started(s), i.whileReading) &&
      ReadIntoStartedCanFinish(Arrived(s, i.whileReading), length, off, len, i.beforeCheck, i.whileChecking)
  }

  /** read(b, off, len): initialise if needed, read into the array, run the
      check on the count, and return the count unless the check raised. The
      bytes copied into b[off..] are returned beside the result: they are
      there even when the check then raises.

      As for read(): the count reaches the caller unchanged, the bytes copied
      are the oldest ones in the pipe when the pipe read returns, on an open
      stream the only error beside bad arguments is the writer's failure, a
      failed writer seen done is raised, and the outcome is looked at by at
      most one call. */
  function ReadIntoStep(s: State, length: int, off: int, len: int, i: Interleaving): (r: (State, Result<int, Error>, seq<byte>))
    requires ReadIntoCanFinish(s, length, off, len, i)
    ensures Inv(r.0) && r.0.bufferSize == s.bufferSize
    ensures Active(r.0) <==> Starts(s)
    ensures !Starts(s) ==> r == (s, Err(IllegalArgument), [])
    ensures s.resultChecked ==> r.0.resultChecked
    ensures Starts(s) && !InBounds(length, off, len) ==> r.1 == Err(IndexOutOfBounds) && r.2 == []
    ensures r.1.Ok? ==> -1 <= r.1.value <= len && (r.1.value == |r.2| || (r.1.value == -1 && r.2 == []))
    ensures r.2 != [] ==> |r.2| <= len
    ensures r.1 == Ok(0) ==> len == 0
    ensures Active(s) && s.pipe.value.consumerClosed && Channel.ReadIntoWaits(length, off, len) ==> r.1 == Err(PipeClosed)
    ensures Starts(s) ==> r.2 <= Arrived(s, i.whileReading).pipe.value.buffer
    ensures Starts(s) && InBounds(length, off, len) && !Started(s).pipe.value.consumerClosed && r.1.Err? ==>
              RaisesWriterFailure(r.1)
    ensures r.1 == Ok(EndOfStream) ==> r.0.resultChecked && r.0.pipe.value.buffer == [] && !Accepting(r.0)
    ensures RaisesWriterFailure(r.1) <==> !s.resultChecked && r.0.resultChecked && r.0.writer.value.outcome.Failure?
    ensures RaisesWriterFailure(r.1) ==> r.1.error == Reported(r.0.writer.value.outcome.cause)
    ensures Active(s) && InBounds(length, off, len) && !s.pipe.value.consumerClosed && !s.resultChecked && s.writer.value.Done? ==>
              r.0.resultChecked && (s.writer.value.outcome.Failure? ==> r.1 == Err(Reported(s.writer.value.outcome.cause)))
    ensures Active(s) ==> r.0.pipe.value.consumerClosed == s.pipe.value.consumerClosed
    ensures Active(s) && s.writer.value.Done? ==> r.0.writer == s.writer
  {
    if !Starts(s) then (s, Err(IllegalArgument), [])
    else ReadIntoStarted(Arrived(s, i.whileReading), length, off, len, i.beforeCheck, i.whileChecking)
  }

  /** The pipe read of read(b, off, len) on a started stream returns, and
      what follows it can finish. */
  predicate ReadIntoStartedCanFinish(s: State, length: int, off: int, len: int, beforeCheck: seq<Step>, whileChecking: seq<Step>)
    requires Inv(s) && Active(s)
  {
    (Channel.ReadIntoWaits(length, off, len) ==> Channel.CanRead(s.pipe.value)) &&
    var (p, read, _) := Channel.ReadInto(s.pipe.value, length, off, len);
    AfterReadCanFinish(s.(pipe := Some(p)), read, beforeCheck, whileChecking)
  }

  /** The part of read(b, off, len) after initialisation and after the
      writer's steps while the pipe read waits: the pipe read, the writer's
      steps before the check, and the check. */
  function ReadIntoStarted(s: State, length: int, off: int, len: int, beforeCheck: seq<Step>, during: seq<Step>): (r: (State, Result<int, Error>, seq<byte>))
    requires Inv(s) && Active(s) && ReadIntoStartedCanFinish(s, length, off, len, beforeCheck, during)
    ensures Inv(r.0) && Active(r.0) && r.0.bufferSize == s.bufferSize
    ensures s.resultChecked ==> r.0.resultChecked
    ensures !InBounds(length, off, len) ==> r.1 == Err(IndexOutOfBounds) && r.2 == []
    ensures r.1.Ok? ==> -1 <= r.1.value <= len && (r.1.value == |r.2| || (r.1.value == -1 && r.2 == []))
    ensures r.2 != [] ==> |r.2| <= len
    ensures r.1 == Ok(0) ==> len == 0
    ensures s.pipe.value.consumerClosed && Channel.ReadIntoWaits(length, off, len) ==> r.1 == Err(PipeClosed)
    ensures r.2 <= s.pipe.value.buffer
    ensures InBounds(length, off, len) && !s.pipe.value.consumerClosed && r.1.Err? ==> RaisesWriterFailure(r.1)
    ensures r.1 == Ok(EndOfStream) ==> r.0.resultChecked && r.0.pipe.value.buffer == [] && !Accepting(r.0)
    ensures RaisesWriterFailure(r.1) <==> !s.resultChecked && r.0.resultChecked && r.0.writer.value.outcome.Failure?
    ensures RaisesWriterFailure(r.1) ==> r.1.error == Reported(r.0.writer.value.outcome.cause)
    ensures InBounds(length, off, len) && !s.pipe.value.consumerClosed && !s.resultChecked && s.writer.value.Done? ==>
              r.0.resultChecked && (s.writer.value.outcome.Failure? ==> r.1 == Err(Reported(s.writer.value.outcome.cause)))
    ensures r.0.pipe.value.consumerClosed == s.pipe.value.consumerClosed
    ensures s.writer.value.Done? ==> r.0.writer == s.writer
  {
    var (p, read, bytes) := Channel.ReadInto(s.pipe.value, length, off, len);
    var s1 := s.(pipe := Some(p));
    match read
    case Err(e) => (s1, Err(e), bytes)
    case Ok(n) =>
      var (s2, failure) := CheckStep(TakeSteps(s1, beforeCheck), n, during);
      if failure.Some? then (s2, Err(failure.value), bytes) else (s2, Ok(n), bytes)
  }

  /** close(): a stream never read is left as it is. Otherwise the reader's
      end of the pipe is closed; a writer still running is neither waited
      for nor checked; a finished one is checked as at end of data, so a
      failure not yet reported is raised here. The writer is never changed. */
  function CloseStep(s: State): (r: (State, Result<(), Error>))
    requires Inv(s)
    ensures Inv(r.0) && r.0.bufferSize == s.bufferSize && r.0.writer == s.writer
    ensures !Active(s) ==> r == (s, Ok(()))
    ensures Active(s) ==> Active(r.0) && r.0.pipe.value.consumerClosed && r.0.pipe.value.buffer == []
    ensures Active(s) ==> r.0.pipe.value.producerClosed == s.pipe.value.producerClosed
    ensures Active(s) && s.writer.value.Running? ==> r.1 == Ok(()) && r.0.resultChecked == s.resultChecked
    ensures Active(s) && s.writer.value.Done? ==> r.0.resultChecked
    ensures s.resultChecked ==> r.0.resultChecked && r.1 == Ok(())
    ensures RaisesWriterFailure(r.1) <==> !s.resultChecked && r.0.resultChecked && r.0.writer.value.outcome.Failure?
    ensures RaisesWriterFailure(r.1) ==> r.1.error == Reported(r.0.writer.value.outcome.cause)
    ensures r.1.Err? ==> RaisesWriterFailure(r.1)
  {
    if !Active(s) then (s, Ok(()))
    else
      var s1 := s.(pipe := Some(Channel.CloseConsumer(s.pipe.value)));
      if s1.writer.value.Running? then (s1, Ok(()))
      else
        var (s2, failure) := CheckStep(s1, EndOfStream, []);
        (s2, if failure.Some? then Err(failure.value) else Ok(()))
  }

  /** A step of the writer between two reader calls. A write is refused with
      "Pipe closed" once the reader has closed the stream (or the sink is
      closed); the reader's fields are never touched. */
  function WriterAct(s: State, step: Step): (r: (State, Result<(), Error>))
    requires Inv(s) && Active(s) && Enabled(s.pipe.value, s.writer.value, step)
    ensures Inv(r.0) && Active(r.0) && r.0.bufferSize == s.bufferSize && r.0.resultChecked == s.resultChecked
    ensures r.0.pipe.value.consumerClosed == s.pipe.value.consumerClosed
    ensures r.1.Err? <==> step.WriteByte? && (s.pipe.value.consumerClosed || s.pipe.value.producerClosed)
    ensures r.1.Err? ==> r.1.error == PipeClosed && r.0 == s
    ensures r.1.Ok? && step.WriteByte? ==> r.0.pipe.value.buffer == s.pipe.value.buffer + [step.b]
    ensures step.Finish? ==> r.0.writer == Some(Done(step.outcome)) && r.0.pipe.value.producerClosed
  {
    var (p, t) := Apply(s.pipe.value, s.writer.value, step);
    (s.(pipe := Some(p), writer := Some(t)),
     if step.WriteByte? then Channel.Write(s.pipe.value, step.b).1 else Ok(()))
  }

  /** The stream itself. Its methods change the fields as the functions
      above say; the writer's moves between reader calls are WriterStep. */
  class OutputToInputStream {
    const bufferSize: int
    var pipedInputStream: Option<Channel.Pipe>
    var writerFuture: Option<Task>
    var resultChecked: bool

    function Snapshot(): State
      reads this
    {
      State(bufferSize, pipedInputStream, writerFuture, resultChecked)
    }

    ghost predicate Valid()
      reads this
    {
      Inv(Snapshot())
    }

    /** OutputToInputStream(executor, bufferSize): nothing is created yet. */
    constructor (bufferSize: int)
      ensures Valid() && Snapshot() == Initial(bufferSize)
    {
      this.bufferSize := bufferSize;
      pipedInputStream := None;
      writerFuture := None;
      resultChecked := false;
    }

    /** OutputToInputStream() and OutputToInputStream(executor): a pipe of 4096 bytes. */
    constructor Default()
      ensures Valid() && Snapshot() == Initial(DefaultBufferSize)
    {
      bufferSize := DefaultBufferSize;
      pipedInputStream := None;
      writerFuture := None;
      resultChecked := false;
    }

    method Read(i: Interleaving) returns (r: Result<int, Error>)
      requires ReadCanFinish(Snapshot(), i)
      modifies this
      ensures Valid() && (Snapshot(), r) == ReadStep(old(Snapshot()), i)
    {
      if pipedInputStream.None? {
        var failure := InitializePipedStream();
        if failure.Some? {
          return Err(failure.value);
        }
      }
      RunWriter(i.whileReading);
      var (p, read) := Channel.Read(pipedInputStream.value);
      pipedInputStream := Some(p);
      if read.Err? {
        return Err(read.error);
      }
      RunWriter(i.beforeCheck);
      var failure := CheckForException(read.value, i.whileChecking);
      if failure.Some? {
        return Err(failure.value);
      }
      r := Ok(read.value);
    }

    method ReadInto(b: array<byte>, off: int, len: int, i: Interleaving) returns (r: Result<int, Error>)
      requires ReadIntoCanFinish(Snapshot(), b.Length, off, len, i)
      modifies this, b
      ensures Valid()
      ensures var (s, res, bytes) := ReadIntoStep(old(Snapshot()), b.Length, off, len, i);
              Snapshot() == s && r == res &&
              forall j :: 0 <= j < b.Length ==> b[j] == if off <= j < off + |bytes| then bytes[j - off] else old(b[j])
    {
      if pipedInputStream.None? {
        var failure := InitializePipedStream();
        if failure.Some? {
          return Err(failure.value);
        }
      }
      RunWriter(i.whileReading);
      r := ReadIntoAndCheck(b, off, len, i.beforeCheck, i.whileChecking);
    }

    /** read(b, off, len) once the stream is initialised and the writer has
        taken its steps: the pipe read, the copy into b, and the check. */
    method ReadIntoAndCheck(b: array<byte>, off: int, len: int, beforeCheck: seq<Step>, during: seq<Step>) returns (r: Result<int, Error>)
      requires Valid() && Active(Snapshot())
      requires ReadIntoStartedCanFinish(Snapshot(), b.Length, off, len, beforeCheck, during)
      modifies this, b
      ensures Valid()
      ensures var (s, res, bytes) := ReadIntoStarted(old(Snapshot()), b.Length, off, len, beforeCheck, during);
              Snapshot() == s && r == res &&
              forall j :: 0 <= j < b.Length ==> b[j] == if off <= j < off + |bytes| then bytes[j - off] else old(b[j])
    {
      var (p, read, bytes) := Channel.ReadInto(pipedInputStream.value, b.Length, off, len);
      pipedInputStream := Some(p);
      forall j | off <= j < off + |bytes| {
        b[j] := bytes[j - off];
      }
      if read.Err? {
        return Err(read.error);
      }
      RunWriter(beforeCheck);
      var failure := CheckForException(read.value, during);
      if failure.Some? {
        return Err(failure.value);
      }
      r := Ok(read.value);
    }

    method Close() returns (r: Result<(), Error>)
      requires Valid()
      modifies this
      ensures Valid() && (Snapshot(), r) == CloseStep(old(Snapshot()))
    {
      if pipedInputStream.None? {
        return Ok(());
      }
      pipedInputStream := Some(Channel.CloseConsumer(pipedInputStream.value));
      if !writerFuture.value.Done? {
        return Ok(());
      }
      var failure := CheckForException(EndOfStream, []);
      r := if failure.Some? then Err(failure.value) else Ok(());
    }

    /** The writer routine takes one step on its own thread. */
    method WriterStep(step: Step) returns (r: Result<(), Error>)
      requires Valid() && Active(Snapshot()) && Enabled(pipedInputStream.value, writerFuture.value, step)
      modifies this
      ensures Valid() && (Snapshot(), r) == WriterAct(old(Snapshot()), step)
    {
      r := if step.WriteByte? then Channel.Write(pipedInputStream.value, step.b).1 else Ok(());
      var (p, t) := Apply(pipedInputStream.value, writerFuture.value, step);
      pipedInputStream, writerFuture := Some(p), Some(t);
    }

    method InitializePipedStream() returns (failure: Option<Error>)
      requires Valid() && pipedInputStream.None?
      modifies this
      ensures Valid()
      ensures match InitStep(old(Snapshot()))
              case Ok(s) => failure.None? && Snapshot() == s
              case Err(e) => failure == Some(e) && Snapshot() == old(Snapshot())
    {
      var created := Channel.Create(bufferSize);
      if created.Err? {
        return Some(created.error);
      }
      pipedInputStream := Some(created.value);
      writerFuture := Some(Running);
      failure := None;
    }

    method CheckForException(read: int, during: seq<Step>) returns (failure: Option<Error>)
      requires Valid() && Active(Snapshot()) && CheckCanFinish(Snapshot(), read, during)
      modifies this
      ensures Valid() && (Snapshot(), failure) == CheckStep(old(Snapshot()), read, during)
    {
      failure := None;
      if (read < 0 || writerFuture.value.Done?) && !resultChecked {
        resultChecked := true;
        // Future.get() waits while the writer takes its remaining steps
        var (p, t) := ApplyAll(pipedInputStream.value, writerFuture.value, during);
        pipedInputStream, writerFuture := Some(p), Some(t);
        var outcome := writerFuture.value.outcome;
        if outcome.Failure? {
          failure := Some(Reported(outcome.cause));
        }
      }
    }

    /** The writer takes `steps` while this thread waits. */
    method RunWriter(steps: seq<Step>)
      requires Valid() && Active(Snapshot()) && WriterCanTake(Snapshot(), steps)
      modifies this
      ensures Valid() && Snapshot() == TakeSteps(old(Snapshot()), steps)
    {
      var (p, t) := ApplyAll(pipedInputStream.value, writerFuture.value, steps);
      pipedInputStream, writerFuture := Some(p), Some(t);
    }
  }
}
