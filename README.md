# iostreams: the push-to-pull adapter and the bandwidth monitors

A Dafny model of three stream classes of the `org.iostreams.streams` Java
library, with proofs of what they promise their callers.

- **OutputToInputStream** turns a push-style writer into a pull-style
  `InputStream`. The abstract `write(OutputStream sink)` routine runs on an
  executor thread. It writes into a `PipedOutputStream` connected to a
  `PipedInputStream` of `bufferSize` bytes (4096 by default), and the
  reader reads from that pipe.
  - The first `read` creates the pipe and submits the writer.
  - After every pipe read that returns, and on `close`, the
    `checkForException` routine looks at the writer's `Future`. A pipe
    read that throws ("Pipe closed", bad bounds) reaches no check. The
    routine raises a writer failure as an `IOException`, on the caller's
    thread, at most once.
  - A failure of a writer still running at `close()` is raised only by a
    later `close()`, or by a zero-length `read(b, off, 0)`, once the
    writer has finished. A zero-length read returns from the pipe before
    the pipe's closed check. `read()` and `read(b, off, len)` with len
    above 0 give "Pipe closed" on the closed stream instead.
- **BandwidthMonitorInputStream** is a `FilterInputStream` that counts
  every byte read or skipped through it.
- **BandwidthMonitorOutputStream** is an `OutputStream` that counts every
  byte it forwards.
- Both monitors report that count as a rate in bytes per second.

How the model is built:

- **The adapter's fields.** They are the `State` datatype in
  `output_to_input.dfy`:
  - `pipedInputStream`, with its sink, is a `Channel.Pipe`;
  - `writerFuture` is a `WriterTask.Task`;
  - `resultChecked` and `bufferSize` appear as they are.
- **What each operation does.** A function over `State` says it:
  `InitStep`, `CheckStep`, `ReadStep`, `ReadIntoStep`, `CloseStep`, and
  `WriterAct` for the writer's moves.
- **The class.** `OutputToInputStream` holds those same fields. Each of
  its methods is proved to change them exactly as its function says.
- **The pipe.** It is a bounded FIFO of bytes with a close flag for each
  end.
- **The writer thread.** It is an environment that takes steps: write a
  byte, close the sink, or finish with an outcome. The writer task's `finally`
  always closes the sink.
- **Blocking.** A blocking call becomes a precondition saying which writer
  steps let it return. The `Interleaving` argument of a read lists the
  writer's steps in three stretches: while the pipe read waits, after the
  pipe read has returned and before `checkForException` asks
  `Future.isDone()`, and while `Future.get()` waits. Writer steps between
  reader calls are `WriterAct`; together with the interleavings they give
  any schedule of the writer against the reader.
- **The monitors.** They are classes over a wrapped stream:
  - the input side wraps a `ByteArrayInputStream`, a byte sequence with a
    position, which is what the tests wrap;
  - the output side wraps a sink that keeps what it is given, like the
    tests' `ByteArrayOutputStream`, or that refuses every write.
- **Time.** The time since the monitor was created is a parameter of
  `GetBytesPerSec`. It stands in for `System.nanoTime()`.

Modules:

- `JavaIO`: bytes, `Option`/`Result`, throwables, exceptions.
- `Channel`: the pipe.
- `WriterTask`: the writer and its steps.
- `OutputToInput`: the adapter.
- `OutputToInputProps`: properties over several calls, and the adapter's
  unit-test scenarios.
- `Bandwidth`: the rate, in Java `long` arithmetic.
- `BandwidthInput`: the input monitor.
- `BandwidthOutput`: the output monitor.

`close()` on a stream that was never read returns without doing anything
(OutputToInputStream.java:113-116). A later `read()` then creates the pipe
and starts the writer. `CloseStep` and `ReadStep` say exactly this.

## Model

| member | source | states |
|---|---|---|
| JavaIO.WrapCause | src/main/java/org/iostreams/streams/in/OutputToInputStream.java:170 | `new IOException(cause)` keeps the cause and takes `cause.toString()` as its message. The message starts with the cause's class name and ends with the cause's own message. |
| Channel.Create | src/main/java/org/iostreams/streams/in/OutputToInputStream.java:134-135 | The new pipe is empty, holds `size` bytes and has both ends open. Any `size` that is not positive is refused with IllegalArgumentException, and only such a size. |
| Channel.Write | src/test/java/org/iostreams/streams/in/OutputToInputStreamTest.java:140-141 | A sink write appends the byte at the end of the buffer. Once either end is closed, it fails with "Pipe closed" and changes nothing. |
| Channel.CloseProducer | src/main/java/org/iostreams/streams/in/OutputToInputStream.java:144 | Closing the sink keeps the buffered bytes readable. Closing it twice is the same as closing it once. |
| Channel.CloseConsumer | src/main/java/org/iostreams/streams/in/OutputToInputStream.java:117 | Closing the reader's end discards the buffer. Closing it twice is the same as closing it once. |
| Channel.Read | src/main/java/org/iostreams/streams/in/OutputToInputStream.java:86 | The pipe read returns and removes the oldest buffered byte. It returns -1 exactly when the buffer is empty and the sink is closed. It fails with "Pipe closed" exactly when the reader's end is closed. |
| Channel.ReadInto | src/main/java/org/iostreams/streams/in/OutputToInputStream.java:99 | Arguments outside the array give IndexOutOfBounds, and only they do. A length of 0 returns 0. Otherwise the call returns -1 at end of data, or copies min(len, buffered) of the oldest bytes. The old buffer is always the copied bytes followed by the new buffer. |
| WriterTask.Apply | src/main/java/org/iostreams/streams/in/OutputToInputStream.java:139-148 | One writer step keeps the pipe within its capacity and never touches the reader's end. Finishing closes the sink and records the outcome. The buffered bytes stay in front. |
| WriterTask.ApplyAll | src/main/java/org/iostreams/streams/in/OutputToInputStream.java:136-151 | A run of writer steps keeps the pipe valid and leaves the reader's end alone. A task that ends done has closed its sink, and a task that is already done takes no step. |
| WriterTask.StepsAppendPayload | src/main/java/org/iostreams/streams/in/OutputToInputStream.java:139-148 | FIFO: while both ends are open, the writer's steps append exactly the bytes written before the sink closes, in order. Once either end is closed they append nothing. |
| WriterTask.WritesThen | src/main/java/org/iostreams/streams/in/OutputToInputStream.java:140 | Writes into a pipe with room for all of them never wait and append their bytes in order. The writer's later steps run from that pipe, with the same enabledness and the same result. |
| WriterTask.WriteThenFinish | src/main/java/org/iostreams/streams/in/OutputToInputStream.java:139-148 | A routine that writes some bytes and returns leaves exactly those bytes in the pipe, with the sink closed and the writer task done with its outcome. |
| WriterTask.TaskAfterWrites | src/main/java/org/iostreams/streams/in/OutputToInputStream.java:140 | Writes leave the writer task as it is: only the routine's end changes it. |
| WriterTask.TaskAfterAppend | src/main/java/org/iostreams/streams/in/OutputToInputStream.java:139-148 | The writer task after two runs of steps is the task after the first run, carried on by the second. |
| WriterTask.AllWritesAppend | src/main/java/org/iostreams/streams/in/OutputToInputStream.java:140 | A joined run of steps only writes exactly when both of its parts only write. |
| WriterTask.PayloadAppend | src/main/java/org/iostreams/streams/in/OutputToInputStream.java:139-148 | The bytes written before the sink closes, over a joined run, are those of the first part, followed by those of the second exactly when the first part neither closed the sink nor ended. |
| WriterTask.WriteAllThenSucceed | src/main/java/org/iostreams/streams/in/OutputToInputStream.java:139-141 | A routine that writes some bytes, then closes its sink or ends, and in the end returns normally, writes exactly those bytes before its sink closes and leaves its task done with success. |
| WriterTask.WriteCloseThenFinish | src/main/java/org/iostreams/streams/in/OutputToInputStream.java:139-148 | A routine that writes bytes with room for them, closes its sink itself and then ends never waits. It leaves exactly those bytes in the pipe, with the sink closed a second time by the `finally` to no effect and the task done with its outcome. |
| OutputToInput.Initial | src/main/java/org/iostreams/streams/in/OutputToInputStream.java:65-68 | A constructed stream has no pipe, no writer and an unchecked result. |
| OutputToInput.Reported | src/main/java/org/iostreams/streams/in/OutputToInputStream.java:168-173 | A writer failure becomes an IOException wrapping the ExecutionException's cause, whose message ends with the cause's message. When there is no cause, the IOException wraps the ExecutionException itself. |
| OutputToInput.InitStep | src/main/java/org/iostreams/streams/in/OutputToInputStream.java:131-152 | Initialisation creates an empty pipe of `bufferSize` bytes with both ends open, and a running writer. It fails with IllegalArgumentException exactly when the size is not positive. |
| OutputToInput.Started | src/main/java/org/iostreams/streams/in/OutputToInputStream.java:83-85 | A read initialises only a stream without a pipe. An initialised stream is used as it is. |
| OutputToInput.TakeSteps | src/main/java/org/iostreams/streams/in/OutputToInputStream.java:136-151 | The writer thread's steps change neither the reader's fields nor the reader's end. Buffered bytes stay in front, and a finished writer changes nothing. |
| OutputToInput.CheckStep | src/main/java/org/iostreams/streams/in/OutputToInputStream.java:161-176 | The check fires exactly when the read returned a negative value or the writer is done, and the result is not yet checked. It sets resultChecked exactly then. It raises exactly when a writer that failed has finished, and the error it raises is the wrapped cause. |
| OutputToInput.ReadStep | src/main/java/org/iostreams/streams/in/OutputToInputStream.java:82-89 | See the list after the table. |
| OutputToInput.ReadIntoStep | src/main/java/org/iostreams/streams/in/OutputToInputStream.java:95-102 | See the list after the table. |
| OutputToInput.ReadIntoStarted | src/main/java/org/iostreams/streams/in/OutputToInputStream.java:99-101 | See the list after the table. |
| OutputToInput.CloseStep | src/main/java/org/iostreams/streams/in/OutputToInputStream.java:112-129 | See the list after the table. |
| OutputToInput.WriterAct | src/test/java/org/iostreams/streams/in/OutputToInputStreamTest.java:120-124 | A writer step between reader calls never touches the reader's fields. Once the reader has closed, a write fails with "Pipe closed" and changes nothing. Otherwise it appends its byte. |
| OutputToInput.OutputToInputStream.constructor | src/main/java/org/iostreams/streams/in/OutputToInputStream.java:65-68 | The fields start as `Initial(bufferSize)`. |
| OutputToInput.OutputToInputStream.Default | src/main/java/org/iostreams/streams/in/OutputToInputStream.java:46-57 | The no-argument constructors use a pipe of 4096 bytes. |
| OutputToInput.OutputToInputStream.Read | src/main/java/org/iostreams/streams/in/OutputToInputStream.java:82-89 | The fields and the result are exactly those of `ReadStep` on the old fields. |
| OutputToInput.OutputToInputStream.ReadInto | src/main/java/org/iostreams/streams/in/OutputToInputStream.java:95-102 | The fields and the result are those of `ReadIntoStep`. The array holds the copied bytes at b[off..] and is unchanged elsewhere. |
| OutputToInput.OutputToInputStream.ReadIntoAndCheck | src/main/java/org/iostreams/streams/in/OutputToInputStream.java:99-101 | The pipe read, the copy into the array and the check agree with `ReadIntoStarted`. |
| OutputToInput.OutputToInputStream.Close | src/main/java/org/iostreams/streams/in/OutputToInputStream.java:112-129 | The fields and the result are exactly those of `CloseStep`. |
| OutputToInput.OutputToInputStream.WriterStep | src/main/java/org/iostreams/streams/in/OutputToInputStream.java:139-148 | A writer step on the object is `WriterAct`. |
| OutputToInput.OutputToInputStream.InitializePipedStream | src/main/java/org/iostreams/streams/in/OutputToInputStream.java:131-152 | The fields become `InitStep`'s state, or stay as they were when the pipe constructor throws. |
| OutputToInput.OutputToInputStream.CheckForException | src/main/java/org/iostreams/streams/in/OutputToInputStream.java:161-176 | The fields and the raised error are exactly those of `CheckStep`. resultChecked is set before the writer is waited for. |
| OutputToInput.OutputToInputStream.RunWriter | src/main/java/org/iostreams/streams/in/OutputToInputStream.java:151 | The submitted writer's steps while the reader waits are `TakeSteps`. |
| OutputToInputProps.Perform | src/main/java/org/iostreams/streams/in/OutputToInputStream.java:162-165 | Any call keeps the invariant and never clears resultChecked. A call raises the writer's failure only if it is the one that sets resultChecked. |
| OutputToInputProps.ReportedAtMostOnce | src/main/java/org/iostreams/streams/in/OutputToInputStream.java:162-165 | Over any sequence of reads, closes and writer steps, the writer's failure is raised at most once. It is never raised once the result has been checked. |
| OutputToInputProps.AfterReadFifo | src/main/java/org/iostreams/streams/in/OutputToInputStream.java:99-101 | The writer's steps after the pipe read, before the isDone() check and during the wait in get(), push their bytes behind the buffered ones. The sink stays open exactly when they only wrote, and the task ends as they say. |
| OutputToInputProps.ArrivedFifo | src/main/java/org/iostreams/streams/in/OutputToInputStream.java:82-86 | A read's first read initialises the stream, and the writer's steps while the pipe read waits push their bytes behind the buffered ones. The reader's end is as it was. |
| OutputToInputProps.ReadFifo | src/main/java/org/iostreams/streams/in/OutputToInputStream.java:82-89 | FIFO through one `read()`, under any interleaving: the bytes buffered before the call, followed by what the writer pushes during it, are the byte the pipe read took followed by what the pipe holds after. A read that returns normally returns that byte. |
| OutputToInputProps.ReadIntoStartedFifo | src/main/java/org/iostreams/streams/in/OutputToInputStream.java:99-100 | FIFO through the pipe read and the check of `read(b, off, len)` on an initialised stream: the old buffer and what the writer pushes after the pipe read are the copied bytes followed by the new buffer. |
| OutputToInputProps.ReadIntoFifo | src/main/java/org/iostreams/streams/in/OutputToInputStream.java:95-102 | FIFO through one `read(b, off, len)`, under any interleaving: the bytes buffered before the call, followed by what the writer pushes during it, are the copied bytes followed by what the pipe holds after. |
| OutputToInputProps.CallFifo | src/main/java/org/iostreams/streams/in/OutputToInputStream.java:82-102 | FIFO through any one read, close or writer step that leaves the reader's end open. |
| OutputToInputProps.Fifo | src/main/java/org/iostreams/streams/in/OutputToInputStream.java:82-102 | FIFO over any sequence of reads, closes and writer steps, however the writer's steps fall, while the reader's end stays open. The bytes buffered at the start, followed by every byte the writer wrote before closing its sink, are the bytes the reads took, in order, followed by what the pipe still holds. The writer task ends as its steps say. |
| OutputToInputProps.FifoThen | src/main/java/org/iostreams/streams/in/OutputToInputStream.java:82-102 | The bytes one read takes, followed by what later reads take from the state it leaves, stay a prefix of the buffered and pushed bytes across both, and equal them when the later reads take everything. |
| OutputToInputProps.ConsumeFifo | src/test/java/org/iostreams/streams/StreamsTestUtils.java:13-19 | For any starting state and any schedule of the writer beside the reads, the bytes `consumeAndCloseStream` reads are a prefix of the buffered bytes followed by everything the writer writes before closing its sink. They are all of them when nothing escapes, and the writer task ends as its steps say. |
| OutputToInputProps.ConsumeReports | src/test/java/org/iostreams/streams/StreamsTestUtils.java:13-19 | On a stream whose reader's end is open, `consumeAndCloseStream` always leaves the outcome checked. Something escapes exactly when the writer failed and its failure had not been raised before, and what escapes is that failure, wrapped. |
| OutputToInputProps.ConsumeNothingRead | src/test/java/org/iostreams/streams/StreamsTestUtils.java:13-19 | `consumeAndCloseStream` reads nothing when a finished writer's unreported failure is raised by the first read, and on a stream closed before, where an exception escapes. |
| OutputToInputProps.ReadAllFifo | src/test/java/org/iostreams/streams/in/OutputToInputStreamTest.java:144-153 | For any chunk size, any starting state and any schedule of the writer beside the reads, the reading loop collects a prefix of the buffered bytes followed by everything the writer writes before closing its sink. When nothing escapes it collects all of them and leaves the stream closed. |
| OutputToInputProps.ReadAllReports | src/test/java/org/iostreams/streams/in/OutputToInputStreamTest.java:144-153 | On a stream whose reader's end is open, the reading loop always leaves the outcome checked. Something escapes exactly when the writer failed and its failure had not been raised before, and what escapes is that failure, wrapped. |
| OutputToInputProps.ReadAllNothingRead | src/test/java/org/iostreams/streams/in/OutputToInputStreamTest.java:144-153 | The reading loop reads nothing when a finished writer's unreported failure is raised by the first read, and "Pipe closed" escapes on a stream closed before. |
| OutputToInputProps.ReadAllSucceeds | src/test/java/org/iostreams/streams/in/OutputToInputStreamTest.java:144-153 | On an open stream whose writer ends by returning normally, the reading loop collects every byte buffered or written before the sink closed, and nothing escapes. |
| OutputToInputProps.ReadIntoAfterWriter | src/main/java/org/iostreams/streams/in/OutputToInputStream.java:95-102 | A `read(b)` whose writer steps all run while its pipe read waits, and leave the writer finished, is the read of a finished stream. |
| OutputToInputProps.ReadAllAfterWriter | src/test/java/org/iostreams/streams/in/OutputToInputStreamTest.java:144-153 | A writer that runs to success while the first `read(b)` waits, leaving at most one buffer's worth, lets the reading loop finish in two reads. |
| OutputToInputProps.WriterRunsFirst | src/main/java/org/iostreams/streams/in/OutputToInputStream.java:136-148 | A routine that writes bytes into a fresh pipe with room for them, closes its sink and ends, all while the first read waits, leaves the read exactly those bytes and a finished writer. |
| OutputToInputProps.SimpleStringOutToIn | src/test/java/org/iostreams/streams/in/OutputToInputStreamTest.java:43-51 | The writer copies "test" into the sink, closes it and returns while the first read waits. `print()` with a 1024-byte buffer then reads "test" and no exception. |
| OutputToInputProps.ExceptionPropagationSchedule | src/test/java/org/iostreams/streams/in/OutputToInputStreamTest.java:54-70 | When the failing writer ends while the first `read()` waits, that schedule lets `consumeAndCloseStream` finish. |
| OutputToInputProps.ReadIntoFinished | src/main/java/org/iostreams/streams/in/OutputToInputStream.java:99-101 | A read into a buffer of n bytes, once the writer has finished, never waits. It takes the oldest buffered bytes, and takes some whenever there are any. |
| OutputToInputProps.ReadFinished | src/main/java/org/iostreams/streams/in/OutputToInputStream.java:86-87 | A single-byte read, once the writer has finished, never waits. |
| OutputToInputProps.ConsumeAndClose | src/test/java/org/iostreams/streams/StreamsTestUtils.java:13-19 | Reading with `read()` until -1 or an exception and then closing in `finally`, from a stream in any state with the writer running beside the reads as any schedule says. A size the pipe refuses gives IllegalArgumentException and reads nothing. Otherwise the stream ends closed, and a finished writer is left as it was. `ConsumeFifo` and `ConsumeReports` state the bytes and the exception. |
| OutputToInputProps.ReadAllChunks | src/test/java/org/iostreams/streams/in/OutputToInputStreamTest.java:144-153 | Reading with `read(buf)` in chunks of any size while the count is positive, then closing, from a stream in any state with the writer running beside the reads as any schedule says. A size the pipe refuses gives IllegalArgumentException and reads nothing, and a finished writer is left as it was. `ReadAllFifo` and `ReadAllReports` state the bytes and the exception. |
| OutputToInputProps.RoundTrip | src/test/java/org/iostreams/streams/in/OutputToInputStreamTest.java:43-51 | Take a writer that writes any bytes, then closes its sink or ends, and in the end returns normally. For any pipe size, any chunk size, and any schedule of its steps across and during the reads, reading its stream to the end gives back exactly those bytes, in order, and no exception. |
| OutputToInputProps.ExceptionPropagation | src/test/java/org/iostreams/streams/in/OutputToInputStreamTest.java:54-70 | When the writer throws `e` before writing anything, however its end falls among the reads, `consumeAndCloseStream` reads nothing and raises an IOException whose cause is `e` and whose message ends with e's message. |
| OutputToInputProps.WriterClosesBeforeReaderStarts | src/test/java/org/iostreams/streams/in/OutputToInputStreamTest.java:73-97 | After the writer writes 7 and closes its sink, the first read gives 7 without checking. The second read gives -1 once the writer returns, and close raises nothing. |
| OutputToInputProps.ReaderClosesBeforeWriterFinished | src/test/java/org/iostreams/streams/in/OutputToInputStreamTest.java:112-142 | The reader reads 1 and closes while the writer is running. The close neither checks nor waits, and the writer's next write fails with "Pipe closed". |
| OutputToInputProps.ZeroLengthReadAfterClose | src/main/java/org/iostreams/streams/in/OutputToInputStream.java:95-101 | A stream is read, then closed while its writer runs, and the writer then fails. `read()` gives "Pipe closed" and raises nothing of the writer's. `read(b, 0, 0)` raises the writer's failure, wrapped. |
| OutputToInputProps.CloseTwice | src/main/java/org/iostreams/streams/in/OutputToInputStream.java:117-128 | A second close changes nothing and raises nothing. |
| Bandwidth.ToLong | src/main/java/org/iostreams/streams/in/BandwidthMonitorInputStream.java:63 | Narrowing to a Java long gives a value in range that is congruent modulo 2^64, and leaves values in range as they are. |
| Bandwidth.Quotient | src/main/java/org/iostreams/streams/in/BandwidthMonitorInputStream.java:63 | Long division throws ArithmeticException exactly for a divisor of 0. Otherwise it rounds toward zero: for a positive divisor, the magnitude is the floor of the magnitudes' quotient and the sign follows the dividend. |
| Bandwidth.BytesPerSecAsWritten | src/main/java/org/iostreams/streams/in/BandwidthMonitorInputStream.java:59-64 | The source's rate is 0 while nothing is counted. It throws exactly when something is counted and no time has passed. |
| Bandwidth.BytesPerSec | src/main/java/org/iostreams/streams/out/BandwidthMonitorOutputStream.java:59-64 | The intended rate is 0 while nothing is counted. Otherwise it is the exact floor of total × 10^9 / elapsed. It is positive while less than `total` seconds have passed. |
| Bandwidth.AsWrittenAgrees | src/main/java/org/iostreams/streams/in/BandwidthMonitorInputStream.java:63 | While total × 10^9 fits in a long, the source's rate equals the intended one. |
| Bandwidth.AsWrittenGoesNegative | src/main/java/org/iostreams/streams/out/BandwidthMonitorOutputStream.java:63 | Once total × 10^9 exceeds Long.MAX_VALUE (up to 2^64), the source reports a rate that is not positive, although the intended rate is positive. |
| Bandwidth.RateOverflowExample | src/main/java/org/iostreams/streams/in/BandwidthMonitorInputStream.java:63 | 10^10 bytes over one second: the source reports -8446744073 instead of 10^10. |
| BandwidthInput.ReadCount | src/main/java/org/iostreams/streams/in/BandwidthMonitorInputStream.java:41 | The wrapped stream's read(b, off, len) returns -1 exactly at the end. Otherwise it returns a count no larger than the request or what is left, and smaller than the request only when it takes everything left. |
| BandwidthInput.SkipCount | src/main/java/org/iostreams/streams/in/BandwidthMonitorInputStream.java:50 | The wrapped stream skips nothing for a request that is not positive, the requested amount when that much is left, and otherwise all that is left. |
| BandwidthInput.ByteArrayInputStream.constructor | src/main/java/org/iostreams/streams/in/StringInputStream.java:47-50 | A new stream starts at the first byte. |
| BandwidthInput.ByteArrayInputStream.Read | src/main/java/org/iostreams/streams/in/BandwidthMonitorInputStream.java:23 | read() gives the byte at the position and advances, or gives -1 at the end and stays. |
| BandwidthInput.ByteArrayInputStream.ReadInto | src/main/java/org/iostreams/streams/in/BandwidthMonitorInputStream.java:41 | Out-of-bounds arguments are refused and change nothing. Otherwise the call copies the next `ReadCount` bytes to b[off..], leaves the rest of b alone, and advances by that many. |
| BandwidthInput.ByteArrayInputStream.Skip | src/main/java/org/iostreams/streams/in/BandwidthMonitorInputStream.java:50 | skip advances by `SkipCount` and returns it. |
| BandwidthInput.BandwidthMonitorInputStream.constructor | src/main/java/org/iostreams/streams/in/BandwidthMonitorInputStream.java:17-19 | A fresh monitor has counted 0. |
| BandwidthInput.BandwidthMonitorInputStream.Read | src/main/java/org/iostreams/streams/in/BandwidthMonitorInputStream.java:22-28 | The wrapped stream's value is returned unchanged. A byte adds 1 to the count and end of stream adds nothing. The count stays the distance the wrapped stream has moved. |
| BandwidthInput.BandwidthMonitorInputStream.ReadArray | src/main/java/org/iostreams/streams/in/BandwidthMonitorInputStream.java:31-37 | read(b) fills b from its start with the next bytes. The count grows by exactly the returned n, and by nothing at -1. |
| BandwidthInput.BandwidthMonitorInputStream.ReadInto | src/main/java/org/iostreams/streams/in/BandwidthMonitorInputStream.java:40-46 | The count grows by exactly the returned n, and by nothing at -1. It also grows by nothing when the wrapped stream throws, and then the array is unchanged. |
| BandwidthInput.BandwidthMonitorInputStream.Skip | src/main/java/org/iostreams/streams/in/BandwidthMonitorInputStream.java:49-53 | The count grows by exactly what the wrapped stream skipped. |
| BandwidthInput.BandwidthMonitorInputStream.GetTotalBytesRead | src/main/java/org/iostreams/streams/in/BandwidthMonitorInputStream.java:55-57 | The total equals the number of bytes the wrapped stream has advanced since the monitor was created. |
| BandwidthInput.BandwidthMonitorInputStream.GetBytesPerSec | src/main/java/org/iostreams/streams/in/BandwidthMonitorInputStream.java:59-64 | The rate is 0 while nothing is counted, and otherwise the intended rate of the total. |
| BandwidthInput.ConsumeAndClose | src/test/java/org/iostreams/streams/in/BandwidthMonitorInputStreamTest.java:19-27 | Reading single bytes to the end counts every byte past the position the monitor started at. For the test's fresh stream that is every byte the wrapped stream held. |
| BandwidthInput.ReadUntilEnd | src/test/java/org/iostreams/streams/in/BandwidthMonitorInputStreamTest.java:42-56 | Reading chunks of any positive size until -1 counts every byte past the position the monitor started at. |
| BandwidthInput.ReadWithSkip | src/test/java/org/iostreams/streams/in/BandwidthMonitorInputStreamTest.java:59-80 | On "diamond", the count is 2 after reading two bytes, 5 after skipping three and 7 at the end. |
| BandwidthOutput.ByteSink.constructor | src/test/java/org/iostreams/streams/out/BandwidthMonitorOutputStreamTest.java:36 | A new sink holds nothing. |
| BandwidthOutput.ByteSink.Write | src/main/java/org/iostreams/streams/out/BandwidthMonitorOutputStream.java:39 | write(b) appends the low eight bits of b, or fails with IOException and keeps nothing. |
| BandwidthOutput.ByteSink.WriteRange | src/main/java/org/iostreams/streams/out/BandwidthMonitorOutputStream.java:51 | write(b, off, len) appends exactly b[off..off + len]. Out-of-bounds arguments are refused, and a failing sink keeps nothing. |
| BandwidthOutput.BandwidthMonitorOutputStream.constructor | src/main/java/org/iostreams/streams/out/BandwidthMonitorOutputStream.java:33-35 | A fresh monitor has counted 0 and written nothing. |
| BandwidthOutput.BandwidthMonitorOutputStream.Write | src/main/java/org/iostreams/streams/out/BandwidthMonitorOutputStream.java:38-41 | write(int) appends one byte to the sink and adds 1. When the sink fails, nothing is written and the total is unchanged. The sink stays "what it held before + everything written", and the count stays the length of what was written. |
| BandwidthOutput.BandwidthMonitorOutputStream.WriteArray | src/main/java/org/iostreams/streams/out/BandwidthMonitorOutputStream.java:44-47 | write(b) appends all of b and adds b.length. When the sink fails, it appends and adds nothing. |
| BandwidthOutput.BandwidthMonitorOutputStream.WriteRange | src/main/java/org/iostreams/streams/out/BandwidthMonitorOutputStream.java:50-53 | write(b, off, len) appends exactly b[off..off + len] and adds len. Out-of-bounds arguments and a failing sink add nothing. |
| BandwidthOutput.BandwidthMonitorOutputStream.GetTotalBytesWritten | src/main/java/org/iostreams/streams/out/BandwidthMonitorOutputStream.java:55-57 | The total equals the number of bytes the sink gained since the monitor was created. |
| BandwidthOutput.BandwidthMonitorOutputStream.GetBytesPerSec | src/main/java/org/iostreams/streams/out/BandwidthMonitorOutputStream.java:59-64 | The rate is 0 while nothing is counted, and otherwise the intended rate of the total. |
| BandwidthOutput.WriteSingleByteAtATime | src/test/java/org/iostreams/streams/out/BandwidthMonitorOutputStreamTest.java:35-57 | Writing 0..9 one at a time leaves the sink holding 0..9, in order, and a count of 10. |
| BandwidthOutput.WriteWithOffset | src/test/java/org/iostreams/streams/out/BandwidthMonitorOutputStreamTest.java:75-92 | From {0,1,1,2,3,5,8,13}, writing (0,2) gives {0,1} and a count of 2. Writing (4,3) next gives {0,1,3,5,8} and a count of 5. |

The four adapter rows that did not fit in the table:

- **OutputToInput.ReadStep**
  - The first read initialises the stream. A size that is not positive gives IllegalArgumentException and creates nothing.
  - The value returned is the oldest byte in the pipe once the writer's steps while the pipe read waits have run.
  - A closed stream gives "Pipe closed". On an open stream the only error is the writer's failure.
  - -1 is returned only once the result has been checked, with the pipe empty and the sink no longer taking bytes.
  - A finished writer that failed and has not been reported is raised instead of the value.
  - The outcome is raised only by the call that checks it.
- **OutputToInput.ReadIntoStep**
  - Initialisation and bounds errors are as for `ReadStep`.
  - The count is -1, 0, or the number of bytes copied. That number is at most len, and 0 only for a len of 0.
  - The copied bytes are the oldest bytes in the pipe once the writer's steps while the pipe read waits have run.
  - A closed stream gives "Pipe closed" for any len above 0. On an open stream, within bounds, the only error is the writer's failure.
  - -1 is returned only once the result has been checked, with the pipe empty and the sink no longer taking bytes.
  - A finished writer that failed and has not been reported is raised.
  - The outcome is raised only by the call that checks it.
- **OutputToInput.ReadIntoStarted**
  - It covers the pipe read and the check of read(b, off, len) on an initialised stream.
  - The bytes copied are a prefix of the buffer. The count is 0 only for a len of 0.
  - A closed stream gives "Pipe closed" for any len above 0. On an open stream, within bounds, the only error is the writer's failure.
  - The writer's steps after the pipe read and before the isDone() check run before the check looks at the writer.
  - The check fires as in `CheckStep`, and a failure is raised only by the call that checks it.
- **OutputToInput.CloseStep**
  - A stream that was never read is left as it is, and nothing is raised.
  - Otherwise the reader's end is closed and the buffer discarded.
  - A writer still running is neither checked nor waited for.
  - A finished writer is checked as at end of data, so an unreported failure is raised here. Any error close raises is that failure.

## Left out

- **Threads and the executor.** The writer's thread is the step environment described above. These are not modelled:
  - a custom `ExecutorService`;
  - an executor that rejects the writer task, and with it the `writerFuture == null` branch of `close()` (OutputToInputStream.java:119-122), which only such a rejection reaches.
- **Interrupts.** An interrupt while waiting in `Future.get()` (OutputToInputStream.java:166-167) is not modelled. Neither are other timing effects.
- **Logging.** `java.util.logging` calls have no effect on behaviour.
- **`System.nanoTime()`.** The elapsed time is the `elapsedNanos` parameter of `GetBytesPerSec`.
- **Pipe failures tied to thread liveness.** The pipe's "Write end dead" and "Read end dead" failures are not modelled. The pipe's internal circular buffer is a sequence.
- **Null arrays.** The `NullPointerException` from a null array argument is not modelled.
- **Counter width.** The monitors' `long` counters (`totalBytesRead`, `totalBytesWritten`) are unbounded naturals. Their overflow past 2^63 bytes is not modelled. The rate computation is in `long`; see Findings.
- **`close()` on the monitors.** `BandwidthMonitorInputStream` inherits `close()` from `FilterInputStream`, and closing a `ByteArrayInputStream` does nothing. The drivers therefore only read. `flush()` of the output monitor is inherited and not modelled.
- **`mark()`/`reset()` on the input monitor.** `BandwidthMonitorInputStream` inherits them from `FilterInputStream`, which forwards them to the wrapped stream. A `reset` moves the wrapped stream's position back and leaves `totalBytesRead` as it was. The monitor's `Valid()` invariant, count = position − starting position, holds only for a stream that is never reset, and these calls are not modelled.
- **Other files.** `DeleteOnCloseFileInputStream` (file deletion only) is not part of this model. `StringInputStream` adds nothing but an encoding over `ByteArrayInputStream`; its use as input is modelled by `ByteArrayInputStream`.
- **The wrapped streams.** The wrapped input stream is a `ByteArrayInputStream` in the model, and the wrapped output stream is a keep-all sink that may refuse every write. An arbitrary wrapped stream is not modelled.
- **The adapter's `read(byte[])`.** This overload is `InputStream.read(b, 0, b.length)`. It appears as `ReadIntoStep` with those arguments in `ReadAllChunks`; it has no member of its own.

## Findings

| source | as written | input that shows it | evidently intended | confidence | as-written member | corrected member |
|---|---|---|---|---|---|---|
| src/main/java/org/iostreams/streams/in/BandwidthMonitorInputStream.java:63 | `(totalBytesRead * 1000000000) / elapsed` is evaluated in `long`, so the product wraps once more than 9223372036 bytes have been read | totalBytesRead = 10000000000, elapsed = 1000000000 ns gives -8446744073 | the floor of total × 10^9 / elapsed, here 10000000000 | not executed; follows from Java's 64-bit `long` multiplication | Bandwidth.RateOverflowExample | Bandwidth.BytesPerSec |
| src/main/java/org/iostreams/streams/out/BandwidthMonitorOutputStream.java:63 | `(totalBytesWritten * 1000000000) / elapsed` wraps in the same way | totalBytesWritten = 10000000000, elapsed = 1000000000 ns gives -8446744073 | the floor of total × 10^9 / elapsed, here 10000000000 | not executed; follows from Java's 64-bit `long` multiplication | Bandwidth.AsWrittenGoesNegative | Bandwidth.BytesPerSec |

- **As written.** `Bandwidth.BytesPerSecAsWritten` models the source's computation.
  - `RateOverflowExample` exhibits the concrete input.
  - `AsWrittenGoesNegative` shows that every total past the threshold, up to twice it, gives a rate that is not positive.
- **Corrected.** `Bandwidth.BytesPerSec` is the corrected rate, and both monitors' `GetBytesPerSec` use it.
  - Its contract is the exact floor division.
  - `AsWrittenAgrees` shows that it agrees with the source wherever the product fits in a `long`.
