/** The bounded byte channel between the writer task and the reader: a
    java.io.PipedInputStream together with the PipedOutputStream connected to
    it. Only the behaviour the adapter relies on is modelled: a FIFO of at
    most `capacity` bytes, and the two close flags. Blocking is not a value:
    an operation that would wait has a precondition saying when it may fire. */
module Channel {
  import opened JavaIO

  /** `buffer` holds the bytes written and not yet read, oldest first;
      `producerClosed` is set once the sink (the writer's end) is closed,
      `consumerClosed` once the reader's end is closed. */
  datatype Pipe = Pipe(buffer: seq<byte>, capacity: nat, producerClosed: bool, consumerClosed: bool)

  /** The buffer never holds more than the capacity, and closing the
      reader's end discards what was still buffered. */
  predicate Valid(p: Pipe) {
    0 < p.capacity && |p.buffer| <= p.capacity && (p.consumerClosed ==> p.buffer == [])
  }

  /** new PipedInputStream(size), with its sink connected: empty, both ends open.
      A size that is not positive is refused. */
  function Create(size: int): (r: Result<Pipe, Error>)
    ensures r.Err? <==> size <= 0
    ensures r.Err? ==> r.error == IllegalArgument
    ensures r.Ok? ==> Valid(r.value) && r.value.capacity == size && r.value.buffer == []
    ensures r.Ok? ==> !r.value.producerClosed && !r.value.consumerClosed
  {
    if size <= 0 then Err(IllegalArgument) else Ok(Pipe([], size, false, false))
  }

  /** The writer's sink still takes bytes: neither end of the pipe is closed. */
  predicate SinkOpen(p: Pipe) {
    !p.producerClosed && !p.consumerClosed
  }

  /** sink.write(b) returns or fails at once instead of waiting for room: the
      buffer has room, or one of the ends is closed. */
  predicate CanWrite(p: Pipe) {
    p.producerClosed || p.consumerClosed || |p.buffer| < p.capacity
  }

  /** sink.write(b): appends b at the end of the buffer, or fails with
      "Pipe closed" and changes nothing once either end is closed. */
  function Write(p: Pipe, b: byte): (r: (Pipe, Result<(), Error>))
    requires Valid(p) && CanWrite(p)
    ensures Valid(r.0) && r.0.capacity == p.capacity
    ensures r.1.Err? <==> p.producerClosed || p.consumerClosed
    ensures r.1.Err? ==> r.1.error == PipeClosed && r.0 == p
    ensures r.1.Ok? ==> r.0.buffer == p.buffer + [b]
    ensures r.0.producerClosed == p.producerClosed && r.0.consumerClosed == p.consumerClosed
  {
    if p.producerClosed || p.consumerClosed then (p, Err(PipeClosed))
    else (p.(buffer := p.buffer + [b]), Ok(()))
  }

  /** sink.close(): marks the writer's end closed; the buffered bytes stay
      readable. Closing twice is the same as closing once. */
  function CloseProducer(p: Pipe): (r: Pipe)
    requires Valid(p)
    ensures Valid(r) && r.producerClosed
    ensures r.buffer == p.buffer && r.capacity == p.capacity && r.consumerClosed == p.consumerClosed
    ensures p.producerClosed ==> r == p
  {
    p.(producerClosed := true)
  }

  /** PipedInputStream.close(): marks the reader's end closed and discards
      whatever was still buffered. Closing twice is the same as closing once. */
  function CloseConsumer(p: Pipe): (r: Pipe)
    requires Valid(p)
    ensures Valid(r) && r.consumerClosed && r.buffer == []
    ensures r.capacity == p.capacity && r.producerClosed == p.producerClosed
    ensures p.consumerClosed ==> r == p
  {
    p.(buffer := [], consumerClosed := true)
  }

  /** read() returns or fails at once: a byte is buffered, the writer's end is
      closed (end of data), or the reader's end is closed (an error). */
  predicate CanRead(p: Pipe) {
    p.consumerClosed || p.buffer != [] || p.producerClosed
  }

  /** PipedInputStream.read(): fails with "Pipe closed" once the reader's end
      is closed; otherwise returns the oldest buffered byte and removes it, or
      -1 when the buffer is empty and the writer's end is closed. */
  function Read(p: Pipe): (r: (Pipe, Result<int, Error>))
    requires Valid(p) && CanRead(p)
    ensures Valid(r.0) && r.0.capacity == p.capacity
    ensures r.0.producerClosed == p.producerClosed && r.0.consumerClosed == p.consumerClosed
    ensures r.1.Err? <==> p.consumerClosed
    ensures r.1.Err? ==> r.1.error == PipeClosed && r.0 == p
    ensures r.1.Ok? ==> -1 <= r.1.value < 256
    ensures r.1 == Ok(-1) <==> !p.consumerClosed && p.buffer == []
    ensures r.1 == Ok(-1) ==> p.producerClosed && r.0 == p
    ensures r.1.Ok? && r.1.value >= 0 ==> p.buffer == [r.1.value as byte] + r.0.buffer
  {
    if p.consumerClosed then (p, Err(PipeClosed))
    else if p.buffer == [] then (p, Ok(EndOfStream))
    else (p.(buffer := p.buffer[1..]), Ok(p.buffer[0]))
  }

  /** read(b, off, len) reaches the blocking read() of its first byte. */
  predicate ReadIntoWaits(length: int, off: int, len: int) {
    InBounds(length, off, len) && len > 0
  }

  /** PipedInputStream.read(b, off, len) into an array of `length` elements:
      arguments outside the array are refused, a length of 0 returns 0,
      otherwise the first byte is read as read() does and then as many
      further buffered bytes as fit are taken. The bytes copied into
      b[off..] are returned beside the count. */
  function ReadInto(p: Pipe, length: int, off: int, len: int): (r: (Pipe, Result<int, Error>, seq<byte>))
    requires Valid(p) && (ReadIntoWaits(length, off, len) ==> CanRead(p))
    ensures Valid(r.0) && r.0.capacity == p.capacity
    ensures r.0.producerClosed == p.producerClosed && r.0.consumerClosed == p.consumerClosed
    ensures !InBounds(length, off, len) <==> r.1 == Err(IndexOutOfBounds)
    ensures r.1.Err? && InBounds(length, off, len) <==> ReadIntoWaits(length, off, len) && p.consumerClosed
    ensures r.1.Err? ==> r.0 == p && r.2 == []
    ensures r.1.Err? && InBounds(length, off, len) ==> r.1.error == PipeClosed
    ensures r.1 == Ok(0) <==> InBounds(length, off, len) && len == 0
    ensures r.1 == Ok(-1) <==> ReadIntoWaits(length, off, len) && !p.consumerClosed && p.buffer == []
    ensures r.1.Ok? ==> r.1.value == |r.2| || (r.1.value == -1 && r.2 == [])
    ensures r.1.Ok? ==> -1 <= r.1.value <= len
    ensures r.1.Ok? && r.1.value > 0 ==> r.1.value == if len < |p.buffer| then len else |p.buffer|
    ensures p.buffer == r.2 + r.0.buffer
  {
    if !InBounds(length, off, len) then (p, Err(IndexOutOfBounds), [])
    else if len == 0 then (p, Ok(0), [])
    else
      var (p1, first) := Read(p);
      match first
      case Err(e) => (p1, Err(e), [])
      case Ok(c) =>
        if c < 0 then (p1, Ok(EndOfStream), [])
        else
          var n := if len < |p.buffer| then len else |p.buffer|;
          (p.(buffer := p.buffer[n..]), Ok(n), p.buffer[..n])
  }
}
