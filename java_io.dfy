/** The vocabulary of java.io that the stream models share: byte values as
    streams hand them out, Option and Result wrappers, throwables, and the
    exceptions the streams raise. */
module JavaIO {

  /** A byte as InputStream.read() returns it and OutputStream.write(int)
      stores it: an unsigned value 0..255. */
  type byte = x: int | 0 <= x < 256

  /** What read() returns when the stream is exhausted. */
  const EndOfStream: int := -1

  datatype Option<+T> = None | Some(value: T)

  datatype Result<+T, +E> = Ok(value: T) | Err(error: E)

  /** A Java throwable: the name of its runtime class and its message, which may be null. */
  datatype Throwable = Throwable(className: string, message: Option<string>)

  /** Throwable.toString(): the class name, followed by ": " and the message when there is one. */
  function Describe(t: Throwable): (s: string)
    ensures StartsWith(s, t.className)
    ensures t.message.Some? ==> EndsWith(s, ": " + t.message.value)
    ensures t.message.None? ==> s == t.className
  {
    t.className + (if t.message.Some? then ": " + t.message.value else "")
  }

  /** Joining sequences groups either way. */
  lemma AppendAssoc<T>(a: seq<T>, b: seq<T>, c: seq<T>)
    ensures (a + b) + c == a + (b + c)
  {
  }

  predicate StartsWith(s: string, prefix: string) {
    |prefix| <= |s| && s[..|prefix|] == prefix
  }

  predicate EndsWith(s: string, suffix: string) {
    |suffix| <= |s| && s[|s| - |suffix|..] == suffix
  }

  /** The (off, len) arguments of read(b, off, len) or write(b, off, len) lie
      inside an array of `length` elements; otherwise the call throws
      IndexOutOfBoundsException before it touches anything. */
  predicate InBounds(length: int, off: int, len: int) {
    0 <= off && 0 <= len && len <= length - off
  }

  /** The exceptions the modelled streams throw. */
  datatype Error =
    | IOException(message: Option<string>, cause: Option<Throwable>)
    | IndexOutOfBounds   // an (off, len) pair outside the caller's array
    | IllegalArgument    // a pipe created with a size that is not positive
    | Arithmetic         // an integer division by zero

  /** The IOException a pipe raises once either of its ends is closed. */
  const PipeClosed: Error := IOException(Some("Pipe closed"), None)

  /** new IOException(cause): the cause is kept and its toString() becomes the message,
      so the message ends with the cause's own message. */
  function WrapCause(cause: Throwable): (e: Error)
    ensures e.IOException? && e.cause == Some(cause)
    ensures e.message.Some? && StartsWith(e.message.value, cause.className)
    ensures cause.message.Some? ==> EndsWith(e.message.value, cause.message.value)
  {
    var m := Describe(cause);
    assert cause.message.Some? ==> m[|m| - |cause.message.value|..] == (": " + cause.message.value)[2..];
    IOException(Some(m), Some(cause))
  }
}
