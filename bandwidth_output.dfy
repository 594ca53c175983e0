/** BandwidthMonitorOutputStream: an OutputStream that forwards every write
    to the stream it wraps and then counts the bytes. The wrapped stream is a
    sink that keeps what it is given, as the ByteArrayOutputStream of the
    monitor's tests does, or that refuses every write with an IOException. */
module BandwidthOutput {
  import opened JavaIO
  import Bandwidth

  /** The IOException a failing sink throws. */
  const SinkFailure: Error := IOException(None, None)

  /** The stream the monitor wraps: `contents` is everything written to it,
      in order; a `failing` sink refuses every write and keeps nothing. */
  class ByteSink {
    var contents: seq<byte>
    const failing: bool

    constructor (failing: bool)
      ensures contents == [] && this.failing == failing
    {
      contents := [];
      this.failing := failing;
    }

    /** write(b): keeps the low eight bits of b. */
    method Write(b: int) returns (r: Result<(), Error>)
      modifies this
      ensures r.Err? <==> failing
      ensures r.Err? ==> r.error == SinkFailure && contents == old(contents)
      ensures r.Ok? ==> contents == old(contents) + [b % 256]
    {
      if failing {
        return Err(SinkFailure);
      }
      contents := contents + [b % 256];
      r := Ok(());
    }

    /** write(b, off, len): refuses arguments outside `b`; otherwise keeps
        b[off..off + len]. write(b) is write(b, 0, b.length). */
    method WriteRange(b: array<byte>, off: int, len: int) returns (r: Result<(), Error>)
      modifies this
      ensures !InBounds(b.Length, off, len) ==> r == Err(IndexOutOfBounds)
      ensures InBounds(b.Length, off, len) ==> (r.Err? <==> failing)
      ensures r.Err? ==> contents == old(contents)
      ensures r.Ok? ==> contents == old(contents) + b[off..off + len]
    {
      if !InBounds(b.Length, off, len) {
        return Err(IndexOutOfBounds);
      }
      if failing {
        return Err(SinkFailure);
      }
      contents := contents + b[off..off + len];
      r := Ok(());
    }
  }

  /** The bandwidth monitor over `output`. `written` is every byte that went
      through the monitor, in order, and `origin` what the sink held before:
      the sink holds exactly both, and the count is the length of `written`. */
  class BandwidthMonitorOutputStream {
    const output: ByteSink
    var totalBytesWritten: nat
    ghost var written: seq<byte>
    ghost const origin: seq<byte>

    ghost predicate Valid()
      reads this, output
    {
      output.contents == origin + written && totalBytesWritten == |written|
    }

    /** A fresh monitor has counted nothing. */
    constructor (output: ByteSink)
      ensures Valid() && this.output == output && totalBytesWritten == 0 && written == []
      ensures origin == output.contents
    {
      this.output := output;
      totalBytesWritten := 0;
      written := [];
      origin := output.contents;
    }

    /** write(b): forwards b, then counts one byte; a failed forward counts nothing. */
    method Write(b: int) returns (r: Result<(), Error>)
      requires Valid()
      modifies this, output
      ensures Valid()
      ensures r.Err? <==> output.failing
      ensures r.Ok? ==> written == old(written) + [b % 256] && totalBytesWritten == old(totalBytesWritten) + 1
      ensures r.Err? ==> written == old(written) && totalBytesWritten == old(totalBytesWritten)
    {
      r := output.Write(b);
      if r.Ok? {
        totalBytesWritten := totalBytesWritten + 1;
        written := written + [b % 256];
      }
    }

    /** write(b): forwards all of b, then counts b.length bytes. */
    method WriteArray(b: array<byte>) returns (r: Result<(), Error>)
      requires Valid()
      modifies this, output
      ensures Valid()
      ensures r.Err? <==> output.failing
      ensures r.Ok? ==> written == old(written) + b[..] && totalBytesWritten == old(totalBytesWritten) + b.Length
      ensures r.Err? ==> written == old(written) && totalBytesWritten == old(totalBytesWritten)
    {
      r := output.WriteRange(b, 0, b.Length);
      if r.Ok? {
        totalBytesWritten := totalBytesWritten + b.Length;
        written := written + b[..];
      }
    }

    /** write(b, off, len): forwards b[off..off + len], then counts len bytes;
        arguments outside `b` and a failed forward count nothing. */
    method WriteRange(b: array<byte>, off: int, len: int) returns (r: Result<(), Error>)
      requires Valid()
      modifies this, output
      ensures Valid()
      ensures !InBounds(b.Length, off, len) ==> r == Err(IndexOutOfBounds)
      ensures InBounds(b.Length, off, len) ==> (r.Err? <==> output.failing)
      ensures r.Ok? ==> written == old(written) + b[off..off + len] && totalBytesWritten == old(totalBytesWritten) + len
      ensures r.Err? ==> written == old(written) && totalBytesWritten == old(totalBytesWritten)
    {
      r := output.WriteRange(b, off, len);
      if r.Ok? {
        totalBytesWritten := totalBytesWritten + len;
        written := written + b[off..off + len];
      }
    }

    method GetTotalBytesWritten() returns (total: nat)
      requires Valid()
      ensures total == totalBytesWritten == |output.contents| - |origin|
    {
      total := totalBytesWritten;
    }

    /** getBytesPerSec(), `elapsedNanos` after the monitor was created. */
    method GetBytesPerSec(elapsedNanos: nat) returns (r: Result<nat, Error>)
      requires Valid()
      ensures r == Bandwidth.BytesPerSec(totalBytesWritten, elapsedNanos)
      ensures totalBytesWritten == 0 ==> r == Ok(0)
    {
      if totalBytesWritten == 0 {
        return Ok(0);
      }
      r := Bandwidth.BytesPerSec(totalBytesWritten, elapsedNanos);
    }
  }

  /** The bytes 0, 1, ..., n - 1. */
  function Counting(n: nat): (s: seq<byte>)
    requires n <= 256
    ensures |s| == n && forall k :: 0 <= k < n ==> s[k] == k
  {
    seq(n, k requires 0 <= k < n => k as byte)
  }

  /** BandwidthMonitorOutputStreamTest.writeSingleByteAtATime: writing 0..9
      one at a time into an empty sink; after each write the count and the
      sink's size are one more, and the sink ends up holding 0..9 in order. */
  method WriteSingleByteAtATime() returns (total: nat, contents: seq<byte>)
    ensures total == 10 && contents == Counting(10)
  {
    var sink := new ByteSink(false);
    var m := new BandwidthMonitorOutputStream(sink);
    var i := 0;
    while i < 10
      invariant 0 <= i <= 10
      invariant m.Valid() && m.origin == [] && !sink.failing && m.output == sink
      invariant sink.contents == Counting(i) && m.totalBytesWritten == i
    {
      var _ := m.Write(i);
      assert Counting(i + 1) == Counting(i) + [i % 256];
      i := i + 1;
    }
    total := m.GetTotalBytesWritten();
    contents := sink.contents;
  }

  /** BandwidthMonitorOutputStreamTest.writeWithOffset: from {0, 1, 1, 2, 3,
      5, 8, 13}, writing (0, 2) gives {0, 1} and a count of 2, then writing
      (4, 3) gives {0, 1, 3, 5, 8} and a count of 5. */
  method WriteWithOffset() returns (total1: nat, contents1: seq<byte>, total2: nat, contents2: seq<byte>)
    ensures total1 == 2 && contents1 == [0, 1]
    ensures total2 == 5 && contents2 == [0, 1, 3, 5, 8]
  {
    var sink := new ByteSink(false);
    var m := new BandwidthMonitorOutputStream(sink);
    var fibonacci := new byte[8] [0, 1, 1, 2, 3, 5, 8, 13];
    var _ := m.WriteRange(fibonacci, 0, 2);
    total1 := m.GetTotalBytesWritten();
    contents1 := sink.contents;
    var _ := m.WriteRange(fibonacci, 4, 3);
    total2 := m.GetTotalBytesWritten();
    contents2 := sink.contents;
  }
}
