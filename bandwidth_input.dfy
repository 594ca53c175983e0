/** BandwidthMonitorInputStream: a FilterInputStream that counts every byte
    read or skipped through it. The stream it wraps is a
    java.io.ByteArrayInputStream, a byte sequence with a cursor, which is
    what the monitor's tests wrap (a StringInputStream is one). */
module BandwidthInput {
  import opened JavaIO
  import Bandwidth

  /** What ByteArrayInputStream.read(b, off, len) returns with `remaining`
      bytes left and arguments inside the array: -1 at the end of the data,
      otherwise as many bytes as were asked for and are left. */
  function ReadCount(remaining: nat, len: nat): (n: int)
    ensures n == EndOfStream <==> remaining == 0
    ensures n != EndOfStream ==> 0 <= n <= len && n <= remaining && (n < len ==> n == remaining)
  {
    if remaining == 0 then EndOfStream else if len < remaining then len else remaining
  }

  /** What ByteArrayInputStream.skip(n) skips with `remaining` bytes left:
      nothing for a negative request, otherwise as much of it as is left. */
  function SkipCount(remaining: nat, n: int): (k: nat)
    ensures k <= remaining
    ensures n <= 0 ==> k == 0
    ensures 0 <= n <= remaining ==> k == n
    ensures n >= remaining ==> k == remaining
  {
    if n < remaining then (if n < 0 then 0 else n) else remaining
  }

  /** java.io.ByteArrayInputStream: the bytes `buf` and the position `pos`
      of the next one to hand out. */
  class ByteArrayInputStream {
    const buf: seq<byte>
    var pos: nat

    ghost predicate Valid()
      reads this
    {
      pos <= |buf|
    }

    constructor (buf: seq<byte>)
      ensures Valid() && this.buf == buf && pos == 0
    {
      this.buf := buf;
      pos := 0;
    }

    /** read(): the next byte, or -1 at the end. */
    method Read() returns (n: int)
      requires Valid()
      modifies this
      ensures Valid()
      ensures n == EndOfStream <==> old(pos) == |buf|
      ensures n != EndOfStream ==> n == buf[old(pos)] && pos == old(pos) + 1
      ensures n == EndOfStream ==> pos == old(pos)
    {
      if pos < |buf| {
        n := buf[pos];
        pos := pos + 1;
      } else {
        n := EndOfStream;
      }
    }

    /** read(b, off, len): refuses arguments outside `b`; otherwise copies the
        next ReadCount bytes to b[off..] and moves past them. */
    method ReadInto(b: array<byte>, off: int, len: int) returns (r: Result<int, Error>)
      requires Valid()
      modifies this, b
      ensures Valid()
      ensures !InBounds(b.Length, off, len) ==> r == Err(IndexOutOfBounds) && pos == old(pos) && b[..] == old(b[..])
      ensures InBounds(b.Length, off, len) ==>
                r == Ok(ReadCount(|buf| - old(pos), len)) &&
                pos == old(pos) + (if r.value == EndOfStream then 0 else r.value) &&
                forall j :: 0 <= j < b.Length ==>
                  b[j] == if off <= j < off + r.value then buf[old(pos) + j - off] else old(b[j])
    {
      if !InBounds(b.Length, off, len) {
        return Err(IndexOutOfBounds);
      }
      if pos >= |buf| {
        return Ok(EndOfStream);
      }
      var n := if len < |buf| - pos then len else |buf| - pos;
      forall j | off <= j < off + n {
        b[j] := buf[pos + j - off];
      }
      pos := pos + n;
      r := Ok(n);
    }

    /** skip(n): moves past SkipCount bytes and returns how many. */
    method Skip(n: int) returns (k: int)
      requires Valid()
      modifies this
      ensures Valid()
      ensures k == SkipCount(|buf| - old(pos), n) && pos == old(pos) + k
    {
      var left := |buf| - pos;
      var skipped := left;
      if n < left {
        skipped := if n < 0 then 0 else n;
      }
      pos := pos + skipped;
      k := skipped;
    }
  }

  /** The bandwidth monitor over `input`. `origin` is where the input stood
      when the monitor was created: every byte since then went through the
      monitor, so the count is exactly the distance the input has moved. */
  class BandwidthMonitorInputStream {
    const input: ByteArrayInputStream
    var totalBytesRead: nat
    ghost const origin: nat

    ghost predicate Valid()
      reads this, input
    {
      input.Valid() && origin <= input.pos && totalBytesRead == input.pos - origin
    }

    /** A fresh monitor has counted nothing. */
    constructor (input: ByteArrayInputStream)
      requires input.Valid()
      ensures Valid() && this.input == input && totalBytesRead == 0 && origin == input.pos
    {
      this.input := input;
      totalBytesRead := 0;
      origin := input.pos;
    }

    /** read(): the input's next byte, unchanged; a byte counts one, the end
        of the data nothing. */
    method Read() returns (n: int)
      requires Valid()
      modifies this, input
      ensures Valid()
      ensures n == EndOfStream <==> old(input.pos) == |input.buf|
      ensures n != EndOfStream ==> n == input.buf[old(input.pos)]
      ensures totalBytesRead == old(totalBytesRead) + (if n > EndOfStream then 1 else 0)
      ensures input.pos == old(input.pos) + (if n > EndOfStream then 1 else 0)
    {
      n := input.Read();
      if n > EndOfStream {
        totalBytesRead := totalBytesRead + 1;
      }
    }

    /** read(b): the input's read(b), which fills b from its start; the
        count grows by the number of bytes returned. */
    method ReadArray(b: array<byte>) returns (n: int)
      requires Valid()
      modifies this, input, b
      ensures Valid()
      ensures n == ReadCount(|input.buf| - old(input.pos), b.Length)
      ensures totalBytesRead == old(totalBytesRead) + (if n > EndOfStream then n else 0)
      ensures forall j :: 0 <= j < b.Length ==> b[j] == if j < n then input.buf[old(input.pos) + j] else old(b[j])
    {
      var r := input.ReadInto(b, 0, b.Length);
      n := r.value;
      if n > EndOfStream {
        totalBytesRead := totalBytesRead + n;
      }
    }

    /** read(b, off, len): the input's read(b, off, len); the count grows by
        the number of bytes returned, and not at all when the input throws. */
    method ReadInto(b: array<byte>, off: int, len: int) returns (r: Result<int, Error>)
      requires Valid()
      modifies this, input, b
      ensures Valid()
      ensures !InBounds(b.Length, off, len) ==> r == Err(IndexOutOfBounds) && totalBytesRead == old(totalBytesRead)
      ensures InBounds(b.Length, off, len) ==> r == Ok(ReadCount(|input.buf| - old(input.pos), len))
      ensures r.Ok? ==> totalBytesRead == old(totalBytesRead) + (if r.value > EndOfStream then r.value else 0)
      ensures r.Ok? ==> input.pos == old(input.pos) + (if r.value > EndOfStream then r.value else 0)
      ensures r.Ok? ==> forall j :: 0 <= j < b.Length ==>
                b[j] == if off <= j < off + r.value then input.buf[old(input.pos) + j - off] else old(b[j])
      ensures r.Err? ==> b[..] == old(b[..])
    {
      r := input.ReadInto(b, off, len);
      if r.Ok? && r.value > EndOfStream {
        totalBytesRead := totalBytesRead + r.value;
      }
    }

    /** skip(n): the input's skip(n); the count grows by what was actually skipped. */
    method Skip(n: int) returns (k: int)
      requires Valid()
      modifies this, input
      ensures Valid()
      ensures k == SkipCount(|input.buf| - old(input.pos), n)
      ensures totalBytesRead == old(totalBytesRead) + k
    {
      k := input.Skip(n);
      totalBytesRead := totalBytesRead + k;
    }

    method GetTotalBytesRead() returns (total: nat)
      requires Valid()
      ensures total == totalBytesRead == input.pos - origin
    {
      total := totalBytesRead;
    }

    /** getBytesPerSec(), `elapsedNanos` after the monitor was created. */
    method GetBytesPerSec(elapsedNanos: nat) returns (r: Result<nat, Error>)
      requires Valid()
      ensures r == Bandwidth.BytesPerSec(totalBytesRead, elapsedNanos)
      ensures totalBytesRead == 0 ==> r == Ok(0)
    {
      if totalBytesRead == 0 {
        return Ok(0);
      }
      r := Bandwidth.BytesPerSec(totalBytesRead, elapsedNanos);
    }
  }

  /** StreamsTestUtils.consumeAndCloseStream: read() until the end (closing a
      ByteArrayInputStream does nothing). Afterwards the monitor has counted
      every byte the input held past its origin. */
  method ConsumeAndClose(m: BandwidthMonitorInputStream)
    requires m.Valid()
    modifies m, m.input
    ensures m.Valid() && m.input.pos == |m.input.buf|
    ensures m.totalBytesRead == |m.input.buf| - m.origin
  {
    var n := m.Read();
    while n > EndOfStream
      invariant m.Valid() && n >= EndOfStream
      invariant n == EndOfStream ==> m.input.pos == |m.input.buf|
      decreases |m.input.buf| - m.input.pos + (if n > EndOfStream then 1 else 0)
    {
      n := m.Read();
    }
  }

  /** The tests' `while (read(buf, off, len) != -1)` loop, with a request of
      at least one byte. Afterwards the monitor has counted every byte the
      input held past its origin, whatever the chunk size. */
  method ReadUntilEnd(m: BandwidthMonitorInputStream, b: array<byte>, off: int, len: int)
    requires m.Valid() && InBounds(b.Length, off, len) && len > 0
    modifies m, m.input, b
    ensures m.Valid() && m.input.pos == |m.input.buf|
    ensures m.totalBytesRead == |m.input.buf| - m.origin
  {
    var r := m.ReadInto(b, off, len);
    while r.value != EndOfStream
      invariant m.Valid() && r.Ok?
      invariant r.value == EndOfStream ==> m.input.pos == |m.input.buf|
      decreases |m.input.buf| - m.input.pos + (if r.value != EndOfStream then 1 else 0)
    {
      r := m.ReadInto(b, off, len);
    }
  }

  /** BandwidthMonitorInputStreamTest.readWithSkip over the seven bytes of
      "diamond": two bytes read at an offset count 2, skipping 3 more makes
      5, and reading the rest in pairs makes 7, the input's length. */
  method ReadWithSkip() returns (afterRead: nat, afterSkip: nat, atEnd: nat)
    ensures afterRead == 2 && afterSkip == 5 && atEnd == 7
  {
    var input := new ByteArrayInputStream([100, 105, 97, 109, 111, 110, 100]);
    var m := new BandwidthMonitorInputStream(input);
    var b := new byte[4];
    var _ := m.ReadInto(b, 1, 2);
    afterRead := m.GetTotalBytesRead();
    var _ := m.Skip(3);
    afterSkip := m.GetTotalBytesRead();
    ReadUntilEnd(m, b, 0, 2);
    atEnd := m.GetTotalBytesRead();
  }
}
