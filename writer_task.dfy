/** The writer task that OutputToInputStream submits to its executor: the
    user's write(sink) routine followed by sink.close(), whatever the routine
    did. The routine itself is code the adapter cannot see, so it is an
    environment that takes discrete steps against the pipe's sink; the
    Future the executor returns becomes the writer task's state. */
module WriterTask {
  import opened JavaIO
  import Channel

  /** How the routine ended: it returned, or it threw. A failure carries the
      cause of the ExecutionException that Future.get() raises, which may be absent. */
  datatype Outcome = Success | Failure(cause: Option<Throwable>)

  /** The writer's Future: still running, or done with a definite outcome. */
  datatype Task = Running | Done(outcome: Outcome)

  /** One step of the writer: sink.write(b), sink.close() from inside the
      routine, or the end of the writer task (the routine returns or throws, and
      the writer task closes the sink in its finally block and completes). */
  datatype Step = WriteByte(b: byte) | CloseSink | Finish(outcome: Outcome)

  /** A finished task takes no more steps, and a write only fires when it
      would not wait for room. */
  predicate Enabled(p: Channel.Pipe, t: Task, s: Step) {
    t.Running? && (s.WriteByte? ==> Channel.CanWrite(p))
  }

  /** The effect of one writer step on the pipe and the writer task. The result of
      a write (it fails with "Pipe closed" once an end is closed) goes to the
      routine, which decides its own next steps. */
  function Apply(p: Channel.Pipe, t: Task, s: Step): (r: (Channel.Pipe, Task))
    requires Channel.Valid(p) && Enabled(p, t, s)
    ensures Channel.Valid(r.0) && r.0.capacity == p.capacity && r.0.consumerClosed == p.consumerClosed
    ensures s.Finish? ==> r.0.producerClosed && r.1 == Done(s.outcome)
    ensures !s.Finish? ==> r.1 == Running
    ensures p.producerClosed ==> r.0.producerClosed
    ensures s.WriteByte? ==> r.0 == Channel.Write(p, s.b).0
    ensures !s.WriteByte? ==> r.0.buffer == p.buffer
    ensures p.buffer <= r.0.buffer
  {
    match s
    case WriteByte(b) => (Channel.Write(p, b).0, t)
    case CloseSink => (Channel.CloseProducer(p), t)
    case Finish(o) => (Channel.CloseProducer(p), Done(o))
  }

  /** Every step of `steps`, taken in order from (p, t), is enabled. */
  predicate EnabledAll(p: Channel.Pipe, t: Task, steps: seq<Step>)
    requires Channel.Valid(p)
    decreases |steps|
  {
    steps == [] ||
    (Enabled(p, t, steps[0]) &&
     var (p1, t1) := Apply(p, t, steps[0]); EnabledAll(p1, t1, steps[1..]))
  }

  /** The pipe and the writer task after the writer has taken `steps`. A task that
      ends up done has closed its sink; the reader's end is never touched. */
  function ApplyAll(p: Channel.Pipe, t: Task, steps: seq<Step>): (r: (Channel.Pipe, Task))
    requires Channel.Valid(p) && EnabledAll(p, t, steps)
    requires t.Done? ==> p.producerClosed
    ensures Channel.Valid(r.0) && r.0.capacity == p.capacity && r.0.consumerClosed == p.consumerClosed
    ensures r.1.Done? ==> r.0.producerClosed
    ensures p.producerClosed ==> r.0.producerClosed
    ensures t.Done? ==> r == (p, t)
    ensures p.buffer <= r.0.buffer
    decreases |steps|
  {
    if steps == [] then (p, t)
    else
      var (p1, t1) := Apply(p, t, steps[0]);
      ApplyAll(p1, t1, steps[1..])
  }

  /** The bytes the routine writes before it first closes the sink or ends. */
  function Payload(steps: seq<Step>): (bytes: seq<byte>)
    ensures |bytes| <= |steps|
  {
    if steps == [] || !steps[0].WriteByte? then []
    else [steps[0].b] + Payload(steps[1..])
  }

  /** The routine's steps `bytes` as one sink.write(b) each. */
  function WriteAll(bytes: seq<byte>): (steps: seq<Step>)
    ensures |steps| == |bytes|
    ensures forall k :: 0 <= k < |bytes| ==> steps[k] == WriteByte(bytes[k])
  {
    if bytes == [] then [] else [WriteByte(bytes[0])] + WriteAll(bytes[1..])
  }

  /** Every one of `steps` is a sink.write(b): none closes the sink or ends the routine. */
  predicate AllWrites(steps: seq<Step>) {
    forall k :: 0 <= k < |steps| ==> steps[k].WriteByte?
  }

  /** The writer task once `steps` have run from `t`: done with the outcome of
      the last Finish among them, or as it was when there is none. */
  function TaskAfter(t: Task, steps: seq<Step>): (r: Task)
    decreases |steps|
  {
    if steps == [] then t
    else TaskAfter(if steps[0].Finish? then Done(steps[0].outcome) else t, steps[1..])
  }

  /** Writes leave the writer task as it is. */
  lemma {:induction false} TaskAfterWrites(t: Task, steps: seq<Step>)
    requires AllWrites(steps)
    ensures TaskAfter(t, steps) == t
    decreases |steps|
  {
    if steps != [] {
      TaskAfterWrites(t, steps[1..]);
    }
  }

  /** Running two runs of steps one after the other is running them joined. */
  lemma {:induction false} TaskAfterAppend(t: Task, a: seq<Step>, b: seq<Step>)
    ensures TaskAfter(t, a + b) == TaskAfter(TaskAfter(t, a), b)
    decreases |a|
  {
    if a == [] {
      assert a + b == b;
    } else {
      assert (a + b)[0] == a[0] && (a + b)[1..] == a[1..] + b;
      TaskAfterAppend(if a[0].Finish? then Done(a[0].outcome) else t, a[1..], b);
    }
  }

  lemma AllWritesCons(a: seq<Step>)
    requires a != []
    ensures AllWrites(a) == (a[0].WriteByte? && AllWrites(a[1..]))
  {
    if a[0].WriteByte? && AllWrites(a[1..]) {
      forall k | 0 <= k < |a| ensures a[k].WriteByte? {
        if k > 0 { assert a[k] == a[1..][k - 1]; }
      }
    }
  }

  /** A joined run only writes when both parts only write. */
  lemma AllWritesAppend(a: seq<Step>, b: seq<Step>)
    ensures AllWrites(a + b) == (AllWrites(a) && AllWrites(b))
  {
    if AllWrites(a + b) {
      forall k | 0 <= k < |a| ensures a[k].WriteByte? {
        assert a[k] == (a + b)[k];
      }
      forall k | 0 <= k < |b| ensures b[k].WriteByte? {
        assert b[k] == (a + b)[|a| + k];
      }
    }
  }

  /** The bytes of a joined run: those of the first part, then, when the first
      part neither closed the sink nor ended, those of the second. */
  lemma {:induction false} PayloadAppend(a: seq<Step>, b: seq<Step>)
    ensures AllWrites(a + b) == (AllWrites(a) && AllWrites(b))
    ensures Payload(a + b) == Payload(a) + (if AllWrites(a) then Payload(b) else [])
    decreases |a|
  {
    AllWritesAppend(a, b);
    if a == [] {
      assert a + b == b;
    } else {
      assert (a + b)[1..] == a[1..] + b;
      assert (a + b)[0] == a[0];
      AllWritesCons(a);
      if a[0].WriteByte? {
        PayloadAppend(a[1..], b);
        var tail := if AllWrites(a[1..]) then Payload(b) else [];
        AppendAssoc([a[0].b], Payload(a[1..]), tail);
      }
    }
  }

  /** FIFO through the sink: while both ends are open, the writer's steps
      append exactly the bytes written before the sink is closed, in order;
      once either end is closed they add nothing. The sink stays open exactly
      when every step was a write, and the task ends as TaskAfter says. */
  lemma {:induction false} StepsAppendPayload(p: Channel.Pipe, t: Task, steps: seq<Step>)
    requires Channel.Valid(p) && EnabledAll(p, t, steps) && (t.Done? ==> p.producerClosed)
    ensures ApplyAll(p, t, steps).0.buffer ==
            p.buffer + (if Channel.SinkOpen(p) then Payload(steps) else [])
    ensures Channel.SinkOpen(ApplyAll(p, t, steps).0) == (Channel.SinkOpen(p) && AllWrites(steps))
    ensures ApplyAll(p, t, steps).1 == TaskAfter(t, steps)
    decreases |steps|
  {
    if steps != [] {
      var (p1, t1) := Apply(p, t, steps[0]);
      StepsAppendPayload(p1, t1, steps[1..]);
      PayloadAppend([steps[0]], steps[1..]);
      assert [steps[0]] + steps[1..] == steps;
      if Channel.SinkOpen(p) && steps[0].WriteByte? {
        assert p1.buffer == p.buffer + [steps[0].b];
      }
    }
  }

  lemma WriteAllSplit(bytes: seq<byte>, rest: seq<Step>)
    requires bytes != []
    ensures WriteAll(bytes) + rest == [WriteByte(bytes[0])] + (WriteAll(bytes[1..]) + rest)
  {
  }

  lemma {:induction false} PayloadOfWriteAll(bytes: seq<byte>, rest: seq<Step>)
    requires rest == [] || !rest[0].WriteByte?
    ensures Payload(WriteAll(bytes) + rest) == bytes
    decreases |bytes|
  {
    if bytes != [] {
      var tail := WriteAll(bytes[1..]) + rest;
      WriteAllSplit(bytes, rest);
      assert ([WriteByte(bytes[0])] + tail)[1..] == tail;
      PayloadOfWriteAll(bytes[1..], rest);
    }
  }

  /** A routine that writes `bytes`, then closes its sink or ends, and in
      the end returns normally: its payload is `bytes`, and its task
      succeeds. */
  lemma WriteAllThenSucceed(bytes: seq<byte>, rest: seq<Step>)
    requires rest != [] && !rest[0].WriteByte? && TaskAfter(Running, rest) == Done(Success)
    ensures Payload(WriteAll(bytes) + rest) == bytes
    ensures TaskAfter(Running, WriteAll(bytes) + rest) == Done(Success)
  {
    TaskAfterAppend(Running, WriteAll(bytes), rest);
    TaskAfterWrites(Running, WriteAll(bytes));
    PayloadOfWriteAll(bytes, rest);
  }

  /** Writes into a pipe with room for all of them and both ends open never
      wait, and append their bytes in order; whatever the routine does next
      then starts from that pipe. */
  lemma {:induction false} WritesThen(p: Channel.Pipe, bytes: seq<byte>, rest: seq<Step>)
    requires Channel.Valid(p) && !p.producerClosed && !p.consumerClosed
    requires |p.buffer| + |bytes| <= p.capacity
    ensures var p' := p.(buffer := p.buffer + bytes);
            Channel.Valid(p') &&
            (EnabledAll(p, Running, WriteAll(bytes) + rest) <==> EnabledAll(p', Running, rest)) &&
            (EnabledAll(p', Running, rest) ==> ApplyAll(p, Running, WriteAll(bytes) + rest) == ApplyAll(p', Running, rest))
    decreases |bytes|
  {
    if bytes == [] {
      assert WriteAll(bytes) + rest == rest;
      assert p.(buffer := p.buffer + bytes) == p;
    } else {
      var tail := WriteAll(bytes[1..]) + rest;
      var p1 := p.(buffer := p.buffer + [bytes[0]]);
      WriteAllSplit(bytes, rest);
      assert Apply(p, Running, WriteByte(bytes[0])) == (p1, Running);
      assert ([WriteByte(bytes[0])] + tail)[1..] == tail;
      WritesThen(p1, bytes[1..], rest);
      assert p1.(buffer := p1.buffer + bytes[1..]) == p.(buffer := p.buffer + bytes);
    }
  }

  /** A routine that writes `bytes` into a fresh pipe with room for them all
      and then returns: none of its writes waits, and when the writer task is done
      the pipe holds exactly those bytes, with the sink closed. */
  lemma WriteThenFinish(p: Channel.Pipe, bytes: seq<byte>, o: Outcome)
    requires Channel.Valid(p) && !p.producerClosed && !p.consumerClosed
    requires |p.buffer| + |bytes| <= p.capacity
    ensures EnabledAll(p, Running, WriteAll(bytes) + [Finish(o)])
    ensures ApplyAll(p, Running, WriteAll(bytes) + [Finish(o)]) ==
            (p.(buffer := p.buffer + bytes, producerClosed := true), Done(o))
  {
    var p' := p.(buffer := p.buffer + bytes);
    WritesThen(p, bytes, [Finish(o)]);
    assert ApplyAll(p', Running, [Finish(o)]) == ApplyAll(p'.(producerClosed := true), Done(o), []);
  }

  /** A routine that writes `bytes` into a pipe with room for them all,
      closes the sink itself and then ends: as WriteThenFinish, the sink
      being closed twice. */
  lemma WriteCloseThenFinish(p: Channel.Pipe, bytes: seq<byte>, o: Outcome)
    requires Channel.Valid(p) && !p.producerClosed && !p.consumerClosed
    requires |p.buffer| + |bytes| <= p.capacity
    ensures EnabledAll(p, Running, WriteAll(bytes) + [CloseSink, Finish(o)])
    ensures ApplyAll(p, Running, WriteAll(bytes) + [CloseSink, Finish(o)]) ==
            (p.(buffer := p.buffer + bytes, producerClosed := true), Done(o))
  {
    var p' := p.(buffer := p.buffer + bytes);
    var closed := p'.(producerClosed := true);
    WritesThen(p, bytes, [CloseSink, Finish(o)]);
    assert Apply(p', Running, CloseSink) == (closed, Running);
    assert Apply(closed, Running, Finish(o)) == (closed, Done(o));
    assert EnabledAll(closed, Running, [Finish(o)]) && ApplyAll(closed, Running, [Finish(o)]) == (closed, Done(o)) by {
      assert [Finish(o)][1..] == [];
    }
    assert EnabledAll(p', Running, [CloseSink, Finish(o)]) by {
      assert [CloseSink, Finish(o)][1..] == [Finish(o)];
    }
    assert ApplyAll(p', Running, [CloseSink, Finish(o)]) == (closed, Done(o)) by {
      assert [CloseSink, Finish(o)][1..] == [Finish(o)];
    }
  }
}
