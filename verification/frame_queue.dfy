/** The hand-off between the audio callback and the processing loop: an
    unbounded `queue.Queue` of mono chunks, put at the tail by the callback and
    taken from the head by the worker with a timeout. */
module FrameQueue {
  import opened RollingBuffer

  /** The chunks waiting in the queue, oldest first. */
  type Queue = seq<seq<Sample>>

  /** What `get(timeout=0.1)` gives: the oldest chunk and the rest of the
      queue, or `queue.Empty` when nothing arrived within the timeout. */
  datatype Poll = Empty | Got(chunk: seq<Sample>, rest: Queue)

  /** `put(chunk)`: never blocks, never drops. */
  function Put(q: Queue, chunk: seq<Sample>): (r: Queue)
    ensures |r| == |q| + 1 && r[..|q|] == q && r[|q|] == chunk
  {
    q + [chunk]
  }

  /** `get`: the oldest chunk, or `Empty` on an empty queue. */
  function Get(q: Queue): (r: Poll)
    ensures r.Empty? <==> |q| == 0
    ensures r.Got? ==> [r.chunk] + r.rest == q
  {
    if |q| == 0 then Empty else Got(q[0], q[1..])
  }

  /** Every chunk of `chunks` put in order. */
  function PutAll(q: Queue, chunks: seq<seq<Sample>>): (r: Queue)
    ensures |r| == |q| + |chunks|
    decreases |chunks|
  {
    if |chunks| == 0 then q else PutAll(Put(q, chunks[0]), chunks[1..])
  }

  /** The chunks the worker takes, in order, when it calls `get` until the
      queue reports `Empty`. */
  function Drain(q: Queue): (r: seq<seq<Sample>>)
    ensures |r| == |q|
    decreases |q|
  {
    match Get(q)
    case Empty => []
    case Got(c, rest) => [c] + Drain(rest)
  }

  /** Putting appends at the tail. */
  lemma {:induction false} PutAllAppends(q: Queue, chunks: seq<seq<Sample>>)
    ensures PutAll(q, chunks) == q + chunks
    decreases |chunks|
  {
    if |chunks| > 0 {
      PutAllAppends(Put(q, chunks[0]), chunks[1..]);
      assert (q + [chunks[0]]) + chunks[1..] == q + chunks;
    }
  }

  /** Taking until empty yields the queue's chunks oldest first. */
  lemma {:induction false} DrainInOrder(q: Queue)
    ensures Drain(q) == q
    decreases |q|
  {
    if |q| > 0 {
      DrainInOrder(q[1..]);
    }
  }

  /** FIFO: the worker takes the chunks in exactly the order the callback put
      them, after whatever was already waiting. */
  lemma {:induction false} Fifo(q: Queue, chunks: seq<seq<Sample>>)
    ensures Drain(PutAll(q, chunks)) == q + chunks
  {
    PutAllAppends(q, chunks);
    DrainInOrder(q + chunks);
  }

  /** One call on the queue: the callback's `put(chunk)` or the worker's
      `get(timeout=0.1)`. */
  datatype Op = PutOp(chunk: seq<Sample>) | GetOp

  /** What a run of calls leaves behind: the chunks the worker took, in the
      order it took them, and the queue that is still waiting. */
  datatype Outcome = Outcome(taken: seq<seq<Sample>>, queue: Queue)

  /** The chunks put by a run of calls, in call order. */
  function Puts(ops: seq<Op>): (r: seq<seq<Sample>>)
    ensures |r| <= |ops|
  {
    if |ops| == 0 then []
    else Puts(ops[..|ops| - 1]) + (if ops[|ops| - 1].PutOp? then [ops[|ops| - 1].chunk] else [])
  }

  /** The number of `get` calls in a run. */
  function Gets(ops: seq<Op>): (r: nat)
    ensures r <= |ops|
  {
    if |ops| == 0 then 0
    else Gets(ops[..|ops| - 1]) + (if ops[|ops| - 1].GetOp? then 1 else 0)
  }

  /** Any interleaving of calls, starting from queue `q`; a `get` on an empty
      queue is the worker's timeout and takes nothing. */
  function Sim(q: Queue, ops: seq<Op>): (out: Outcome)
    ensures |out.taken| <= Gets(ops)
  {
    if |ops| == 0 then Outcome([], q)
    else
      var before := Sim(q, ops[..|ops| - 1]);
      match ops[|ops| - 1]
      case PutOp(c) => Outcome(before.taken, Put(before.queue, c))
      case GetOp =>
        match Get(before.queue)
        case Empty => Outcome(before.taken, before.queue)
        case Got(c, rest) => Outcome(before.taken + [c], rest)
  }

  /** FIFO under any interleaving: what the worker has taken, followed by what
      is still waiting, is exactly what was waiting at the start followed by
      every chunk put, in order. Nothing is lost, duplicated or reordered. */
  lemma {:induction false} FifoInterleaved(q: Queue, ops: seq<Op>)
    ensures Sim(q, ops).taken + Sim(q, ops).queue == q + Puts(ops)
  {
    if |ops| > 0 {
      var init := ops[..|ops| - 1];
      var last := ops[|ops| - 1];
      FifoInterleaved(q, init);
      var before := Sim(q, init);
      assert before.taken + before.queue == q + Puts(init);
      match last
      case PutOp(c) =>
        assert Puts(ops) == Puts(init) + [c];
        assert Sim(q, ops) == Outcome(before.taken, before.queue + [c]);
        AppendAssociative(before.taken, before.queue, [c]);
        AppendAssociative(q, Puts(init), [c]);
      case GetOp =>
        assert Puts(ops) == Puts(init);
        match Get(before.queue)
        case Empty =>
          assert Sim(q, ops) == before;
        case Got(c, rest) =>
          assert Sim(q, ops) == Outcome(before.taken + [c], rest);
          AppendAssociative(before.taken, [c], rest);
    }
  }

  /** From an empty queue, every `get` that found something took a chunk, and
      the worker never takes more chunks than were put. */
  lemma {:induction false} FifoFromEmpty(ops: seq<Op>)
    ensures Sim([], ops).taken + Sim([], ops).queue == Puts(ops)
    ensures |Sim([], ops).taken| <= |Puts(ops)|
  {
    FifoInterleaved([], ops);
  }
}
