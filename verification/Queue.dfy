/** The queue interface, its errors, and the in-memory implementation. */
module Queue {

  datatype QueueError = QueueEmpty | QueueClosed | StorageFailure

  /** What one queue operation answers. */
  datatype Reply<+T> = Done | Item(msg: T) | Count(n: nat) | Failed(error: QueueError)

  datatype Op<+T> = Push(msg: T) | Pop | Peek | Size | Close

  /** A first-in first-out queue that can be closed for good. */
  datatype Fifo<T> = Fifo(messages: seq<T>, closed: bool)

  function FifoStep<T>(q: Fifo<T>, op: Op<T>): (Fifo<T>, Reply<T>) {
    match op
    case Close => (q.(closed := true), Done)
    case Push(msg) =>
      if q.closed then (q, Failed(QueueClosed)) else (q.(messages := q.messages + [msg]), Done)
    case Pop =>
      if q.closed then (q, Failed(QueueClosed))
      else if q.messages == [] then (q, Failed(QueueEmpty))
      else (q.(messages := q.messages[1..]), Item(q.messages[0]))
    case Peek =>
      if q.closed then (q, Failed(QueueClosed))
      else if q.messages == [] then (q, Failed(QueueEmpty))
      else (q, Item(q.messages[0]))
    case Size =>
      if q.closed then (q, Failed(QueueClosed)) else (q, Count(|q.messages|))
  }

  // ---- what makes it a queue -------------------------------------------------------------

  function FifoAfter<T>(q: Fifo<T>, ops: seq<Op<T>>): Fifo<T>
    decreases |ops|
  {
    if ops == [] then q else FifoAfter(FifoStep(q, ops[0]).0, ops[1..])
  }

  /** The messages whose push was acknowledged in a run. */
  function Accepted<T>(q: Fifo<T>, ops: seq<Op<T>>): seq<T>
    decreases |ops|
  {
    if ops == [] then []
    else
      var (q', r) := FifoStep(q, ops[0]);
      (if ops[0].Push? && r.Done? then [ops[0].msg] else []) + Accepted(q', ops[1..])
  }

  /** The messages that pops returned in a run. */
  function HandedOut<T>(q: Fifo<T>, ops: seq<Op<T>>): seq<T>
    decreases |ops|
  {
    if ops == [] then []
    else
      var (q', r) := FifoStep(q, ops[0]);
      (if ops[0].Pop? && r.Item? then [r.msg] else []) + HandedOut(q', ops[1..])
  }

  lemma Rearranged<T>(out: seq<T>, left: seq<T>, added: seq<T>, held: seq<T>, outs: seq<T>, adds: seq<T>, end: seq<T>)
    requires out + left == held + added
    requires outs + end == left + adds
    ensures (out + outs) + end == held + (added + adds)
  {
    calc {
      (out + outs) + end;
      out + (outs + end);
      (out + left) + adds;
      held + (added + adds);
    }
  }

  /** First in, first out: what was handed out and what still waits is what waited and what was accepted. */
  lemma {:induction false} FirstInFirstOut<T>(q: Fifo<T>, ops: seq<Op<T>>)
    ensures HandedOut(q, ops) + FifoAfter(q, ops).messages == q.messages + Accepted(q, ops)
    decreases |ops|
  {
    if ops != [] {
      var (q', r) := FifoStep(q, ops[0]);
      FirstInFirstOut(q', ops[1..]);
      var out := if ops[0].Pop? && r.Item? then [r.msg] else [];
      var added := if ops[0].Push? && r.Done? then [ops[0].msg] else [];
      Rearranged(out, q'.messages, added, q.messages,
                 HandedOut(q', ops[1..]), Accepted(q', ops[1..]), FifoAfter(q', ops[1..]).messages);
    }
  }

  /** Each operation succeeds on an open queue, but a pop or peek of an empty one, and none on a closed one. */
  lemma WhenOperationsSucceed<T>(q: Fifo<T>, op: Op<T>)
    ensures var (q', r) := FifoStep(q, op);
            && (q'.closed <==> q.closed || op.Close?)
            && (op.Close? ==> r == Done && q'.messages == q.messages)
            && (q.closed && !op.Close? ==> q' == q && r == Failed(QueueClosed))
            && (!q.closed && op.Push? ==> r == Done)
            && (!q.closed && op.Size? ==> r == Count(|q.messages|) && q' == q)
            && (!q.closed && (op.Pop? || op.Peek?) ==>
                  if q.messages == [] then r == Failed(QueueEmpty) && q' == q
                  else r == Item(q.messages[0]) && (op.Peek? ==> q' == q))
  {
  }

  class MemoryQueue<T> {
    var messages: seq<T>
    var closed: bool

    function View(): Fifo<T>
      reads this
    {
      Fifo(messages, closed)
    }

    constructor ()
      ensures View() == Fifo([], false)
    {
      messages := [];
      closed := false;
    }

    method Push(msg: T) returns (r: Reply<T>)
      modifies this
      ensures (View(), r) == FifoStep(old(View()), Op.Push(msg))
    {
      if closed {
        return Failed(QueueClosed);
      }
      messages := messages + [msg];
      return Done;
    }

    method Pop() returns (r: Reply<T>)
      modifies this
      ensures (View(), r) == FifoStep(old(View()), Op.Pop)
    {
      if closed {
        return Failed(QueueClosed);
      }
      if |messages| == 0 {
        return Failed(QueueEmpty);
      }
      r := Item(messages[0]);
      messages := messages[1..];
    }

    method Peek() returns (r: Reply<T>)
      ensures (View(), r) == FifoStep(View(), Op.Peek)
    {
      if closed {
        return Failed(QueueClosed);
      }
      if |messages| == 0 {
        return Failed(QueueEmpty);
      }
      return Item(messages[0]);
    }

    method Size() returns (r: Reply<T>)
      ensures (View(), r) == FifoStep(View(), Op.Size)
    {
      if closed {
        return Failed(QueueClosed);
      }
      return Count(|messages|);
    }

    method Close() returns (r: Reply<T>)
      modifies this
      ensures (View(), r) == FifoStep(old(View()), Op.Close)
    {
      closed := true;
      return Done;
    }
  }
}
