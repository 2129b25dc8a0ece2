/**
 The delivery protocol as interleaved atomic steps of its goroutines: one takes in updates, one
 makes the first attempt at each message, one runs the retry rounds, and Stop ends them all.
 They share the message channel, the retry queue and the metrics.
 */
module Delivery {

  /** A message under a unique identity, with its Attempts field and how often it was processed. */
  datatype Tracked = Tracked(id: nat, attempts: int, calls: nat)

  /** What a worker has in hand: nothing, a message being processed, or a failed one to be queued. */
  datatype Hand = Empty | Sending(msg: Tracked) | Requeueing(msg: Tracked)

  /** A counter update a worker still has to make. */
  datatype Update = CountProcessed | CountFailed | CountRetry | CountRetryTotal | CountLatency

  datatype Ledger = Ledger(processed: int, failed: int, retried: int, retryTotal: int, samples: nat)

  /**
   The retry worker: between ticks, between its two size checks, or in a round. A round remembers
   the queue at the size check and the messages it has popped since.
   */
  datatype Phase = Waiting | Entering | Round(snapshot: seq<Tracked>, taken: seq<Tracked>, hand: Hand)

  datatype FirstWorker = FirstWorker(hand: Hand, owes: seq<Update>, gone: bool)
  datatype RetryWorker = RetryWorker(phase: Phase, owes: seq<Update>, gone: bool)

  /**
   The places a message never leaves. A refused push loses its message; the next write to the queue
   overwrites the remains of a torn push; and a process that dies loses what it had in memory.
   */
  datatype Ends = Ends(delivered: seq<Tracked>, abandoned: seq<Tracked>, dropped: seq<Tracked>,
                       lostFirst: seq<Tracked>, lostRetry: seq<Tracked>,
                       overwritten: seq<Tracked>, crashed: seq<Tracked>)

  /**
   What a push leaves: the message queued; nothing; or, of the durable queue only, the message in its
   slot but the index not moved on, for which the pushing worker hears an error.
   */
  datatype Written = Stored | Refused | Torn

  /** Remains is the message of a torn push, which can be popped until another write takes its slot. */
  datatype State = State(
    maxAttempts: int,
    channel: seq<Tracked>,
    queue: seq<Tracked>,
    remains: seq<Tracked>,
    closed: bool,
    first: FirstWorker,
    retry: RetryWorker,
    ends: Ends,
    tornFirst: nat,
    metrics: Ledger,
    ingested: nat,
    stopped: bool,
    ingesterGone: bool)

  const CHANNEL_CAPACITY := 100

  datatype FirstAct = Take | FirstDelivers | FirstFails | FirstPush(w: Written) | FirstUpdate | FirstExits

  datatype RetryAct = Tick(sizeOk: bool) | Enter(sizeOk: bool) | Pop(k: nat) | PopRemains | PopFails
                    | RetryDelivers | RetryFails | RetryPush(w: Written) | RetryUpdate | EndRound | RetryExits

  /** Restart is the death of the process at any point and its start over the same directory. */
  datatype Step = Ingest | IngesterExits | First(f: FirstAct) | Retry(r: RetryAct)
                | ResetCounters | SignalStop | CloseQueue | Restart

  function Init(maxAttempts: int): State {
    State(maxAttempts, [], [], [], false, FirstWorker(Empty, [], false), RetryWorker(Waiting, [], false),
          Ends([], [], [], [], [], [], []), 0, Ledger(0, 0, 0, 0, 0), 0, false, false)
  }

  function Post(l: Ledger, u: Update): Ledger {
    match u
    case CountProcessed => l.(processed := l.processed + 1)
    case CountFailed => l.(failed := l.failed + 1)
    case CountRetry => l.(retried := l.retried + 1)
    case CountRetryTotal => l.(retryTotal := l.retryTotal + 1)
    case CountLatency => l.(samples := l.samples + 1)
  }

  function Tried(m: Tracked): Tracked {
    m.(calls := m.calls + 1)
  }

  function FailedOnce(m: Tracked): Tracked {
    m.(calls := m.calls + 1, attempts := m.attempts + 1)
  }

  /** What the retry worker holds outside the queue. */
  function RetryHand(s: State): Hand {
    if s.retry.phase.Round? then s.retry.phase.hand else Empty
  }

  // ---- the step relation ---------------------------------------------------------------
  // The queue refuses a push only once it is closed or its storage fails, and a pop may fail for
  // the same reasons; the workers leave their loops only at the stop signal.

  predicate FirstEnabled(s: State, act: FirstAct) {
    match act
    case Take => s.first.hand.Empty? && s.first.owes == [] && s.channel != [] && !s.first.gone
    case FirstDelivers => s.first.hand.Sending?
    case FirstFails => s.first.hand.Sending?
    case FirstPush(w) => s.first.hand.Requeueing? && (!w.Refused? ==> !s.closed)
    case FirstUpdate => s.first.owes != []
    case FirstExits => s.stopped && s.first.hand.Empty? && s.first.owes == [] && !s.first.gone
  }

  predicate AtLoopHead(w: RetryWorker) {
    w.phase.Round? && w.phase.hand.Empty? && w.owes == [] && !w.gone
  }

  predicate RetryEnabled(s: State, act: RetryAct) {
    var w := s.retry;
    match act
    case Tick(sizeOk) => w.phase.Waiting? && w.owes == [] && !w.gone && (sizeOk ==> !s.closed)
    case Enter(sizeOk) => w.phase.Entering? && (sizeOk ==> !s.closed)
    case Pop(k) => AtLoopHead(w) && |w.phase.taken| < |w.phase.snapshot| && !s.closed && k < |s.queue|
    case PopRemains => AtLoopHead(w) && |w.phase.taken| < |w.phase.snapshot| && !s.closed && s.remains != []
    case PopFails => AtLoopHead(w) && |w.phase.taken| < |w.phase.snapshot|
    case RetryDelivers => RetryHand(s).Sending?
    case RetryFails => RetryHand(s).Sending?
    case RetryPush(v) => RetryHand(s).Requeueing? && (!v.Refused? ==> !s.closed)
    case RetryUpdate => w.owes != []
    case EndRound => AtLoopHead(w) && |w.phase.taken| == |w.phase.snapshot|
    case RetryExits => s.stopped && w.phase.Waiting? && w.owes == [] && !w.gone
  }

  predicate Enabled(s: State, step: Step) {
    match step
    case Ingest => !s.ingesterGone
    case IngesterExits => s.stopped && !s.ingesterGone
    case First(act) => FirstEnabled(s, act)
    case Retry(act) => RetryEnabled(s, act)
    case ResetCounters => true
    case SignalStop => true
    case CloseQueue => s.stopped
    case Restart => true
  }

  /** A message written to its slot, over the remains of a torn push; queued, or the next remains. */
  function Write(s: State, m: Tracked, w: Written): State
    requires !w.Refused?
  {
    var s1 := if s.remains == [] then s else s.(ends := s.ends.(overwritten := s.ends.overwritten + s.remains));
    if w.Stored? then s1.(queue := s.queue + [m], remains := []) else s1.(remains := [m])
  }

  /** The retry worker with a message it has popped: in hand, or abandoned at the limit. */
  function TakeUp(s: State, m: Tracked): State
    requires s.retry.phase.Round?
  {
    var phase := s.retry.phase.(taken := s.retry.phase.taken + [m]);
    if m.attempts >= s.maxAttempts then
      s.(retry := s.retry.(phase := phase), ends := s.ends.(abandoned := s.ends.abandoned + [m]))
    else
      s.(retry := s.retry.(phase := phase.(hand := Sending(m))))
  }

  function InHand(h: Hand): seq<Tracked> {
    if h.Empty? then [] else [h.msg]
  }

  /** All that was in memory is gone, the counters included; the stored messages are still there. */
  function Restarted(s: State): State {
    s.(channel := [], closed := false, first := FirstWorker(Empty, [], false),
       retry := RetryWorker(Waiting, [], false),
       ends := s.ends.(crashed := s.ends.crashed + (s.channel + (InHand(s.first.hand) + InHand(RetryHand(s))))),
       metrics := Ledger(0, 0, 0, 0, 0), stopped := false, ingesterGone := false)
  }

  function Ingested(s: State): State {
    var m := Tracked(s.ingested, 0, 0);
    var s1 := s.(ingested := s.ingested + 1);
    if |s.channel| < CHANNEL_CAPACITY then s1.(channel := s.channel + [m])
    else s1.(ends := s.ends.(dropped := s.ends.dropped + [m]))
  }

  function FirstApply(s: State, act: FirstAct): State
    requires FirstEnabled(s, act)
  {
    var w := s.first;
    match act
    case Take => s.(channel := s.channel[1..], first := w.(hand := Sending(s.channel[0])))
    case FirstDelivers =>
      s.(first := w.(hand := Empty, owes := [CountProcessed, CountLatency]),
         ends := s.ends.(delivered := s.ends.delivered + [Tried(w.hand.msg)]))
    case FirstFails => s.(first := w.(hand := Requeueing(FailedOnce(w.hand.msg))))
    case FirstPush(Stored) =>
      Write(s.(first := w.(hand := Empty, owes := [CountFailed, CountRetryTotal, CountLatency])), w.hand.msg, Stored)
    case FirstPush(Torn) =>
      Write(s.(first := w.(hand := Empty, owes := [CountLatency]), tornFirst := s.tornFirst + 1), w.hand.msg, Torn)
    case FirstPush(Refused) =>
      s.(first := w.(hand := Empty, owes := [CountLatency]),
         ends := s.ends.(lostFirst := s.ends.lostFirst + [w.hand.msg]))
    case FirstUpdate => s.(metrics := Post(s.metrics, w.owes[0]), first := w.(owes := w.owes[1..]))
    case FirstExits => s.(first := w.(gone := true))
  }

  function RetryApply(s: State, act: RetryAct): State
    requires RetryEnabled(s, act)
  {
    var w := s.retry;
    match act
    case Tick(sizeOk) => if sizeOk && s.queue + s.remains != [] then s.(retry := w.(phase := Entering)) else s
    case Enter(sizeOk) =>
      var met := s.queue + s.remains;
      s.(retry := w.(phase := if sizeOk && met != [] then Round(met, [], Empty) else Waiting))
    case Pop(k) => TakeUp(s.(queue := s.queue[..k] + s.queue[k + 1..]), s.queue[k])
    case PopRemains => TakeUp(s.(remains := s.remains[1..]), s.remains[0])
    case PopFails => s.(retry := w.(phase := Waiting))
    case RetryDelivers =>
      s.(retry := w.(phase := w.phase.(hand := Empty), owes := [CountProcessed, CountLatency]),
         ends := s.ends.(delivered := s.ends.delivered + [Tried(w.phase.hand.msg)]))
    case RetryFails => s.(retry := w.(phase := w.phase.(hand := Requeueing(FailedOnce(w.phase.hand.msg)))))
    case RetryPush(v) =>
      var s1 := s.(retry := w.(phase := w.phase.(hand := Empty),
                               owes := [CountRetry, CountRetryTotal, CountLatency]));
      if v.Refused? then s1.(ends := s.ends.(lostRetry := s.ends.lostRetry + [w.phase.hand.msg]))
      else Write(s1, w.phase.hand.msg, v)
    case RetryUpdate => s.(metrics := Post(s.metrics, w.owes[0]), retry := w.(owes := w.owes[1..]))
    case EndRound => s.(retry := w.(phase := Waiting))
    case RetryExits => s.(retry := w.(gone := true))
  }

  function Apply(s: State, step: Step): State
    requires Enabled(s, step)
  {
    match step
    case Ingest => Ingested(s)
    case IngesterExits => s.(ingesterGone := true)
    case First(act) => FirstApply(s, act)
    case Retry(act) => RetryApply(s, act)
    case ResetCounters => s.(metrics := s.metrics.(processed := 0, failed := 0, retried := 0))
    case SignalStop => s.(stopped := true)
    case CloseQueue => s.(closed := true)
    case Restart => Restarted(s)
  }

  // ---- runs ------------------------------------------------------------------------

  predicate Legal(s: State, steps: seq<Step>)
    decreases |steps|
  {
    steps == [] || (Enabled(s, steps[0]) && Legal(Apply(s, steps[0]), steps[1..]))
  }

  function Run(s: State, steps: seq<Step>): State
    requires Legal(s, steps)
    decreases |steps|
  {
    if steps == [] then s else Run(Apply(s, steps[0]), steps[1..])
  }

  lemma {:induction false} RunAppend(s: State, steps: seq<Step>, step: Step)
    requires Legal(s, steps) && Enabled(Run(s, steps), step)
    ensures Legal(s, steps + [step]) && Run(s, steps + [step]) == Apply(Run(s, steps), step)
    decreases |steps|
  {
    hide Enabled, Apply;
    var longer := steps + [step];
    if steps == [] {
      assert longer[1..] == [];
    } else {
      assert longer[1..] == steps[1..] + [step];
      RunAppend(Apply(s, steps[0]), steps[1..], step);
    }
  }
}
