/** Where messages end, and how the workers end after a stop. */
module Endings {
  import opened Delivery
  import opened Conservation

  // ---- what fills the places a message never leaves -----------------------------------------------------

  predicate TearsPush(step: Step) {
    step == First(FirstPush(Torn)) || step == Retry(RetryPush(Torn))
  }

  predicate Writes(step: Step) {
    TearsPush(step) || step == First(FirstPush(Stored)) || step == Retry(RetryPush(Stored))
  }

  /** The message a step pops. */
  function Popped(s: State, step: Step): seq<Tracked>
    requires Enabled(s, step)
  {
    match step
    case Retry(Pop(k)) => [s.queue[k]]
    case Retry(PopRemains) => [s.remains[0]]
    case _ => []
  }

  function GivenUp(maxAttempts: int, ms: seq<Tracked>): seq<Tracked> {
    if ms != [] && ms[0].attempts >= maxAttempts then ms else []
  }

  /** Each of these places grows at the steps that end a message there, by that message, and at no others. */
  ghost predicate EndsFollow(s: State, step: Step, e: Ends)
    requires Enabled(s, step)
  {
    && e.delivered == s.ends.delivered
                      + (if step == First(FirstDelivers) then
                           [s.first.hand.msg.(calls := s.first.hand.msg.calls + 1)]
                         else if step == Retry(RetryDelivers) then
                           [RetryHand(s).msg.(calls := RetryHand(s).msg.calls + 1)]
                         else [])
    && e.abandoned == s.ends.abandoned + GivenUp(s.maxAttempts, Popped(s, step))
    && e.lostFirst == s.ends.lostFirst + (if step == First(FirstPush(Refused)) then [s.first.hand.msg] else [])
    && e.lostRetry == s.ends.lostRetry + (if step == Retry(RetryPush(Refused)) then [RetryHand(s).msg] else [])
    && e.overwritten == s.ends.overwritten + (if Writes(step) then s.remains else [])
    && e.dropped == s.ends.dropped
                    + (if step == Ingest && |s.channel| >= CHANNEL_CAPACITY then [Tracked(s.ingested, 0, 0)] else [])
    && e.crashed == s.ends.crashed
                    + (if step != Restart then []
                       else s.channel + ((if s.first.hand.Empty? then [] else [s.first.hand.msg])
                                         + if RetryHand(s).Empty? then [] else [RetryHand(s).msg]))
  }

  lemma WriteEnds(s: State, m: Tracked, w: Written)
    requires !w.Refused?
    ensures Write(s, m, w).ends == s.ends.(overwritten := s.ends.overwritten + s.remains)
  {
    assert s.remains == [] ==> s.ends.overwritten + s.remains == s.ends.overwritten;
  }

  lemma TakeUpEnds(s: State, m: Tracked)
    requires s.retry.phase.Round?
    ensures TakeUp(s, m).ends == s.ends.(abandoned := s.ends.abandoned + GivenUp(s.maxAttempts, [m]))
  {
    assert s.ends.abandoned + [] == s.ends.abandoned;
  }

  lemma FirstEnds(s: State, act: FirstAct)
    requires FirstEnabled(s, act)
    ensures EndsFollow(s, First(act), FirstApply(s, act).ends)
  {
    hide Write;
    match act
    case FirstPush(Stored) =>
      WriteEnds(s.(first := s.first.(hand := Empty, owes := [CountFailed, CountRetryTotal, CountLatency])),
                s.first.hand.msg, Stored);
    case FirstPush(Torn) =>
      WriteEnds(s.(first := s.first.(hand := Empty, owes := [CountLatency]), tornFirst := s.tornFirst + 1),
                s.first.hand.msg, Torn);
    case _ =>
  }

  lemma RetryEnds(s: State, act: RetryAct)
    requires RetryEnabled(s, act)
    ensures EndsFollow(s, Retry(act), RetryApply(s, act).ends)
  {
    match act
    case Pop(k) =>
      hide Write, TakeUp, GivenUp;
      TakeUpEnds(s.(queue := s.queue[..k] + s.queue[k + 1..]), s.queue[k]);
    case PopRemains =>
      hide Write, TakeUp, GivenUp;
      TakeUpEnds(s.(remains := s.remains[1..]), s.remains[0]);
    case RetryPush(w) =>
      hide Write, TakeUp;
      RetryPushEnds(s, w);
    case _ => hide Write, TakeUp;
  }

  lemma RetryPushEnds(s: State, w: Written)
    requires RetryEnabled(s, RetryPush(w))
    ensures EndsFollow(s, Retry(RetryPush(w)), RetryApply(s, RetryPush(w)).ends)
  {
    hide Write, TakeUp;
    if !w.Refused? {
      WriteEnds(s.(retry := s.retry.(phase := s.retry.phase.(hand := Empty),
                                     owes := [CountRetry, CountRetryTotal, CountLatency])),
                RetryHand(s).msg, w);
    }
  }

  lemma StepEnds(s: State, step: Step)
    requires Enabled(s, step)
    ensures EndsFollow(s, step, Apply(s, step).ends)
  {
    hide FirstEnabled, FirstApply, RetryEnabled, RetryApply;
    match step
    case First(act) => hide EndsFollow; FirstEnds(s, act);
    case Retry(act) => hide EndsFollow; RetryEnds(s, act);
    case _ =>
  }

  /** No refused push, no torn push and no restart. */
  predicate Uneventful(step: Step) {
    && step != First(FirstPush(Refused)) && step != Retry(RetryPush(Refused))
    && !TearsPush(step) && step != Restart
  }

  lemma StepRemains(s: State, step: Step)
    requires Enabled(s, step) && Uneventful(step) && s.remains == []
    ensures Apply(s, step).remains == []
  {
    hide EndsFollow;
    match step
    case First(act) => FirstRemains(s, act);
    case Retry(act) => RetryRemains(s, act);
    case _ =>
  }

  lemma FirstRemains(s: State, act: FirstAct)
    requires FirstEnabled(s, act) && act != FirstPush(Torn) && s.remains == []
    ensures FirstApply(s, act).remains == []
  {
  }

  lemma RetryRemains(s: State, act: RetryAct)
    requires RetryEnabled(s, act) && act != RetryPush(Torn) && s.remains == []
    ensures RetryApply(s, act).remains == []
  {
  }

  lemma {:induction false} RunLosesNothing(s: State, steps: seq<Step>)
    requires Legal(s, steps) && s.remains == [] && forall step | step in steps :: Uneventful(step)
    ensures var t := Run(s, steps);
            && t.remains == []
            && t.ends.lostFirst == s.ends.lostFirst && t.ends.lostRetry == s.ends.lostRetry
            && t.ends.overwritten == s.ends.overwritten && t.ends.crashed == s.ends.crashed
    decreases |steps|
  {
    hide Enabled, Apply, Uneventful;
    if steps != [] {
      assert steps[0] in steps && forall step | step in steps[1..] :: step in steps;
      StepRemains(s, steps[0]);
      UneventfulEnds(s, steps[0]);
      RunLosesNothing(Apply(s, steps[0]), steps[1..]);
    }
  }

  lemma UneventfulEnds(s: State, step: Step)
    requires Enabled(s, step) && Uneventful(step) && s.remains == []
    ensures var e := Apply(s, step).ends;
            && e.lostFirst == s.ends.lostFirst && e.lostRetry == s.ends.lostRetry
            && e.overwritten == s.ends.overwritten && e.crashed == s.ends.crashed
  {
    hide Apply, Enabled;
    StepEnds(s, step);
  }

  /**
   Over a run in which no push is refused or torn and the process lives on, every ingested message
   waits in the channel or the queue, is in a worker's hand, was delivered or abandoned, or was
   dropped on a full channel: it is in exactly one of these.
   */
  lemma NothingElseIsLost(maxAttempts: int, steps: seq<Step>, id: nat)
    requires Legal(Init(maxAttempts), steps) && forall step | step in steps :: Uneventful(step)
    ensures var s := Run(Init(maxAttempts), steps);
            Occurs(s.channel, id) + OccursInHand(s.first.hand, id) + Occurs(s.queue, id)
            + OccursInHand(RetryHand(s), id) + Occurs(s.ends.delivered, id) + Occurs(s.ends.abandoned, id)
            + Occurs(s.ends.dropped, id)
            == if id < s.ingested then 1 else 0
  {
    hide Legal, Run, Uneventful;
    RunLosesNothing(Init(maxAttempts), steps);
    EveryMessageInOnePlace(maxAttempts, steps, id);
    assert Occurs([], id) == 0;
  }

  /** A reset of the metrics is possible at any time and zeroes three counters; a stop signal stays. */
  lemma OtherSteps(s: State)
    ensures Enabled(s, ResetCounters) && Enabled(s, SignalStop)
    ensures var l := Apply(s, ResetCounters).metrics;
            && l.processed == l.failed == l.retried == 0
            && l.retryTotal == s.metrics.retryTotal && l.samples == s.metrics.samples
    ensures Apply(s, SignalStop).stopped && Apply(s.(stopped := true), CloseQueue).closed
  {
  }

  /** A restarted process has nothing in memory, its counters at zero, and the store as it was. */
  lemma RestartKeepsTheStore(s: State)
    ensures var t := Apply(s, Restart);
            && t.queue == s.queue && t.remains == s.remains && t.ingested == s.ingested
            && t.maxAttempts == s.maxAttempts && t.tornFirst == s.tornFirst
            && t.channel == [] && t.first.hand == Empty && t.retry.phase == Waiting
            && t.first.owes == t.retry.owes == [] && !t.first.gone && !t.retry.gone && !t.ingesterGone
            && !t.stopped && !t.closed
            && t.metrics.processed == t.metrics.failed == t.metrics.retried == t.metrics.retryTotal == 0
            && t.metrics.samples == 0
  {
  }

  // ---- after a stop -----------------------------------------------------------------------------------

  /** A pop that fails ends the round and leaves the messages where they are. */
  lemma FailedPopEndsRound(s: State)
    requires RetryEnabled(s, PopFails)
    ensures var t := RetryApply(s, PopFails);
            && t.retry.phase == Waiting && t.retry.owes == [] && !t.retry.gone
            && t.queue == s.queue && t.remains == s.remains && t.ends == s.ends
  {
  }

  /** A round has not popped more than it saw, and a worker that has gone is not in one. */
  predicate RetrySane(s: State) {
    && (s.retry.phase.Round? ==> |s.retry.phase.taken| <= |s.retry.phase.snapshot|)
    && (s.retry.gone ==> s.retry.phase.Waiting?)
    && (s.first.gone ==> s.first.hand.Empty?)
  }

  lemma FirstStaysSane(s: State, act: FirstAct)
    requires RetrySane(s) && FirstEnabled(s, act)
    ensures RetrySane(FirstApply(s, act))
  {
  }

  lemma RetryStaysSane(s: State, act: RetryAct)
    requires RetrySane(s) && RetryEnabled(s, act)
    ensures RetrySane(RetryApply(s, act))
  {
  }

  lemma {:induction false} RunStaysSane(s: State, steps: seq<Step>)
    requires RetrySane(s) && Legal(s, steps)
    ensures RetrySane(Run(s, steps))
    decreases |steps|
  {
    hide RetrySane, Enabled, Apply;
    if steps != [] {
      StepStaysSane(s, steps[0]);
      RunStaysSane(Apply(s, steps[0]), steps[1..]);
    }
  }

  lemma StepStaysSane(s: State, step: Step)
    requires RetrySane(s) && Enabled(s, step)
    ensures RetrySane(Apply(s, step))
  {
    hide FirstEnabled, FirstApply, RetryEnabled, RetryApply;
    match step
    case First(act) => FirstStaysSane(s, act);
    case Retry(act) => RetryStaysSane(s, act);
    case _ =>
  }

  /** How many steps of its own the retry worker has before it waits for a tick again. */
  function RetryWork(s: State): nat {
    |s.retry.owes|
    + match s.retry.phase
      case Waiting => 0
      case Entering => 1
      case Round(_, _, hand) => 1 + if hand.Sending? then 6 else if hand.Requeueing? then 5 else 0
  }

  /** Once the queue is closed each step of the retry worker is progress, but a tick, which does nothing. */
  lemma ClosedQueueWindsDown(s: State, act: RetryAct)
    requires s.closed && RetryEnabled(s, act)
    ensures RetryApply(s, act).closed
    ensures act.Tick? ==> RetryApply(s, act) == s
    ensures !act.Tick? && !act.RetryExits? ==> RetryWork(RetryApply(s, act)) < RetryWork(s)
  {
  }

  /** And it always has such a step, the last of which is its exit. */
  lemma NeverStuck(s: State) returns (act: RetryAct)
    requires s.stopped && s.closed && !s.retry.gone && RetrySane(s)
    ensures RetryEnabled(s, act) && !act.Tick?
    ensures act.RetryExits? <==> RetryWork(s) == 0
  {
    var w := s.retry;
    if w.owes != [] {
      act := RetryUpdate;
    } else {
      match w.phase
      case Waiting => act := RetryExits;
      case Entering => act := Enter(false);
      case Round(snapshot, taken, hand) =>
        act := if hand.Sending? then RetryFails
               else if hand.Requeueing? then RetryPush(Refused)
               else if |taken| < |snapshot| then PopFails
               else EndRound;
    }
  }

  lemma RetryKeepsStop(s: State, act: RetryAct)
    requires RetryEnabled(s, act)
    ensures var t := RetryApply(s, act);
            && t.stopped == s.stopped && t.first == s.first && t.ingesterGone == s.ingesterGone
            && (!act.RetryExits? ==> t.retry.gone == s.retry.gone)
            && (act.RetryExits? ==> t.retry.gone)
  {
  }

  /** So after a stop the retry worker leaves its loop by its own steps, whatever it was doing. */
  lemma {:induction false} RetryWorkerExits(s: State) returns (steps: seq<Step>)
    requires s.stopped && s.closed && !s.retry.gone && RetrySane(s)
    ensures |steps| <= RetryWork(s) + 1
    ensures forall step | step in steps :: step.Retry?
    ensures Legal(s, steps)
    ensures var t := Run(s, steps);
            t.retry.gone && t.stopped && t.closed && t.first == s.first && t.ingesterGone == s.ingesterGone
    decreases RetryWork(s)
  {
    hide RetryEnabled, RetryApply, RetryWork, RetrySane;
    var act := NeverStuck(s);
    var t := RetryApply(s, act);
    ClosedQueueWindsDown(s, act);
    RetryKeepsStop(s, act);
    RetryStaysSane(s, act);
    var rest := [];
    if !act.RetryExits? {
      rest := RetryWorkerExits(t);
    }
    steps := [Retry(act)] + rest;
    assert steps[1..] == rest;
  }

  /** The first worker: it finishes the message in its hand, makes its updates and leaves. */
  function FirstWork(s: State): nat {
    |s.first.owes| + if s.first.hand.Sending? then 6 else if s.first.hand.Requeueing? then 5 else 0
  }

  lemma FirstWindsDown(s: State, act: FirstAct)
    requires FirstEnabled(s, act) && !act.Take?
    ensures var t := FirstApply(s, act);
            && (!act.FirstExits? ==> FirstWork(t) < FirstWork(s) && t.first.gone == s.first.gone)
            && (act.FirstExits? ==> t.first.gone)
            && t.stopped == s.stopped && t.closed == s.closed
            && t.retry == s.retry && t.ingesterGone == s.ingesterGone
  {
  }

  lemma {:induction false} FirstWorkerExits(s: State) returns (steps: seq<Step>)
    requires s.stopped && !s.first.gone
    ensures forall step | step in steps :: step.First? && step != First(Take)
    ensures Legal(s, steps)
    ensures var t := Run(s, steps);
            t.first.gone && t.stopped && t.closed == s.closed && t.retry == s.retry && t.ingesterGone == s.ingesterGone
    decreases FirstWork(s)
  {
    hide FirstApply;
    var act := if s.first.owes != [] then FirstUpdate
               else if s.first.hand.Sending? then FirstFails
               else if s.first.hand.Requeueing? then FirstPush(Refused)
               else FirstExits;
    FirstWindsDown(s, act);
    hide FirstEnabled, FirstWork;
    var rest := [];
    if act != FirstExits {
      rest := FirstWorkerExits(FirstApply(s, act));
    }
    steps := [First(act)] + rest;
    assert steps[1..] == rest;
  }

  lemma {:induction false} RunConcat(s: State, a: seq<Step>, b: seq<Step>)
    requires Legal(s, a) && Legal(Run(s, a), b)
    ensures Legal(s, a + b) && Run(s, a + b) == Run(Run(s, a), b)
    decreases |a|
  {
    hide Enabled, Apply;
    if a == [] {
      assert a + b == b;
    } else {
      assert (a + b)[1..] == a[1..] + b;
      RunConcat(Apply(s, a[0]), a[1..], b);
    }
  }

  /** Wherever the program is when it is stopped, all three of its workers can leave their loops. */
  lemma StopEndsAllWorkers(maxAttempts: int, steps: seq<Step>) returns (ending: seq<Step>)
    requires Legal(Init(maxAttempts), steps)
    ensures var s := Run(Init(maxAttempts), steps);
            && Legal(s, [SignalStop, CloseQueue] + ending)
            && var t := Run(s, [SignalStop, CloseQueue] + ending);
               t.retry.gone && t.first.gone && t.ingesterGone && t.closed
  {
    hide RetrySane;
    assert RetrySane(Init(maxAttempts)) by { InitSane(maxAttempts); }
    RunStaysSane(Init(maxAttempts), steps);
    var s := Run(Init(maxAttempts), steps);
    var stop := [SignalStop, CloseQueue];
    assert stop[1..] == [CloseQueue] && [CloseQueue][1..] == [];
    var s1 := s.(stopped := true, closed := true);
    assert Legal(s, stop) && Run(s, stop) == s1;
    SaneWhenStopped(s);
    hide Legal, Run, Enabled, Apply;
    var retry := [];
    if !s1.retry.gone { retry := RetryWorkerExits(s1); } else { EmptyRun(s1); }
    var s2 := Run(s1, retry);
    var first := [];
    if !s2.first.gone { first := FirstWorkerExits(s2); } else { EmptyRun(s2); }
    var s3 := Run(s2, first);
    var ingester := if s3.ingesterGone then [] else [IngesterExits];
    IngesterLeaves(s3, ingester);
    RunConcat(s2, first, ingester);
    RunConcat(s1, retry, first + ingester);
    RunConcat(s, stop, retry + (first + ingester));
    ending := retry + (first + ingester);
  }

  lemma InitSane(maxAttempts: int)
    ensures RetrySane(Init(maxAttempts))
  {
  }

  lemma SaneWhenStopped(s: State)
    requires RetrySane(s)
    ensures RetrySane(s.(stopped := true, closed := true))
  {
  }

  lemma EmptyRun(s: State)
    ensures Legal(s, []) && Run(s, []) == s
  {
  }

  lemma IngesterLeaves(s: State, steps: seq<Step>)
    requires s.stopped && steps == if s.ingesterGone then [] else [IngesterExits]
    ensures Legal(s, steps) && Run(s, steps) == s.(ingesterGone := true)
  {
    if !s.ingesterGone {
      assert steps[1..] == [];
      assert s.(ingesterGone := true) == Apply(s, IngesterExits);
    }
  }
}
