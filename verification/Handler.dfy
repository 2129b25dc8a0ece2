/**
 The loop bodies of the message handler, run over the in-memory queue and the metrics, each shown
 to be a run of the delivery protocol.
 */
module Handler {
  import opened Delivery
  import opened Rounds
  import opened Queue
  import opened Metrics

  /** How one call of processMessage ends: its result, how long it took, and the clock afterwards. */
  datatype Outcome = Outcome(ok: bool, latency: int, now: int)

  // ---- runs of steps as one ---------------------------------------------------------------

  /** t follows from s by some first-in first-out run of the protocol. */
  ghost predicate Reaches(s: State, t: State) {
    exists steps :: Legal(s, steps) && FifoRun(steps) && Run(s, steps) == t
  }

  lemma ReachesItself(s: State)
    ensures Reaches(s, s)
  {
    assert Legal(s, []) && FifoRun([]) && Run(s, []) == s;
  }

  lemma ReachesStep(s: State, t: State, step: Step)
    requires Reaches(s, t) && Enabled(t, step) && InFifoOrder(step)
    ensures Reaches(s, Apply(t, step))
  {
    hide Legal, Run, Enabled, Apply, InFifoOrder;
    var steps :| Legal(s, steps) && FifoRun(steps) && Run(s, steps) == t;
    RunAppend(s, steps, step);
    assert FifoRun(steps + [step]);
  }

  /** One iteration of the retry round, from loop head to loop head. */
  function RetryIteration(t: State, ok: bool): State
    requires RetryEnabled(t, RetryAct.Pop(0))
  {
    var m, rest := t.queue[0], t.queue[1..];
    var w := t.retry.(phase := t.retry.phase.(taken := t.retry.phase.taken + [m]));
    var l := t.metrics;
    if m.attempts >= t.maxAttempts then
      t.(queue := rest, retry := w, ends := t.ends.(abandoned := t.ends.abandoned + [m]))
    else if ok then
      t.(queue := rest, retry := w, ends := t.ends.(delivered := t.ends.delivered + [Tried(m)]),
         metrics := l.(processed := l.processed + 1, samples := l.samples + 1))
    else
      t.(queue := rest + [FailedOnce(m)], retry := w,
         metrics := l.(retried := l.retried + 1, retryTotal := l.retryTotal + 1, samples := l.samples + 1))
  }

  /** One message taken from the channel by the first worker. */
  function FirstIteration(t: State, ok: bool): State
    requires FirstEnabled(t, Take)
  {
    var m := t.channel[0];
    var t1 := t.(channel := t.channel[1..]);
    var l := t.metrics;
    if ok then
      t1.(ends := t.ends.(delivered := t.ends.delivered + [Tried(m)]),
          metrics := l.(processed := l.processed + 1, samples := l.samples + 1))
    else if t.closed then
      t1.(ends := t.ends.(lostFirst := t.ends.lostFirst + [FailedOnce(m)]), metrics := l.(samples := l.samples + 1))
    else
      t1.(queue := t.queue + [FailedOnce(m)],
          metrics := l.(failed := l.failed + 1, retryTotal := l.retryTotal + 1, samples := l.samples + 1))
  }

  lemma ReachesFirst(s: State, t: State, act: FirstAct)
    requires Reaches(s, t) && FirstEnabled(t, act) && InFifoOrder(First(act))
    ensures Reaches(s, FirstApply(t, act))
  {
    hide FirstEnabled, FirstApply, Reaches;
    ReachesStep(s, t, First(act));
  }

  lemma ReachesRetry(s: State, t: State, act: RetryAct)
    requires Reaches(s, t) && RetryEnabled(t, act) && InFifoOrder(Retry(act))
    ensures Reaches(s, RetryApply(t, act))
  {
    hide RetryEnabled, RetryApply, Reaches;
    ReachesStep(s, t, Retry(act));
  }

  lemma DeliveredOnRetry(s: State, t: State)
    requires Reaches(s, t) && RetryEnabled(t, RetryDelivers) && t.retry.owes == []
    ensures var m, l := RetryHand(t).msg, t.metrics;
            Reaches(s, t.(retry := t.retry.(phase := t.retry.phase.(hand := Empty)),
                          ends := t.ends.(delivered := t.ends.delivered + [Tried(m)]),
                          metrics := l.(processed := l.processed + 1, samples := l.samples + 1)))
  {
    hide Reaches;
    ReachesRetry(s, t, RetryDelivers);
    var t1 := RetryApply(t, RetryDelivers);
    ReachesRetry(s, t1, RetryUpdate);
    var t2 := RetryApply(t1, RetryUpdate);
    ReachesRetry(s, t2, RetryUpdate);
    var m, l := RetryHand(t).msg, t.metrics;
    assert RetryApply(t2, RetryUpdate)
        == t.(retry := t.retry.(phase := t.retry.phase.(hand := Empty)),
              ends := t.ends.(delivered := t.ends.delivered + [Tried(m)]),
              metrics := l.(processed := l.processed + 1, samples := l.samples + 1));
  }

  lemma FailedOnRetry(s: State, t: State)
    requires Reaches(s, t) && RetryEnabled(t, RetryFails) && t.retry.owes == [] && !t.closed && t.remains == []
    ensures var m, l := RetryHand(t).msg, t.metrics;
            Reaches(s, t.(retry := t.retry.(phase := t.retry.phase.(hand := Empty)),
                          queue := t.queue + [FailedOnce(m)],
                          metrics := l.(retried := l.retried + 1, retryTotal := l.retryTotal + 1,
                                        samples := l.samples + 1)))
  {
    hide Reaches;
    ReachesRetry(s, t, RetryFails);
    var t1 := RetryApply(t, RetryFails);
    ReachesRetry(s, t1, RetryPush(Stored));
    var t2 := RetryApply(t1, RetryPush(Stored));
    ReachesRetry(s, t2, RetryUpdate);
    var t3 := RetryApply(t2, RetryUpdate);
    ReachesRetry(s, t3, RetryUpdate);
    var t4 := RetryApply(t3, RetryUpdate);
    ReachesRetry(s, t4, RetryUpdate);
    var m, l := RetryHand(t).msg, t.metrics;
    assert RetryApply(t4, RetryUpdate)
        == t.(retry := t.retry.(phase := t.retry.phase.(hand := Empty)),
              queue := t.queue + [FailedOnce(m)],
              metrics := l.(retried := l.retried + 1, retryTotal := l.retryTotal + 1, samples := l.samples + 1));
  }

  lemma RetryIterationReaches(s: State, t: State, ok: bool)
    requires Reaches(s, t) && RetryEnabled(t, RetryAct.Pop(0)) && t.remains == []
    ensures Reaches(s, RetryIteration(t, ok))
  {
    hide Reaches;
    ReachesRetry(s, t, RetryAct.Pop(0));
    var t1 := RetryApply(t, RetryAct.Pop(0));
    assert t.queue[..0] + t.queue[1..] == t.queue[1..];
    if t.queue[0].attempts < t.maxAttempts {
      if ok { DeliveredOnRetry(s, t1); } else { FailedOnRetry(s, t1); }
    }
  }

  lemma FailedFirst(s: State, t: State)
    requires Reaches(s, t) && FirstEnabled(t, FirstFails) && t.first.owes == [] && t.remains == []
    ensures var m, l := FailedOnce(t.first.hand.msg), t.metrics;
            var t1 := t.(first := t.first.(hand := Empty));
            Reaches(s, if t.closed then
                         t1.(ends := t.ends.(lostFirst := t.ends.lostFirst + [m]),
                             metrics := l.(samples := l.samples + 1))
                       else
                         t1.(queue := t.queue + [m],
                             metrics := l.(failed := l.failed + 1, retryTotal := l.retryTotal + 1,
                                           samples := l.samples + 1)))
  {
    hide Reaches;
    ReachesFirst(s, t, FirstFails);
    var t1 := FirstApply(t, FirstFails);
    var w := if t.closed then Refused else Stored;
    ReachesFirst(s, t1, FirstPush(w));
    var t2 := FirstApply(t1, FirstPush(w));
    ReachesFirst(s, t2, FirstUpdate);
    var t3 := FirstApply(t2, FirstUpdate);
    var m, l, idle := FailedOnce(t.first.hand.msg), t.metrics, t.(first := t.first.(hand := Empty));
    if t.closed {
      assert t3 == idle.(ends := t.ends.(lostFirst := t.ends.lostFirst + [m]),
                         metrics := l.(samples := l.samples + 1));
    } else {
      ReachesFirst(s, t3, FirstUpdate);
      var t4 := FirstApply(t3, FirstUpdate);
      ReachesFirst(s, t4, FirstUpdate);
      assert FirstApply(t4, FirstUpdate)
          == idle.(queue := t.queue + [m],
                   metrics := l.(failed := l.failed + 1, retryTotal := l.retryTotal + 1, samples := l.samples + 1));
    }
  }

  lemma DeliveredFirst(s: State, t: State)
    requires Reaches(s, t) && FirstEnabled(t, FirstDelivers) && t.first.owes == []
    ensures var m, l := Tried(t.first.hand.msg), t.metrics;
            Reaches(s, t.(first := t.first.(hand := Empty),
                          ends := t.ends.(delivered := t.ends.delivered + [m]),
                          metrics := l.(processed := l.processed + 1, samples := l.samples + 1)))
  {
    hide Reaches;
    ReachesFirst(s, t, FirstDelivers);
    var t1 := FirstApply(t, FirstDelivers);
    ReachesFirst(s, t1, FirstUpdate);
    var t2 := FirstApply(t1, FirstUpdate);
    ReachesFirst(s, t2, FirstUpdate);
    var m, l := Tried(t.first.hand.msg), t.metrics;
    assert FirstApply(t2, FirstUpdate)
        == t.(first := t.first.(hand := Empty),
              ends := t.ends.(delivered := t.ends.delivered + [m]),
              metrics := l.(processed := l.processed + 1, samples := l.samples + 1));
  }

  lemma FirstIterationReaches(s: State, t: State, ok: bool)
    requires Reaches(s, t) && FirstEnabled(t, Take) && t.remains == []
    ensures Reaches(s, FirstIteration(t, ok))
  {
    hide Reaches;
    ReachesFirst(s, t, Take);
    var t1 := FirstApply(t, Take);
    if ok {
      DeliveredFirst(s, t1);
    } else {
      FailedFirst(s, t1);
    }
  }

  // ---- what a whole round does to the queue it meets ----------------------------------------

  function RequeuedOne(max: int, m: Tracked, ok: bool): seq<Tracked> {
    if m.attempts < max && !ok then [FailedOnce(m)] else []
  }

  function DeliveredOne(max: int, m: Tracked, ok: bool): seq<Tracked> {
    if m.attempts < max && ok then [Tried(m)] else []
  }

  function AbandonedOne(max: int, m: Tracked): seq<Tracked> {
    if m.attempts >= max then [m] else []
  }

  /** The first n messages of a round, by what becomes of them. */
  function Requeued(max: int, ms: seq<Tracked>, outcomes: nat -> Outcome, n: nat): seq<Tracked>
    requires n <= |ms|
  {
    if n == 0 then [] else Requeued(max, ms, outcomes, n - 1) + RequeuedOne(max, ms[n - 1], outcomes(n - 1).ok)
  }

  function Delivered(max: int, ms: seq<Tracked>, outcomes: nat -> Outcome, n: nat): seq<Tracked>
    requires n <= |ms|
  {
    if n == 0 then [] else Delivered(max, ms, outcomes, n - 1) + DeliveredOne(max, ms[n - 1], outcomes(n - 1).ok)
  }

  function Abandoned(max: int, ms: seq<Tracked>, n: nat): seq<Tracked>
    requires n <= |ms|
  {
    if n == 0 then [] else Abandoned(max, ms, n - 1) + AbandonedOne(max, ms[n - 1])
  }

  lemma IterationEffect(t: State, ok: bool)
    requires RetryEnabled(t, RetryAct.Pop(0))
    ensures var u, m := RetryIteration(t, ok), t.queue[0];
            && u.queue == t.queue[1..] + RequeuedOne(t.maxAttempts, m, ok)
            && u.ends.delivered == t.ends.delivered + DeliveredOne(t.maxAttempts, m, ok)
            && u.ends.abandoned == t.ends.abandoned + AbandonedOne(t.maxAttempts, m)
            && u.ends.lostFirst == t.ends.lostFirst && u.ends.lostRetry == t.ends.lostRetry
            && u.retry == t.retry.(phase := t.retry.phase.(taken := t.retry.phase.taken + [m]))
            && u.maxAttempts == t.maxAttempts && u.closed == t.closed && u.remains == t.remains
  {
  }

  /** The protocol state after n iterations of a round. */
  function AfterIterations(t: State, outcomes: nat -> Outcome, n: nat): State {
    if n == 0 then t
    else
      var before := AfterIterations(t, outcomes, n - 1);
      if RetryEnabled(before, RetryAct.Pop(0)) then RetryIteration(before, outcomes(n - 1).ok) else before
  }

  lemma NextIteration(t: State, outcomes: nat -> Outcome, n: nat)
    requires RetryEnabled(AfterIterations(t, outcomes, n), RetryAct.Pop(0))
    ensures AfterIterations(t, outcomes, n + 1) == RetryIteration(AfterIterations(t, outcomes, n), outcomes(n).ok)
  {
  }

  /** A round that met ms and has popped its first n messages, at the head of its loop. */
  predicate InRound(t: State, ms: seq<Tracked>, n: nat)
    requires n <= |ms|
  {
    && t.retry == RetryWorker(Round(ms, ms[..n], Empty), [], false)
    && !t.closed && t.remains == [] && |t.queue| >= |ms| - n
  }

  lemma CanPop(t: State, ms: seq<Tracked>, n: nat)
    requires n < |ms| && InRound(t, ms, n)
    ensures RetryEnabled(t, RetryAct.Pop(0))
  {
  }

  lemma OutcomesNext(max: int, ms: seq<Tracked>, outcomes: nat -> Outcome, n: nat)
    requires n < |ms|
    ensures Requeued(max, ms, outcomes, n + 1)
         == Requeued(max, ms, outcomes, n) + RequeuedOne(max, ms[n], outcomes(n).ok)
    ensures Delivered(max, ms, outcomes, n + 1)
         == Delivered(max, ms, outcomes, n) + DeliveredOne(max, ms[n], outcomes(n).ok)
    ensures Abandoned(max, ms, n + 1) == Abandoned(max, ms, n) + AbandonedOne(max, ms[n])
  {
  }

  lemma OutcomesNone(max: int, ms: seq<Tracked>, outcomes: nat -> Outcome)
    ensures Requeued(max, ms, outcomes, 0) == Delivered(max, ms, outcomes, 0) == Abandoned(max, ms, 0) == []
  {
  }

  /** How many of the first n messages were tried, and of these how many with the given result. */
  function TriedBefore(max: int, ms: seq<Tracked>, outcomes: nat -> Outcome, ok: bool, n: nat): nat
    requires n <= |ms|
  {
    if n == 0 then 0
    else TriedBefore(max, ms, outcomes, ok, n - 1)
         + if ms[n - 1].attempts < max && outcomes(n - 1).ok == ok then 1 else 0
  }

  /** Message i, if it was tried and failed, is at its place among those that came back. */
  ghost predicate CameBack(max: int, ms: seq<Tracked>, outcomes: nat -> Outcome, i: nat, back: seq<Tracked>)
    requires i < |ms|
  {
    ms[i].attempts < max && !outcomes(i).ok ==>
      var k := TriedBefore(max, ms, outcomes, false, i);
      k < |back| && back[k] == ms[i].(attempts := ms[i].attempts + 1, calls := ms[i].calls + 1)
  }

  /** Message i, if it was tried with success, is at its place among the delivered. */
  ghost predicate WasDelivered(max: int, ms: seq<Tracked>, outcomes: nat -> Outcome, i: nat, done: seq<Tracked>)
    requires i < |ms|
  {
    ms[i].attempts < max && outcomes(i).ok ==>
      var k := TriedBefore(max, ms, outcomes, true, i);
      k < |done| && done[k] == ms[i].(calls := ms[i].calls + 1)
  }

  lemma StillThere(
    max: int, ms: seq<Tracked>, outcomes: nat -> Outcome, i: nat, list: seq<Tracked>, more: seq<Tracked>)
    requires i < |ms|
    ensures CameBack(max, ms, outcomes, i, list) ==> CameBack(max, ms, outcomes, i, list + more)
    ensures WasDelivered(max, ms, outcomes, i, list) ==> WasDelivered(max, ms, outcomes, i, list + more)
  {
    hide TriedBefore;
  }

  lemma FailureRequeued(max: int, ms: seq<Tracked>, outcomes: nat -> Outcome, n: nat)
    requires n < |ms| && |Requeued(max, ms, outcomes, n)| == TriedBefore(max, ms, outcomes, false, n)
    ensures var list := Requeued(max, ms, outcomes, n + 1);
            && list == Requeued(max, ms, outcomes, n) + RequeuedOne(max, ms[n], outcomes(n).ok)
            && |list| == TriedBefore(max, ms, outcomes, false, n + 1)
            && CameBack(max, ms, outcomes, n, list)
  {
  }

  lemma SuccessDelivered(max: int, ms: seq<Tracked>, outcomes: nat -> Outcome, n: nat)
    requires n < |ms| && |Delivered(max, ms, outcomes, n)| == TriedBefore(max, ms, outcomes, true, n)
    ensures var list := Delivered(max, ms, outcomes, n + 1);
            && list == Delivered(max, ms, outcomes, n) + DeliveredOne(max, ms[n], outcomes(n).ok)
            && |list| == TriedBefore(max, ms, outcomes, true, n + 1)
            && WasDelivered(max, ms, outcomes, n, list)
  {
  }

  lemma {:induction false} FailuresAreRequeued(max: int, ms: seq<Tracked>, outcomes: nat -> Outcome, n: nat)
    requires n <= |ms|
    ensures |Requeued(max, ms, outcomes, n)| == TriedBefore(max, ms, outcomes, false, n)
    ensures forall i: nat | i < n :: CameBack(max, ms, outcomes, i, Requeued(max, ms, outcomes, n))
  {
    if n > 0 {
      FailuresAreRequeued(max, ms, outcomes, n - 1);
      FailureRequeued(max, ms, outcomes, n - 1);
      hide Requeued, RequeuedOne, TriedBefore, CameBack;
      forall i: nat | i < n - 1 ensures CameBack(max, ms, outcomes, i, Requeued(max, ms, outcomes, n)) {
        StillThere(max, ms, outcomes, i, Requeued(max, ms, outcomes, n - 1),
                   RequeuedOne(max, ms[n - 1], outcomes(n - 1).ok));
      }
    }
  }

  lemma {:induction false} SuccessesAreDelivered(max: int, ms: seq<Tracked>, outcomes: nat -> Outcome, n: nat)
    requires n <= |ms|
    ensures |Delivered(max, ms, outcomes, n)| == TriedBefore(max, ms, outcomes, true, n)
    ensures forall i: nat | i < n :: WasDelivered(max, ms, outcomes, i, Delivered(max, ms, outcomes, n))
  {
    if n > 0 {
      SuccessesAreDelivered(max, ms, outcomes, n - 1);
      SuccessDelivered(max, ms, outcomes, n - 1);
      hide Delivered, DeliveredOne, TriedBefore, WasDelivered;
      forall i: nat | i < n - 1 ensures WasDelivered(max, ms, outcomes, i, Delivered(max, ms, outcomes, n)) {
        StillThere(max, ms, outcomes, i, Delivered(max, ms, outcomes, n - 1),
                   DeliveredOne(max, ms[n - 1], outcomes(n - 1).ok));
      }
    }
  }

  lemma {:induction false} RestIsAbandoned(max: int, ms: seq<Tracked>, outcomes: nat -> Outcome, n: nat)
    requires n <= |ms|
    ensures |Abandoned(max, ms, n)|
         == n - TriedBefore(max, ms, outcomes, false, n) - TriedBefore(max, ms, outcomes, true, n)
    ensures forall m | m in Abandoned(max, ms, n) :: m in ms[..n] && m.attempts >= max
  {
    if n > 0 {
      RestIsAbandoned(max, ms, outcomes, n - 1);
      assert ms[..n] == ms[..n - 1] + [ms[n - 1]];
    }
  }

  /**
   What becomes of the messages of a round: those that were tried and failed come back with one more
   attempt, those that were tried with success are delivered, in the order in which they were tried,
   and the others, which are at the limit, are abandoned.
   */
  lemma RoundSorts(max: int, ms: seq<Tracked>, outcomes: nat -> Outcome)
    ensures var back, done := Requeued(max, ms, outcomes, |ms|), Delivered(max, ms, outcomes, |ms|);
            var over := Abandoned(max, ms, |ms|);
            && |back| == TriedBefore(max, ms, outcomes, false, |ms|)
            && |done| == TriedBefore(max, ms, outcomes, true, |ms|)
            && |back| + |done| + |over| == |ms|
            && (forall i: nat | i < |ms| :: CameBack(max, ms, outcomes, i, back))
            && (forall i: nat | i < |ms| :: WasDelivered(max, ms, outcomes, i, done))
            && (forall m | m in over :: m in ms && m.attempts >= max)
  {
    hide Requeued, Delivered, Abandoned, CameBack, WasDelivered, TriedBefore;
    FailuresAreRequeued(max, ms, outcomes, |ms|);
    SuccessesAreDelivered(max, ms, outcomes, |ms|);
    RestIsAbandoned(max, ms, outcomes, |ms|);
    assert ms[..|ms|] == ms;
  }

  /** An undisturbed round handles each message of the queue it meets once, in order. */
  lemma {:induction false} RoundHandlesEachOnce(t: State, outcomes: nat -> Outcome, n: nat)
    requires InRound(t, t.queue, 0) && n <= |t.queue|
    ensures var u, ms := AfterIterations(t, outcomes, n), t.queue;
            && u.maxAttempts == t.maxAttempts && InRound(u, ms, n)
            && u.queue == ms[n..] + Requeued(t.maxAttempts, ms, outcomes, n)
            && u.ends.delivered == t.ends.delivered + Delivered(t.maxAttempts, ms, outcomes, n)
            && u.ends.abandoned == t.ends.abandoned + Abandoned(t.maxAttempts, ms, n)
            && u.ends.lostFirst == t.ends.lostFirst && u.ends.lostRetry == t.ends.lostRetry
  {
    hide Requeued, Delivered, Abandoned, RequeuedOne, DeliveredOne, AbandonedOne, RetryIteration, RetryEnabled;
    var ms, max := t.queue, t.maxAttempts;
    if n == 0 {
      OutcomesNone(max, ms, outcomes);
    } else {
      RoundHandlesEachOnce(t, outcomes, n - 1);
      var m, ok := ms[n - 1], outcomes(n - 1).ok;
      var before := AfterIterations(t, outcomes, n - 1);
      var requeued := Requeued(max, ms, outcomes, n - 1);
      CanPop(before, ms, n - 1);
      assert before.queue[0] == m && before.queue[1..] == ms[n..] + requeued;
      IterationEffect(before, ok);
      OutcomesNext(max, ms, outcomes, n - 1);
      Regroup(ms[n..], requeued, RequeuedOne(max, m, ok));
      Regroup(t.ends.delivered, Delivered(max, ms, outcomes, n - 1), DeliveredOne(max, m, ok));
      Regroup(t.ends.abandoned, Abandoned(max, ms, n - 1), AbandonedOne(max, m));
      assert ms[..n - 1] + [m] == ms[..n];
    }
  }

  /** One more iteration of a round, as a run of the protocol. */
  lemma RoundGoesOn(origin: State, start: State, outcomes: nat -> Outcome, i: nat)
    requires InRound(start, start.queue, 0) && i < |start.queue| && Reaches(origin, AfterIterations(start, outcomes, i))
    ensures var t := AfterIterations(start, outcomes, i);
            && RetryEnabled(t, RetryAct.Pop(0)) && t.queue != []
            && AfterIterations(start, outcomes, i + 1) == RetryIteration(t, outcomes(i).ok)
            && Reaches(origin, RetryIteration(t, outcomes(i).ok))
  {
    hide Reaches, RetryIteration, Requeued, Delivered, Abandoned;
    RoundHandlesEachOnce(start, outcomes, i);
    var t := AfterIterations(start, outcomes, i);
    CanPop(t, start.queue, i);
    NextIteration(start, outcomes, i);
    RetryIterationReaches(origin, t, outcomes(i).ok);
  }

  /** The end of a round, as a run of the protocol. */
  lemma RoundIsDone(origin: State, start: State, outcomes: nat -> Outcome)
    requires InRound(start, start.queue, 0)
    requires Reaches(origin, AfterIterations(start, outcomes, |start.queue|))
    ensures var t, ms, max := AfterIterations(start, outcomes, |start.queue|), start.queue, start.maxAttempts;
            && Reaches(origin, t.(retry := RetryWorker(Waiting, [], false)))
            && t.queue == Requeued(max, ms, outcomes, |ms|)
            && t.ends.delivered == start.ends.delivered + Delivered(max, ms, outcomes, |ms|)
            && t.ends.abandoned == start.ends.abandoned + Abandoned(max, ms, |ms|)
            && t.ends.lostFirst == start.ends.lostFirst && t.ends.lostRetry == start.ends.lostRetry
  {
    hide Reaches, AfterIterations, Requeued, Delivered, Abandoned, RetryApply, RetryEnabled;
    RoundHandlesEachOnce(start, outcomes, |start.queue|);
    var t := AfterIterations(start, outcomes, |start.queue|);
    RoundCloses(t, start.queue);
    ReachesRetry(origin, t, EndRound);
  }

  /** Opening and closing a round change nothing but the retry worker. */
  lemma RoundOpens(s: State)
    requires s.retry == RetryWorker(Entering, [], false) && !s.closed && s.queue != [] && s.remains == []
    ensures RetryEnabled(s, Enter(true))
    ensures RetryApply(s, Enter(true)) == s.(retry := RetryWorker(Round(s.queue, [], Empty), [], false))
    ensures InRound(RetryApply(s, Enter(true)), s.queue, 0)
  {
    assert s.queue + [] == s.queue;
  }

  lemma SizeFails(s: State)
    requires s.retry == RetryWorker(Entering, [], false)
    ensures RetryEnabled(s, Enter(false))
    ensures RetryApply(s, Enter(false)) == s.(retry := RetryWorker(Waiting, [], false))
  {
  }

  lemma SizeIsZero(s: State)
    requires s.retry == RetryWorker(Entering, [], false) && !s.closed && s.queue == s.remains == []
    ensures RetryEnabled(s, Enter(true))
    ensures RetryApply(s, Enter(true)) == s.(retry := RetryWorker(Waiting, [], false))
  {
  }

  lemma RoundCloses(t: State, ms: seq<Tracked>)
    requires InRound(t, ms, |ms|)
    ensures RetryEnabled(t, EndRound)
    ensures RetryApply(t, EndRound) == t.(retry := RetryWorker(Waiting, [], false))
  {
    assert ms[..|ms|] == ms;
  }

  lemma Regroup(a: seq<Tracked>, b: seq<Tracked>, c: seq<Tracked>)
    ensures (a + b) + c == a + (b + c)
  {
  }

  class MessageHandler {
    const maxAttempts: int
    const messageQueue: MemoryQueue<Tracked>
    const metrics: QueueMetrics
    var msgChan: seq<Tracked>
    var stopped: bool
    /** Where messages ended, how many came in, and which goroutines have returned. */
    ghost var ends: Ends
    ghost var ingested: nat
    ghost var ingesterGone: bool
    ghost var firstGone: bool
    ghost var retryGone: bool

    /** The protocol state between two iterations of the workers. */
    ghost function View(): State
      reads this, messageQueue, metrics
    {
      State(maxAttempts, msgChan, messageQueue.messages, [], messageQueue.closed,
            FirstWorker(Empty, [], firstGone), RetryWorker(Waiting, [], retryGone), ends, 0,
            Ledger(metrics.processedMessages, metrics.failedMessages, metrics.retryMessages,
                   metrics.totalRetryCount, |metrics.history|),
            ingested, stopped, ingesterGone)
    }

    constructor (maxAttempts: int, now: int)
      ensures View() == Init(maxAttempts) && metrics.Valid()
      ensures this.maxAttempts == maxAttempts && msgChan == [] && !stopped
      ensures messageQueue.messages == [] && !messageQueue.closed && metrics.history == []
      ensures fresh(messageQueue) && fresh(metrics)
    {
      this.maxAttempts := maxAttempts;
      messageQueue := new MemoryQueue();
      metrics := new QueueMetrics(now);
      msgChan, stopped := [], false;
      ends, ingested := Ends([], [], [], [], [], [], []), 0;
      ingesterGone, firstGone, retryGone := false, false, false;
    }

    /** The non-blocking send that ends the handling of an update; false when the channel is full. */
    method SendToChannel(msg: Tracked) returns (sent: bool)
      requires msg == Tracked(ingested, 0, 0) && !ingesterGone
      modifies this`msgChan, this`ends, this`ingested
      ensures View() == Apply(old(View()), Ingest)
      ensures sent <==> old(|msgChan|) < 100
      ensures msgChan == if sent then old(msgChan) + [msg] else old(msgChan)
      ensures ends == if sent then old(ends) else old(ends).(dropped := old(ends).dropped + [msg])
    {
      ingested := ingested + 1;
      if |msgChan| < CHANNEL_CAPACITY {
        msgChan := msgChan + [msg];
        sent := true;
      } else {
        ends := ends.(dropped := ends.dropped + [msg]);
        sent := false;
      }
    }

    /** One message through the loop of processQueueMessages. */
    method HandleNext(outcome: Outcome)
      requires msgChan != [] && !firstGone && metrics.Valid()
      modifies this`msgChan, this`ends, messageQueue, metrics
      ensures metrics.Valid() && metrics.history == old(metrics.history) + [Sample(outcome.latency, outcome.now)]
      ensures View() == FirstIteration(old(View()), outcome.ok)
      ensures Reaches(old(View()), View())
      ensures msgChan == old(msgChan)[1..] && messageQueue.closed == old(messageQueue.closed)
      ensures metrics.retryMessages == old(metrics.retryMessages)
      ensures outcome.ok ==>
                var m := old(msgChan)[0];
                && ends == old(ends).(delivered := old(ends).delivered + [m.(calls := m.calls + 1)])
                && messageQueue.messages == old(messageQueue.messages)
                && metrics.processedMessages == old(metrics.processedMessages) + 1
                && metrics.failedMessages == old(metrics.failedMessages)
                && metrics.totalRetryCount == old(metrics.totalRetryCount)
      ensures !outcome.ok && !messageQueue.closed ==>
                var m := old(msgChan)[0];
                && messageQueue.messages
                   == old(messageQueue.messages) + [m.(attempts := m.attempts + 1, calls := m.calls + 1)]
                && ends == old(ends)
                && metrics.processedMessages == old(metrics.processedMessages)
                && metrics.failedMessages == old(metrics.failedMessages) + 1
                && metrics.totalRetryCount == old(metrics.totalRetryCount) + 1
      ensures !outcome.ok && messageQueue.closed ==>
                var m := old(msgChan)[0];
                && ends == old(ends).(lostFirst :=
                     old(ends).lostFirst + [m.(attempts := m.attempts + 1, calls := m.calls + 1)])
                && messageQueue.messages == old(messageQueue.messages)
                && metrics.processedMessages == old(metrics.processedMessages)
                && metrics.failedMessages == old(metrics.failedMessages)
                && metrics.totalRetryCount == old(metrics.totalRetryCount)
    {
      hide Reaches, Sum, LastN, MinuteRate, Latencies;
      var msg := msgChan[0];
      msgChan := msgChan[1..];
      msg := msg.(calls := msg.calls + 1);
      if !outcome.ok {
        msg := msg.(attempts := msg.attempts + 1);
        var r := messageQueue.Push(msg);
        if r.Failed? {
          ends := ends.(lostFirst := ends.lostFirst + [msg]);
        } else {
          metrics.IncrementFailedMessages();
          metrics.IncrementRetryCount();
        }
      } else {
        ends := ends.(delivered := ends.delivered + [msg]);
        metrics.IncrementProcessedMessages();
      }
      metrics.AddMessageLatency(outcome.latency, outcome.now);
      ReachesItself(old(View()));
      FirstIterationReaches(old(View()), old(View()), outcome.ok);
    }

    /** The rest of a round's iteration, once a message is popped. */
    method RetryPopped(popped: Tracked, outcome: Outcome, ghost t: State)
      requires metrics.Valid() && !messageQueue.closed
      requires RetryEnabled(t, RetryAct.Pop(0)) && t.queue[0] == popped
      requires t == View().(queue := [popped] + messageQueue.messages, retry := t.retry)
      modifies this`ends, messageQueue, metrics
      ensures metrics.Valid() && !messageQueue.closed
      ensures RetryIteration(t, outcome.ok) == View().(retry := RetryIteration(t, outcome.ok).retry)
      ensures metrics.failedMessages == old(metrics.failedMessages)
      ensures popped.attempts >= maxAttempts ==>
                && ends == old(ends).(abandoned := old(ends).abandoned + [popped])
                && messageQueue.messages == old(messageQueue.messages) && metrics.history == old(metrics.history)
                && metrics.processedMessages == old(metrics.processedMessages)
                && metrics.retryMessages == old(metrics.retryMessages)
                && metrics.totalRetryCount == old(metrics.totalRetryCount)
      ensures popped.attempts < maxAttempts ==>
                metrics.history == old(metrics.history) + [Sample(outcome.latency, outcome.now)]
      ensures popped.attempts < maxAttempts && outcome.ok ==>
                && ends == old(ends).(delivered := old(ends).delivered + [popped.(calls := popped.calls + 1)])
                && messageQueue.messages == old(messageQueue.messages)
                && metrics.processedMessages == old(metrics.processedMessages) + 1
                && metrics.retryMessages == old(metrics.retryMessages)
                && metrics.totalRetryCount == old(metrics.totalRetryCount)
      ensures popped.attempts < maxAttempts && !outcome.ok ==>
                && ends == old(ends)
                && messageQueue.messages == old(messageQueue.messages)
                   + [popped.(attempts := popped.attempts + 1, calls := popped.calls + 1)]
                && metrics.processedMessages == old(metrics.processedMessages)
                && metrics.retryMessages == old(metrics.retryMessages) + 1
                && metrics.totalRetryCount == old(metrics.totalRetryCount) + 1
    {
      hide Sum;
      var msg := popped;
      if msg.attempts >= maxAttempts {
        ends := ends.(abandoned := ends.abandoned + [msg]);
        return;
      }
      msg := msg.(calls := msg.calls + 1);
      if !outcome.ok {
        msg := msg.(attempts := msg.attempts + 1);
        var pushed := messageQueue.Push(msg);
        metrics.IncrementRetryMessages();
        metrics.IncrementRetryCount();
      } else {
        ends := ends.(delivered := ends.delivered + [msg]);
        metrics.IncrementProcessedMessages();
      }
      metrics.AddMessageLatency(outcome.latency, outcome.now);
    }

    /**
     A retry round. Not disturbed by the first worker, it pops each queued message once, in order:
     those at the limit are abandoned, the others are tried once, and exactly the failures come
     back to the queue, in order, with one more attempt.
     */
    method ProcessQueuedMessages(outcomes: nat -> Outcome, ghost origin: State)
      requires metrics.Valid() && !retryGone
      requires Reaches(origin, View().(retry := RetryWorker(Entering, [], false)))
      modifies this`ends, messageQueue, metrics
      ensures metrics.Valid() && messageQueue.closed == old(messageQueue.closed)
      ensures Reaches(origin, View())
      ensures messageQueue.closed ==> View() == old(View())
      ensures !messageQueue.closed ==>
                var ms := old(messageQueue.messages);
                && messageQueue.messages == Requeued(maxAttempts, ms, outcomes, |ms|)
                && ends.delivered == old(ends.delivered) + Delivered(maxAttempts, ms, outcomes, |ms|)
                && ends.abandoned == old(ends.abandoned) + Abandoned(maxAttempts, ms, |ms|)
                && ends.lostRetry == old(ends.lostRetry) && ends.lostFirst == old(ends.lostFirst)
    {
      hide Reaches, RetryApply, RetryEnabled, RetryIteration, Requeued, Delivered, Abandoned, InRound;
      hide RequeuedOne, DeliveredOne, AbandonedOne, FailedOnce, Tried, Sum, LastN, Latencies, MinuteRate;
      ghost var s := old(View()).(retry := RetryWorker(Entering, [], false));
      var size := messageQueue.Size();
      if size.Failed? {
        SizeFails(s);
        ReachesRetry(origin, s, Enter(false));
        return;
      }
      if size.n == 0 {
        SizeIsZero(s);
        ReachesRetry(origin, s, Enter(true));
        OutcomesNone(maxAttempts, [], outcomes);
        return;
      }
      RoundOpens(s);
      ReachesRetry(origin, s, Enter(true));
      ghost var start := RetryApply(s, Enter(true));
      ghost var t := start;
      var i := 0;
      while i < size.n
        invariant i <= size.n == |start.queue|
        invariant metrics.Valid() && !messageQueue.closed
        invariant t == AfterIterations(start, outcomes, i) && t == View().(retry := t.retry)
        invariant Reaches(origin, t)
      {
        RoundGoesOn(origin, start, outcomes, i);
        var popped := messageQueue.Pop();
        RetryPopped(popped.msg, outcomes(i), t);
        t := RetryIteration(t, outcomes(i).ok);
        i := i + 1;
      }
      RoundIsDone(origin, start, outcomes);
    }

    /** A tick of the retry timer: a round only if the queue can be sized and is not empty. */
    method RetryTick(outcomes: nat -> Outcome)
      requires metrics.Valid() && !retryGone
      modifies this`ends, messageQueue, metrics
      ensures metrics.Valid() && messageQueue.closed == old(messageQueue.closed)
      ensures Reaches(old(View()), View())
      ensures messageQueue.closed || old(messageQueue.messages) == [] ==> View() == old(View())
      ensures !messageQueue.closed ==>
                var ms := old(messageQueue.messages);
                && messageQueue.messages == Requeued(maxAttempts, ms, outcomes, |ms|)
                && ends.delivered == old(ends.delivered) + Delivered(maxAttempts, ms, outcomes, |ms|)
                && ends.abandoned == old(ends.abandoned) + Abandoned(maxAttempts, ms, |ms|)
                && ends.lostRetry == old(ends.lostRetry) && ends.lostFirst == old(ends.lostFirst)
    {
      hide Reaches, Sum, Requeued, Delivered, Abandoned, RetryIteration;
      ghost var s := View();
      ReachesItself(s);
      var size := messageQueue.Size();
      if size.Failed? {
        return;
      }
      if size.n > 0 {
        ReachesRetry(s, s, Tick(true));
        ProcessQueuedMessages(outcomes, s);
      } else {
        OutcomesNone(maxAttempts, [], outcomes);
      }
    }

    /** The stop signal, given once, and the closing of the queue. */
    method Stop()
      modifies this`stopped, messageQueue
      ensures View() == Apply(Apply(old(View()), SignalStop), CloseQueue)
      ensures stopped && messageQueue.closed && messageQueue.messages == old(messageQueue.messages)
    {
      if !stopped {
        stopped := true;
      }
      var r := messageQueue.Close();
    }
  }
}
