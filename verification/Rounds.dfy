/** Retry rounds over a first-in first-out queue: who is retried in a round, and how many rounds it takes. */
module Rounds {
  import opened Delivery
  import opened Conservation
  import opened Attempts

  /**
   A step of a system whose queue hands out its oldest message, takes every push whole or not at
   all, and is not restarted.
   */
  predicate InFifoOrder(step: Step) {
    match step
    case Retry(Pop(k)) => k == 0
    case Retry(PopRemains) => false
    case Retry(RetryPush(w)) => !w.Torn?
    case First(FirstPush(w)) => !w.Torn?
    case Restart => false
    case _ => true
  }

  predicate FifoRun(steps: seq<Step>) {
    forall step :: step in steps ==> InFifoOrder(step)
  }

  function Left(p: Phase): int
    requires p.Round?
  {
    |p.snapshot| - |p.taken|
  }

  /**
   In a round the messages popped so far are the first of those that were queued at the size
   check, the others are still at the head of the queue, and all of them are different messages.
   */
  ghost predicate RoundShape(s: State) {
    && s.remains == []
    && (s.retry.phase.Round? ==>
          var p := s.retry.phase;
          && p.snapshot != []
          && DistinctIds(p.snapshot)
          && 0 <= Left(p) <= |s.queue|
          && p.snapshot == p.taken + s.queue[..Left(p)])
  }

  lemma MoveHead(taken: seq<Tracked>, queue: seq<Tracked>, n: nat)
    requires 0 < n <= |queue|
    ensures queue[..0] + queue[1..] == queue[1..]
    ensures taken + queue[..n] == (taken + [queue[0]]) + queue[1..][..n - 1]
  {
    assert queue[..n] == [queue[0]] + queue[1..][..n - 1];
  }

  lemma PopKeepsShape(s: State)
    requires RoundShape(s) && RetryEnabled(s, Pop(0))
    ensures RoundShape(RetryApply(s, Pop(0)))
  {
    hide DistinctIds;
    MoveHead(s.retry.phase.taken, s.queue, Left(s.retry.phase));
  }

  lemma RetryKeepsShape(s: State, act: RetryAct)
    requires Conserved(s) && RoundShape(s) && RetryEnabled(s, act) && InFifoOrder(Retry(act))
    ensures RoundShape(RetryApply(s, act))
  {
    hide Conserved, DistinctIds;
    match act
    case Pop(k) =>
      hide RetryApply, RetryEnabled, RoundShape;
      PopKeepsShape(s);
    case RetryPush(_) =>
      var p := s.retry.phase;
      assert (s.queue + [p.hand.msg])[..Left(p)] == s.queue[..Left(p)];
    case Enter(sizeOk) =>
      QueueDistinct(s);
      assert s.queue + [] == s.queue && [] + s.queue[..|s.queue|] == s.queue;
    case _ =>
  }

  lemma StepKeepsShape(s: State, step: Step)
    requires Conserved(s) && RoundShape(s) && Enabled(s, step) && InFifoOrder(step)
    ensures RoundShape(Apply(s, step))
  {
    hide Conserved, DistinctIds;
    match step
    case Retry(act) => RetryKeepsShape(s, act);
    case First(act) =>
      if act.FirstPush? && s.retry.phase.Round? {
        var n := Left(s.retry.phase);
        assert (s.queue + [s.first.hand.msg])[..n] == s.queue[..n];
      }
    case _ =>
  }

  lemma {:induction false} RunKeepsShape(s: State, steps: seq<Step>)
    requires Conserved(s) && RoundShape(s) && Legal(s, steps) && FifoRun(steps)
    ensures RoundShape(Run(s, steps))
    decreases |steps|
  {
    hide Conserved, RoundShape, Enabled, Apply, InFifoOrder;
    if steps != [] {
      assert steps[0] in steps;
      assert forall step :: step in steps[1..] ==> step in steps;
      StepKeepsShape(s, steps[0]);
      StepConserves(s, steps[0]);
      RunKeepsShape(Apply(s, steps[0]), steps[1..]);
    }
  }

  /**
   Whatever the other workers push meanwhile: a round has popped distinct messages, a prefix of
   the queue it saw, in order; until it has popped them all the next one is at the head of the
   queue; and a round that comes to its end has popped exactly the queue it saw.
   */
  lemma OncePerRound(maxAttempts: int, steps: seq<Step>)
    requires Legal(Init(maxAttempts), steps) && FifoRun(steps)
    ensures var s := Run(Init(maxAttempts), steps);
            var p := s.retry.phase;
            p.Round? ==>
              && DistinctIds(p.taken)
              && p.taken <= p.snapshot
              && (|p.taken| < |p.snapshot| ==> s.queue != [] && s.queue[0] == p.snapshot[|p.taken|])
              && (RetryEnabled(s, EndRound) ==> p.taken == p.snapshot)
  {
    RunKeepsShape(Init(maxAttempts), steps);
    var s := Run(Init(maxAttempts), steps);
    if s.retry.phase.Round? {
      var p := s.retry.phase;
      forall i, j | 0 <= i < j < |p.taken| ensures p.taken[i].id != p.taken[j].id {
        assert p.snapshot[i].id != p.snapshot[j].id;
      }
    }
  }

  // ---- the number of rounds ----------------------------------------------------------------

  function IsRound(step: Step): nat {
    if step == Retry(EndRound) then 1 else 0
  }

  /** The rounds completed in a run. */
  function CompletedRounds(steps: seq<Step>): nat {
    if steps == [] then 0 else IsRound(steps[0]) + CompletedRounds(steps[1..])
  }

  predicate NoArrivals(steps: seq<Step>) {
    forall step :: step in steps ==> IsArrival(step) == 0
  }

  ghost predicate AtLeast(ms: seq<Tracked>, n: int) {
    forall i :: 0 <= i < |ms| ==> ms[i].attempts >= n
  }

  /** After r rounds every message in circulation failed more than r times, those requeued in this round once more. */
  ghost predicate Aged(s: State, r: nat) {
    && AtLeast(s.queue, r + 1)
    && (s.retry.phase.Round? ==>
          var p := s.retry.phase;
          && 0 <= Left(p) <= |s.queue|
          && AtLeast(s.queue[Left(p)..], r + 2)
          && (p.hand.Sending? ==> p.hand.msg.attempts >= r + 1)
          && (p.hand.Requeueing? ==> p.hand.msg.attempts >= r + 2)
          && r + 1 <= Limit(s))
    && r <= Limit(s)
  }

  lemma AtLeastTail(ms: seq<Tracked>, n: int)
    requires AtLeast(ms, n) && ms != []
    ensures ms[0].attempts >= n && AtLeast(ms[1..], n)
  {
  }

  lemma PopAges(s: State, r: nat)
    requires Aged(s, r) && RetryEnabled(s, Pop(0))
    ensures Aged(RetryApply(s, Pop(0)), r)
  {
    hide AtLeast;
    AtLeastTail(s.queue, r + 1);
    var n := Left(s.retry.phase);
    var rest := s.queue[1..];
    assert s.queue[..0] + rest == rest;
    assert rest[n - 1..] == s.queue[n..];
  }

  lemma RequeueAges(s: State, w: Written, r: nat)
    requires Aged(s, r) && RetryEnabled(s, RetryPush(w)) && !w.Torn?
    ensures Aged(RetryApply(s, RetryPush(w)), r)
  {
    var n, m := Left(s.retry.phase), RetryHand(s).msg;
    assert (s.queue + [m])[n..] == s.queue[n..] + [m];
  }

  lemma EnterAges(s: State, sizeOk: bool, r: nat)
    requires Accounted(s) && Aged(s, r) && RetryEnabled(s, Enter(sizeOk)) && s.remains == []
    ensures Aged(RetryApply(s, Enter(sizeOk)), r)
  {
    assert s.queue + s.remains == s.queue;
    if s.queue != [] {
      assert s.queue[0] in s.queue;
      assert s.queue[|s.queue|..] == [];
    }
  }

  lemma RetryAges(s: State, act: RetryAct, r: nat)
    requires Accounted(s) && RoundShape(s) && Aged(s, r) && RetryEnabled(s, act) && InFifoOrder(Retry(act))
    ensures Aged(RetryApply(s, act), r + IsRound(Retry(act)))
  {
    if act.Pop? {
      assert act.k == 0;
      hide *;
      PopAges(s, r);
    } else if act.RetryPush? {
      assert !act.w.Torn?;
      hide *;
      RequeueAges(s, act.w, r);
    } else if act.Enter? {
      EnterAges(s, act.sizeOk, r);
    } else {
      hide AtLeast, RoundShape, Accounted;
      assert s.queue[0..] == s.queue;
    }
  }

  lemma StepAges(s: State, step: Step, r: nat)
    requires Accounted(s) && RoundShape(s) && Aged(s, r)
    requires Enabled(s, step) && InFifoOrder(step) && IsArrival(step) == 0
    ensures Aged(Apply(s, step), r + IsRound(step))
  {
    hide Accounted, RoundShape, AtLeast, RetryApply, RetryEnabled;
    match step
    case Retry(act) => RetryAges(s, act, r);
    case _ =>
  }

  lemma {:induction false} RunAges(s: State, steps: seq<Step>, r: nat)
    requires Conserved(s) && Accounted(s) && RoundShape(s) && Aged(s, r)
    requires Legal(s, steps) && FifoRun(steps) && NoArrivals(steps)
    ensures Aged(Run(s, steps), r + CompletedRounds(steps))
    decreases |steps|
  {
    hide Conserved, Accounted, RoundShape, Aged, Enabled, Apply, InFifoOrder, IsRound, IsArrival;
    if steps != [] {
      assert steps[0] in steps;
      assert forall step :: step in steps[1..] ==> step in steps;
      StepKeepsShape(s, steps[0]);
      StepConserves(s, steps[0]);
      StepAccounts(s, steps[0]);
      StepAges(s, steps[0], r);
      RunAges(Apply(s, steps[0]), steps[1..], r + IsRound(steps[0]));
    }
  }

  /** Without arrivals a first-in first-out queue is empty after as many rounds as the retry limit; no run has more. */
  lemma RoundsEmptyTheQueue(s: State, steps: seq<Step>)
    requires Conserved(s) && Accounted(s) && s.retry.phase.Waiting? && s.remains == []
    requires Legal(s, steps) && FifoRun(steps) && NoArrivals(steps)
    ensures CompletedRounds(steps) <= Limit(s)
    ensures CompletedRounds(steps) == Limit(s) ==> Run(s, steps).queue == []
  {
    forall i | 0 <= i < |s.queue| ensures s.queue[i].attempts >= 1 {
      assert s.queue[i] in s.queue;
    }
    RunAges(s, steps, 0);
    RunAccounts(s, steps);
    var t := Run(s, steps);
    if t.queue != [] {
      assert t.queue[0] in t.queue;
    }
  }
}
