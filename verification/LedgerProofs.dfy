/** The metrics counters against the events of the protocol. */
module LedgerProofs {
  import opened Delivery

  function Is(a: Update, u: Update): nat {
    if a == u then 1 else 0
  }

  function Pending(us: seq<Update>, u: Update): nat {
    if us == [] then 0 else Is(us[0], u) + Pending(us[1..], u)
  }

  /** Updates of kind u that the workers still have to make. */
  function Owed(s: State, u: Update): nat {
    Pending(s.first.owes, u) + Pending(s.retry.owes, u)
  }

  function CounterOf(l: Ledger, u: Update): int {
    match u
    case CountProcessed => l.processed
    case CountFailed => l.failed
    case CountRetry => l.retried
    case CountRetryTotal => l.retryTotal
    case CountLatency => l.samples
  }

  /** A counter with what is still owed to it. */
  function Due(s: State, u: Update): int {
    CounterOf(s.metrics, u) + Owed(s, u)
  }

  /** The counters against what happened, while none was reset and the process was not restarted. */
  predicate Balanced(s: State) {
    && Due(s, CountProcessed) == |s.ends.delivered|
    && Due(s, CountRetryTotal) == Due(s, CountFailed) + Due(s, CountRetry)
    && Due(s, CountLatency)
       == |s.ends.delivered| + Due(s, CountFailed) + Due(s, CountRetry) + |s.ends.lostFirst| + s.tornFirst
  }

  /** What a reset cannot spoil. */
  predicate RetryTotalCovers(s: State) {
    && Due(s, CountRetryTotal) >= Due(s, CountFailed) + Due(s, CountRetry)
    && s.metrics.failed >= 0 && s.metrics.retried >= 0
  }

  predicate NothingOwed(s: State) {
    s.first.owes == [] && s.retry.owes == []
  }

  /** A worker with a message in hand owes no update. */
  predicate UpdatesInTurn(s: State) {
    && (s.first.hand != Empty ==> s.first.owes == [])
    && (RetryHand(s) != Empty ==> s.retry.owes == [])
  }

  lemma PendingNew(a: Update, b: Update, c: Update, u: Update)
    ensures Pending([a], u) == Is(a, u)
    ensures Pending([a, b], u) == Is(a, u) + Is(b, u)
    ensures Pending([a, b, c], u) == Is(a, u) + Is(b, u) + Is(c, u)
  {
    hide Is;
    assert Pending([c], u) == Is(c, u) && Pending([b], u) == Is(b, u);
    assert [b, c][1..] == [c];
    assert Pending([b, c], u) == Is(b, u) + Is(c, u);
    assert [a, b, c][1..] == [b, c];
    assert [a, b][1..] == [b];
  }

  lemma PendingHead(us: seq<Update>, u: Update)
    requires us != []
    ensures Pending(us, u) == Is(us[0], u) + Pending(us[1..], u)
  {
  }

  lemma PostCounts(l: Ledger, u: Update, v: Update)
    ensures CounterOf(Post(l, u), v) == CounterOf(l, v) + Is(u, v)
  {
  }

  /** Writing a message and taking one up concern no counter. */
  lemma WriteCountsNothing(s: State, m: Tracked, w: Written)
    requires !w.Refused?
    ensures var t := Write(s, m, w);
            && t.metrics == s.metrics && t.first == s.first && t.retry == s.retry && t.tornFirst == s.tornFirst
            && t.ends.delivered == s.ends.delivered && t.ends.lostFirst == s.ends.lostFirst
  {
  }

  lemma TakeUpCountsNothing(s: State, m: Tracked)
    requires s.retry.phase.Round?
    ensures var t := TakeUp(s, m);
            && t.metrics == s.metrics && t.first == s.first && t.retry.owes == s.retry.owes
            && t.ends.delivered == s.ends.delivered && t.ends.lostFirst == s.ends.lostFirst
            && t.tornFirst == s.tornFirst
  {
  }

  lemma FirstPushDue(s: State, w: Written, u: Update)
    requires UpdatesInTurn(s) && FirstEnabled(s, FirstPush(w))
    ensures Due(FirstApply(s, FirstPush(w)), u) == Due(s, u) +
              if w.Stored? then Is(CountFailed, u) + Is(CountRetryTotal, u) + Is(CountLatency, u)
              else Is(CountLatency, u)
  {
    hide Pending, Post, CounterOf, Is, Write;
    PendingNone(u);
    var m, stored, other := s.first.hand.msg, [CountFailed, CountRetryTotal, CountLatency], [CountLatency];
    PendingNew(CountFailed, CountRetryTotal, CountLatency, u);
    PendingNew(CountLatency, CountLatency, CountLatency, u);
    WriteCountsNothing(s.(first := s.first.(hand := Empty, owes := stored)), m, Stored);
    WriteCountsNothing(s.(first := s.first.(hand := Empty, owes := other), tornFirst := s.tornFirst + 1), m, Torn);
  }

  /** What a step of the first worker adds to the account of each counter. */
  lemma FirstDue(s: State, act: FirstAct, u: Update)
    requires UpdatesInTurn(s) && FirstEnabled(s, act)
    ensures Due(FirstApply(s, act), u) == Due(s, u) +
              if act.FirstDelivers? then Is(CountProcessed, u) + Is(CountLatency, u)
              else if act == FirstPush(Stored) then Is(CountFailed, u) + Is(CountRetryTotal, u) + Is(CountLatency, u)
              else if act.FirstPush? then Is(CountLatency, u)
              else 0
  {
    hide Pending, Post, CounterOf, Is, Write;
    PendingNone(u);
    match act
    case FirstDelivers => PendingNew(CountProcessed, CountLatency, CountLatency, u);
    case FirstPush(w) => FirstPushDue(s, w, u);
    case FirstUpdate =>
      PendingHead(s.first.owes, u);
      PostCounts(s.metrics, s.first.owes[0], u);
    case _ =>
  }

  lemma PendingNone(u: Update)
    ensures Pending([], u) == 0
  {
  }

  /** What a step of the retry worker adds to the account of each counter. */
  lemma RetryDue(s: State, act: RetryAct, u: Update)
    requires UpdatesInTurn(s) && RetryEnabled(s, act)
    ensures Due(RetryApply(s, act), u) == Due(s, u) +
              if act.RetryDelivers? then Is(CountProcessed, u) + Is(CountLatency, u)
              else if act.RetryPush? then Is(CountRetry, u) + Is(CountRetryTotal, u) + Is(CountLatency, u)
              else 0
  {
    hide Pending, Post, CounterOf, Is, Write, TakeUp;
    PendingNone(u);
    match act
    case Pop(k) => TakeUpCountsNothing(s.(queue := s.queue[..k] + s.queue[k + 1..]), s.queue[k]);
    case PopRemains => TakeUpCountsNothing(s.(remains := s.remains[1..]), s.remains[0]);
    case RetryDelivers => PendingNew(CountProcessed, CountLatency, CountLatency, u);
    case RetryPush(w) =>
      PendingNew(CountRetry, CountRetryTotal, CountLatency, u);
      if !w.Refused? {
        var s1 := s.(retry := s.retry.(phase := s.retry.phase.(hand := Empty),
                                       owes := [CountRetry, CountRetryTotal, CountLatency]));
        WriteCountsNothing(s1, RetryHand(s).msg, w);
      }
    case RetryUpdate =>
      PendingHead(s.retry.owes, u);
      PostCounts(s.metrics, s.retry.owes[0], u);
    case _ =>
  }

  lemma FirstInTurn(s: State, act: FirstAct)
    requires UpdatesInTurn(s) && FirstEnabled(s, act)
    ensures UpdatesInTurn(FirstApply(s, act))
    ensures FirstApply(s, act).metrics.failed >= s.metrics.failed
    ensures FirstApply(s, act).metrics.retried >= s.metrics.retried
    ensures |FirstApply(s, act).ends.delivered| == |s.ends.delivered| + if act.FirstDelivers? then 1 else 0
    ensures |FirstApply(s, act).ends.lostFirst| + FirstApply(s, act).tornFirst
         == |s.ends.lostFirst| + s.tornFirst + if act.FirstPush? && !act.w.Stored? then 1 else 0
  {
  }

  lemma RetryInTurn(s: State, act: RetryAct)
    requires UpdatesInTurn(s) && RetryEnabled(s, act)
    ensures UpdatesInTurn(RetryApply(s, act))
    ensures RetryApply(s, act).metrics.failed >= s.metrics.failed
    ensures RetryApply(s, act).metrics.retried >= s.metrics.retried
    ensures |RetryApply(s, act).ends.delivered| == |s.ends.delivered| + if act.RetryDelivers? then 1 else 0
    ensures RetryApply(s, act).ends.lostFirst == s.ends.lostFirst && RetryApply(s, act).tornFirst == s.tornFirst
  {
  }

  lemma FirstBalances(s: State, act: FirstAct)
    requires UpdatesInTurn(s) && FirstEnabled(s, act)
    ensures Balanced(s) ==> Balanced(FirstApply(s, act))
    ensures RetryTotalCovers(s) ==> RetryTotalCovers(FirstApply(s, act))
  {
    hide Due, FirstApply, FirstEnabled, UpdatesInTurn;
    FirstInTurn(s, act);
    FirstDue(s, act, CountProcessed);
    FirstDue(s, act, CountFailed);
    FirstDue(s, act, CountRetry);
    FirstDue(s, act, CountRetryTotal);
    FirstDue(s, act, CountLatency);
  }

  lemma RetryBalances(s: State, act: RetryAct)
    requires UpdatesInTurn(s) && RetryEnabled(s, act)
    ensures Balanced(s) ==> Balanced(RetryApply(s, act))
    ensures RetryTotalCovers(s) ==> RetryTotalCovers(RetryApply(s, act))
  {
    hide Due, RetryApply, RetryEnabled, UpdatesInTurn;
    RetryInTurn(s, act);
    RetryDue(s, act, CountProcessed);
    RetryDue(s, act, CountFailed);
    RetryDue(s, act, CountRetry);
    RetryDue(s, act, CountRetryTotal);
    RetryDue(s, act, CountLatency);
  }

  lemma OtherBalances(s: State, step: Step)
    requires UpdatesInTurn(s) && Enabled(s, step) && !step.First? && !step.Retry? && !step.Restart?
    ensures UpdatesInTurn(Apply(s, step))
    ensures Balanced(s) && step != ResetCounters && step != Restart ==> Balanced(Apply(s, step))
    ensures RetryTotalCovers(s) ==> RetryTotalCovers(Apply(s, step))
  {
    hide Pending;
  }

  lemma RestartBalances(s: State)
    ensures UpdatesInTurn(Restarted(s)) && RetryTotalCovers(Restarted(s))
  {
    PendingNone(CountFailed);
    PendingNone(CountRetry);
    PendingNone(CountRetryTotal);
    hide Pending;
  }

  lemma StepBalances(s: State, step: Step)
    requires UpdatesInTurn(s) && Enabled(s, step)
    ensures UpdatesInTurn(Apply(s, step))
    ensures Balanced(s) && step != ResetCounters && step != Restart ==> Balanced(Apply(s, step))
    ensures RetryTotalCovers(s) ==> RetryTotalCovers(Apply(s, step))
  {
    hide Balanced, RetryTotalCovers, UpdatesInTurn, FirstApply, FirstEnabled, RetryApply, RetryEnabled;
    match step
    case First(act) =>
      FirstInTurn(s, act);
      FirstBalances(s, act);
    case Retry(act) =>
      RetryInTurn(s, act);
      RetryBalances(s, act);
    case Restart => RestartBalances(s);
    case _ => OtherBalances(s, step);
  }

  lemma {:induction false} RunBalances(s: State, steps: seq<Step>)
    requires UpdatesInTurn(s) && Legal(s, steps)
    ensures Balanced(s) && ResetCounters !in steps && Restart !in steps ==> Balanced(Run(s, steps))
    ensures RetryTotalCovers(s) ==> RetryTotalCovers(Run(s, steps))
    decreases |steps|
  {
    hide Balanced, RetryTotalCovers, UpdatesInTurn, Enabled, Apply;
    if steps != [] {
      StepBalances(s, steps[0]);
      RunBalances(Apply(s, steps[0]), steps[1..]);
    }
  }

  /**
   Whenever no worker is between counter updates: without a reset or restart, processed messages are
   the deliveries, the total retry count is failed plus retried, and there is one latency sample per
   delivery, failed first attempt that was queued, lost or torn, and failed retry; with resets and
   restarts, the total retry count still covers failed and retried.
   */
  lemma LedgerAtRest(maxAttempts: int, steps: seq<Step>)
    requires Legal(Init(maxAttempts), steps) && NothingOwed(Run(Init(maxAttempts), steps))
    ensures var s := Run(Init(maxAttempts), steps);
            && s.metrics.retryTotal >= s.metrics.failed + s.metrics.retried
            && (ResetCounters !in steps && Restart !in steps ==>
                  && s.metrics.processed == |s.ends.delivered|
                  && s.metrics.retryTotal == s.metrics.failed + s.metrics.retried
                  && s.metrics.samples
                     == s.metrics.processed + s.metrics.failed + s.metrics.retried
                        + |s.ends.lostFirst| + s.tornFirst)
  {
    hide Legal, Run;
    RunBalances(Init(maxAttempts), steps);
  }
}
