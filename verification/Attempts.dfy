/** How often messages are processed: the Attempts field, the retry limit, and when draining ends. */
module Attempts {
  import opened Delivery

  /** The number of processMessage calls after which a message is given up. */
  function Limit(s: State): (n: int)
    ensures n >= 1 && n >= s.maxAttempts
  {
    if s.maxAttempts > 1 then s.maxAttempts else 1
  }

  /** The calls made with m are its failed attempts plus extra, and between lo and hi. */
  predicate Account(m: Tracked, extra: int, lo: int, hi: int) {
    m.calls == m.attempts + extra && lo <= m.calls <= hi
  }

  ghost predicate AllAccount(ms: seq<Tracked>, extra: int, lo: int, hi: int) {
    forall m :: m in ms ==> Account(m, extra, lo, hi)
  }

  /** Every message shows, in every place, exactly the attempts that were made with it. */
  ghost predicate Accounted(s: State) {
    var limit := Limit(s);
    && AllAccount(s.channel, 0, 0, 0)
    && AllAccount(s.ends.dropped, 0, 0, 0)
    && (s.first.hand.Sending? ==> Account(s.first.hand.msg, 0, 0, 0))
    && (s.first.hand.Requeueing? ==> Account(s.first.hand.msg, 0, 1, 1))
    && AllAccount(s.ends.lostFirst, 0, 1, 1)
    && AllAccount(s.queue, 0, 1, limit)
    && AllAccount(s.remains, 0, 1, limit)
    && AllAccount(s.ends.overwritten, 0, 1, limit)
    && AllAccount(s.ends.crashed, 0, 0, limit)
    && (RetryHand(s).Sending? ==> Account(RetryHand(s).msg, 0, 1, s.maxAttempts - 1))
    && (RetryHand(s).Requeueing? ==> Account(RetryHand(s).msg, 0, 2, limit))
    && AllAccount(s.ends.lostRetry, 0, 2, limit)
    && AllAccount(s.ends.delivered, 1, 1, limit)
    && AllAccount(s.ends.abandoned, 0, limit, limit)
  }

  lemma AccountAdd(ms: seq<Tracked>, m: Tracked, extra: int, lo: int, hi: int)
    requires AllAccount(ms, extra, lo, hi) && Account(m, extra, lo, hi)
    ensures AllAccount(ms + [m], extra, lo, hi)
  {
  }

  lemma AccountRemove(ms: seq<Tracked>, k: nat, extra: int, lo: int, hi: int)
    requires k < |ms| && AllAccount(ms, extra, lo, hi)
    ensures Account(ms[k], extra, lo, hi)
    ensures AllAccount(ms[..k] + ms[k + 1..], extra, lo, hi)
  {
  }

  lemma AccountConcat(a: seq<Tracked>, b: seq<Tracked>, extra: int, lo: int, hi: int)
    requires AllAccount(a, extra, lo, hi) && AllAccount(b, extra, lo, hi)
    ensures AllAccount(a + b, extra, lo, hi)
  {
  }

  lemma AccountWithin(ms: seq<Tracked>, extra: int, lo: int, hi: int, lo': int, hi': int)
    requires AllAccount(ms, extra, lo, hi) && lo' <= lo && hi <= hi'
    ensures AllAccount(ms, extra, lo', hi')
  {
  }

  lemma WritePartsAccount(s: State, m: Tracked, w: Written, limit: int)
    requires !w.Refused? && Account(m, 0, 1, limit)
    requires AllAccount(s.queue, 0, 1, limit) && AllAccount(s.remains, 0, 1, limit)
    requires AllAccount(s.ends.overwritten, 0, 1, limit)
    ensures var t := Write(s, m, w);
            && AllAccount(t.queue, 0, 1, limit) && AllAccount(t.remains, 0, 1, limit)
            && AllAccount(t.ends.overwritten, 0, 1, limit)
            && t == s.(queue := t.queue, remains := t.remains, ends := s.ends.(overwritten := t.ends.overwritten))
  {
    hide AllAccount, Account;
    AccountAdd(s.queue, m, 0, 1, limit);
    AccountNone(0, 1, limit);
    AccountAdd([], m, 0, 1, limit);
    assert [] + [m] == [m];
    AccountConcat(s.ends.overwritten, s.remains, 0, 1, limit);
  }

  /** What a write leaves is accounted for if its message is. */
  lemma WriteAccounts(s: State, m: Tracked, w: Written)
    requires Accounted(s) && !w.Refused? && Account(m, 0, 1, Limit(s))
    ensures Accounted(Write(s, m, w)) && Write(s, m, w).maxAttempts == s.maxAttempts
  {
    hide AllAccount, Account, Write;
    WritePartsAccount(s, m, w, Limit(s));
  }

  lemma AccountNone(extra: int, lo: int, hi: int)
    ensures AllAccount([], extra, lo, hi)
  {
  }

  lemma TakeUpAccounts(s: State, m: Tracked)
    requires Accounted(s) && s.retry.phase.Round? && s.retry.phase.hand.Empty? && Account(m, 0, 1, Limit(s))
    ensures Accounted(TakeUp(s, m)) && TakeUp(s, m).maxAttempts == s.maxAttempts
  {
    hide AllAccount;
    if m.attempts >= s.maxAttempts { AccountAdd(s.ends.abandoned, m, 0, Limit(s), Limit(s)); }
  }

  lemma FirstAccounts(s: State, act: FirstAct)
    requires Accounted(s) && FirstEnabled(s, act)
    ensures Accounted(FirstApply(s, act)) && FirstApply(s, act).maxAttempts == s.maxAttempts
  {
    hide AllAccount, Write;
    var limit := Limit(s);
    match act
    case Take =>
      AccountRemove(s.channel, 0, 0, 0, 0);
      assert s.channel[..0] + s.channel[1..] == s.channel[1..];
    case FirstDelivers => AccountAdd(s.ends.delivered, Tried(s.first.hand.msg), 1, 1, limit);
    case FirstPush(Stored) =>
      WriteAccounts(s.(first := s.first.(hand := Empty, owes := [CountFailed, CountRetryTotal, CountLatency])),
                    s.first.hand.msg, Stored);
    case FirstPush(Torn) =>
      WriteAccounts(s.(first := s.first.(hand := Empty, owes := [CountLatency]), tornFirst := s.tornFirst + 1),
                    s.first.hand.msg, Torn);
    case FirstPush(Refused) => AccountAdd(s.ends.lostFirst, s.first.hand.msg, 0, 1, 1);
    case _ =>
  }

  lemma RetryAccounts(s: State, act: RetryAct)
    requires Accounted(s) && RetryEnabled(s, act)
    ensures Accounted(RetryApply(s, act)) && RetryApply(s, act).maxAttempts == s.maxAttempts
  {
    hide AllAccount, Write, TakeUp;
    var limit := Limit(s);
    match act
    case Pop(k) =>
      AccountRemove(s.queue, k, 0, 1, limit);
      TakeUpAccounts(s.(queue := s.queue[..k] + s.queue[k + 1..]), s.queue[k]);
    case PopRemains =>
      AccountRemove(s.remains, 0, 0, 1, limit);
      assert s.remains[..0] + s.remains[1..] == s.remains[1..];
      TakeUpAccounts(s.(remains := s.remains[1..]), s.remains[0]);
    case RetryDelivers => AccountAdd(s.ends.delivered, Tried(RetryHand(s).msg), 1, 1, limit);
    case RetryPush(w) =>
      var s1 := s.(retry := s.retry.(phase := s.retry.phase.(hand := Empty),
                                     owes := [CountRetry, CountRetryTotal, CountLatency]));
      if w.Refused? {
        AccountAdd(s.ends.lostRetry, RetryHand(s).msg, 0, 2, limit);
      } else {
        WriteAccounts(s1, RetryHand(s).msg, w);
      }
    case _ =>
  }

  lemma HandAccounts(h: Hand, lo: int, hi: int)
    requires !h.Empty? ==> Account(h.msg, 0, lo, hi)
    ensures AllAccount(InHand(h), 0, lo, hi)
  {
  }

  /** What was lost in a crash had been processed as often as it says, at most up to the limit. */
  lemma RestartAccounts(s: State)
    requires Accounted(s)
    ensures Accounted(Restarted(s)) && Restarted(s).maxAttempts == s.maxAttempts
  {
    hide AllAccount;
    var limit := Limit(s);
    var first, retry := InHand(s.first.hand), InHand(RetryHand(s));
    HandAccounts(s.first.hand, 0, limit);
    HandAccounts(RetryHand(s), 0, limit);
    AccountWithin(s.channel, 0, 0, 0, 0, limit);
    AccountConcat(first, retry, 0, 0, limit);
    AccountConcat(s.channel, first + retry, 0, 0, limit);
    AccountConcat(s.ends.crashed, s.channel + (first + retry), 0, 0, limit);
    AccountNone(0, 0, 0);
  }

  lemma StepAccounts(s: State, step: Step)
    requires Accounted(s) && Enabled(s, step)
    ensures Accounted(Apply(s, step)) && Apply(s, step).maxAttempts == s.maxAttempts
  {
    hide Accounted, FirstEnabled, RetryEnabled, FirstApply, RetryApply, Restarted, Ingested;
    match step
    case Restart => RestartAccounts(s);
    case Ingest => IngestAccounts(s);
    case First(act) => FirstAccounts(s, act);
    case Retry(act) => RetryAccounts(s, act);
    case _ => OthersAccount(s, step);
  }

  lemma IngestAccounts(s: State)
    requires Accounted(s)
    ensures Accounted(Ingested(s)) && Ingested(s).maxAttempts == s.maxAttempts
  {
    hide AllAccount;
    var m := Tracked(s.ingested, 0, 0);
    AccountAdd(s.channel, m, 0, 0, 0);
    AccountAdd(s.ends.dropped, m, 0, 0, 0);
  }

  lemma OthersAccount(s: State, step: Step)
    requires Accounted(s) && Enabled(s, step)
    requires step.IngesterExits? || step.ResetCounters? || step.SignalStop? || step.CloseQueue?
    ensures Accounted(Apply(s, step)) && Apply(s, step).maxAttempts == s.maxAttempts
  {
    hide AllAccount;
  }

  lemma {:induction false} RunAccounts(s: State, steps: seq<Step>)
    requires Accounted(s) && Legal(s, steps)
    ensures Accounted(Run(s, steps)) && Run(s, steps).maxAttempts == s.maxAttempts
    decreases |steps|
  {
    hide Accounted, Enabled, Apply;
    if steps != [] {
      StepAccounts(s, steps[0]);
      RunAccounts(Apply(s, steps[0]), steps[1..]);
    }
  }

  /**
   In every reachable state: a queued message was processed once per recorded attempt, at least
   once and at most up to the limit; a delivered one took one call more than its failures; an
   abandoned one took exactly the limit. Torn pushes and restarts change none of this.
   */
  lemma AttemptsAreExact(maxAttempts: int, steps: seq<Step>)
    requires Legal(Init(maxAttempts), steps)
    ensures var s := Run(Init(maxAttempts), steps);
            var limit := if maxAttempts > 1 then maxAttempts else 1;
            && (forall m | m in s.queue + s.remains :: m.attempts == m.calls && 1 <= m.attempts <= limit)
            && (forall m | m in s.ends.delivered :: m.calls == m.attempts + 1 && m.calls <= limit)
            && (forall m | m in s.ends.abandoned :: m.calls == m.attempts == limit)
  {
    RunAccounts(Init(maxAttempts), steps);
  }

  // ---- draining ----------------------------------------------------------------------------

  /** The pops a queued message can still cost: one per attempt left, and one to give it up. */
  function Weight(limit: int, m: Tracked): int {
    limit + 1 - m.attempts
  }

  function QueueWeight(limit: int, ms: seq<Tracked>): int {
    if ms == [] then 0 else QueueWeight(limit, ms[..|ms| - 1]) + Weight(limit, ms[|ms| - 1])
  }

  function HandWeight(limit: int, h: Hand): int {
    match h
    case Empty => 0
    case Sending(m) => Weight(limit, m) - 1
    case Requeueing(m) => Weight(limit, m)
  }

  function Remaining(s: State): int {
    QueueWeight(Limit(s), s.queue) + QueueWeight(Limit(s), s.remains) + HandWeight(Limit(s), RetryHand(s))
  }

  lemma {:induction false} WeightConcat(limit: int, a: seq<Tracked>, b: seq<Tracked>)
    ensures QueueWeight(limit, a + b) == QueueWeight(limit, a) + QueueWeight(limit, b)
  {
    if b == [] {
      assert a + b == a;
    } else {
      assert (a + b)[..|a + b| - 1] == a + b[..|b| - 1];
      WeightConcat(limit, a, b[..|b| - 1]);
    }
  }

  lemma WeightAdd(limit: int, ms: seq<Tracked>, m: Tracked)
    ensures QueueWeight(limit, ms + [m]) == QueueWeight(limit, ms) + Weight(limit, m)
  {
    assert (ms + [m])[..|ms|] == ms;
  }

  lemma WeightRemove(limit: int, ms: seq<Tracked>, k: nat)
    requires k < |ms|
    ensures QueueWeight(limit, ms) == QueueWeight(limit, ms[..k] + ms[k + 1..]) + Weight(limit, ms[k])
  {
    assert ms == (ms[..k] + [ms[k]]) + ms[k + 1..];
    WeightConcat(limit, ms[..k] + [ms[k]], ms[k + 1..]);
    WeightConcat(limit, ms[..k], ms[k + 1..]);
    WeightAdd(limit, ms[..k], ms[k]);
  }

  /** Each queued message weighs at least one pop. */
  lemma {:induction false} WeightAtLeastSize(limit: int, ms: seq<Tracked>)
    requires AllAccount(ms, 0, 1, limit)
    ensures QueueWeight(limit, ms) >= |ms|
  {
    if ms != [] {
      assert ms[|ms| - 1] in ms;
      assert forall m | m in ms[..|ms| - 1] :: m in ms;
      WeightAtLeastSize(limit, ms[..|ms| - 1]);
    }
  }

  function IsPop(step: Step): nat {
    if step.Retry? && (step.r.Pop? || step.r.PopRemains?) then 1 else 0
  }

  /** A message that a first attempt leaves in the store, if only as the remains of a torn push. */
  function IsArrival(step: Step): nat {
    if step.First? && step.f.FirstPush? && !step.f.w.Refused? then 1 else 0
  }

  function Pops(steps: seq<Step>): nat {
    if steps == [] then 0 else IsPop(steps[0]) + Pops(steps[1..])
  }

  function Arrivals(steps: seq<Step>): nat {
    if steps == [] then 0 else IsArrival(steps[0]) + Arrivals(steps[1..])
  }

  lemma WriteWeighs(s: State, m: Tracked, w: Written)
    requires !w.Refused? && AllAccount(s.remains, 0, 1, Limit(s))
    ensures Remaining(Write(s, m, w)) <= Remaining(s) + Weight(Limit(s), m)
  {
    hide QueueWeight, AllAccount, Weight;
    var limit := Limit(s);
    WeightAdd(limit, s.queue, m);
    WeightAdd(limit, [], m);
    assert [] + [m] == [m];
    WeightAtLeastSize(limit, s.remains);
    WeightNone(limit);
  }

  lemma WeightNone(limit: int)
    ensures QueueWeight(limit, []) == 0
  {
  }

  lemma TakeUpWeighs(s: State, m: Tracked)
    requires s.retry.phase.Round? && s.retry.phase.hand.Empty? && Account(m, 0, 1, Limit(s))
    ensures Remaining(TakeUp(s, m)) + 1 <= Remaining(s) + Weight(Limit(s), m)
  {
    hide QueueWeight;
  }

  lemma RetryWeighs(s: State, act: RetryAct)
    requires Accounted(s) && RetryEnabled(s, act)
    ensures Remaining(RetryApply(s, act)) + IsPop(Retry(act)) <= Remaining(s)
  {
    hide QueueWeight, AllAccount, Write, TakeUp;
    var limit := Limit(s);
    match act
    case Pop(k) =>
      WeightRemove(limit, s.queue, k);
      AccountRemove(s.queue, k, 0, 1, limit);
      TakeUpWeighs(s.(queue := s.queue[..k] + s.queue[k + 1..]), s.queue[k]);
    case PopRemains =>
      WeightRemove(limit, s.remains, 0);
      AccountRemove(s.remains, 0, 0, 1, limit);
      assert s.remains[..0] + s.remains[1..] == s.remains[1..];
      TakeUpWeighs(s.(remains := s.remains[1..]), s.remains[0]);
    case RetryPush(w) =>
      if !w.Refused? {
        var s1 := s.(retry := s.retry.(phase := s.retry.phase.(hand := Empty),
                                       owes := [CountRetry, CountRetryTotal, CountLatency]));
        WriteWeighs(s1, RetryHand(s).msg, w);
      }
    case _ =>
  }

  lemma FirstWeighs(s: State, act: FirstAct)
    requires Accounted(s) && FirstEnabled(s, act)
    ensures Remaining(FirstApply(s, act)) <= Remaining(s) + Limit(s) * IsArrival(First(act))
  {
    hide QueueWeight, AllAccount, Write;
    match act
    case FirstPush(Stored) =>
      WriteWeighs(s.(first := s.first.(hand := Empty, owes := [CountFailed, CountRetryTotal, CountLatency])),
                  s.first.hand.msg, Stored);
    case FirstPush(Torn) =>
      WriteWeighs(s.(first := s.first.(hand := Empty, owes := [CountLatency]), tornFirst := s.tornFirst + 1),
                  s.first.hand.msg, Torn);
    case _ =>
  }

  lemma StepWeighs(s: State, step: Step)
    requires Accounted(s) && Enabled(s, step)
    ensures Remaining(Apply(s, step)) + IsPop(step) <= Remaining(s) + Limit(s) * IsArrival(step)
  {
    hide QueueWeight, AllAccount, RetryEnabled, RetryApply, FirstEnabled, FirstApply;
    match step
    case First(act) => FirstWeighs(s, act);
    case Retry(act) => RetryWeighs(s, act);
    case _ =>
  }

  lemma {:induction false} RunWeighs(s: State, steps: seq<Step>)
    requires Accounted(s) && Legal(s, steps)
    ensures Pops(steps) + Remaining(Run(s, steps)) <= Remaining(s) + Limit(s) * Arrivals(steps)
    decreases |steps|
  {
    hide Accounted, Enabled, Apply, Remaining, IsPop, IsArrival;
    if steps != [] {
      var s1 := Apply(s, steps[0]);
      StepWeighs(s, steps[0]);
      StepAccounts(s, steps[0]);
      RunWeighs(s1, steps[1..]);
      Distribute(Limit(s), IsArrival(steps[0]), Arrivals(steps[1..]));
    }
  }

  lemma Distribute(l: int, a: nat, b: nat)
    ensures l * (a + b) == l * a + l * b
  {
  }

  lemma RemainingAtLeastSize(s: State)
    requires Accounted(s)
    ensures Remaining(s) >= |s.queue| + |s.remains|
  {
    WeightAtLeastSize(Limit(s), s.queue);
    WeightAtLeastSize(Limit(s), s.remains);
  }

  /**
   Draining ends whatever the order of pops, and over torn pushes and restarts: in any run the
   successful pops, and the messages still stored, are bounded by the weight of the queue at its
   start plus the retry limit for each message the first worker adds on the way.
   */
  lemma DrainBound(s: State, steps: seq<Step>)
    requires Accounted(s) && Legal(s, steps)
    ensures Pops(steps) + |Run(s, steps).queue| + |Run(s, steps).remains| <= Remaining(s) + Limit(s) * Arrivals(steps)
  {
    RunWeighs(s, steps);
    RunAccounts(s, steps);
    RemainingAtLeastSize(Run(s, steps));
  }
}
