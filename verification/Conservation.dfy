/** Where messages are: every ingested message is always in exactly one place. */
module Conservation {
  import opened Delivery

  function Occurs(ms: seq<Tracked>, id: nat): nat {
    if ms == [] then 0 else Occurs(ms[..|ms| - 1], id) + if ms[|ms| - 1].id == id then 1 else 0
  }

  function OccursInHand(h: Hand, id: nat): nat {
    if !h.Empty? && h.msg.id == id then 1 else 0
  }

  function OccursInEnds(e: Ends, id: nat): nat {
    Occurs(e.delivered, id) + Occurs(e.abandoned, id) + Occurs(e.dropped, id)
    + Occurs(e.lostFirst, id) + Occurs(e.lostRetry, id) + Occurs(e.overwritten, id) + Occurs(e.crashed, id)
  }

  /** In how many places a message is. */
  function Places(s: State, id: nat): nat {
    Occurs(s.channel, id) + OccursInHand(s.first.hand, id)
    + Occurs(s.queue, id) + Occurs(s.remains, id) + OccursInHand(RetryHand(s), id)
    + OccursInEnds(s.ends, id)
  }

  /** Every message ever ingested is in exactly one place, and there are no others. */
  ghost predicate Conserved(s: State) {
    forall id: nat :: Places(s, id) == if id < s.ingested then 1 else 0
  }

  lemma {:induction false} OccursConcat(a: seq<Tracked>, b: seq<Tracked>, id: nat)
    ensures Occurs(a + b, id) == Occurs(a, id) + Occurs(b, id)
  {
    if b == [] {
      assert a + b == a;
    } else {
      assert (a + b)[..|a + b| - 1] == a + b[..|b| - 1];
      OccursConcat(a, b[..|b| - 1], id);
    }
  }

  lemma OccursAdd(ms: seq<Tracked>, m: Tracked, id: nat)
    ensures Occurs(ms + [m], id) == Occurs(ms, id) + if m.id == id then 1 else 0
  {
    assert (ms + [m])[..|ms|] == ms;
  }

  lemma OccursRemove(ms: seq<Tracked>, k: nat, id: nat)
    requires k < |ms|
    ensures Occurs(ms, id) == Occurs(ms[..k] + ms[k + 1..], id) + if ms[k].id == id then 1 else 0
  {
    assert ms == (ms[..k] + [ms[k]]) + ms[k + 1..];
    OccursConcat(ms[..k] + [ms[k]], ms[k + 1..], id);
    OccursConcat(ms[..k], ms[k + 1..], id);
    OccursAdd(ms[..k], ms[k], id);
  }

  lemma WriteOccurs(s: State, m: Tracked, w: Written, id: nat)
    requires !w.Refused?
    ensures var t := Write(s, m, w);
            Occurs(t.queue, id) + Occurs(t.remains, id) + Occurs(t.ends.overwritten, id)
            == Occurs(s.queue, id) + Occurs(s.remains, id) + Occurs(s.ends.overwritten, id)
               + if m.id == id then 1 else 0
  {
    hide Occurs;
    OccursNone(id);
    OccursAdd(s.queue, m, id);
    OccursAdd([], m, id);
    assert [] + [m] == [m];
    OccursConcat(s.ends.overwritten, s.remains, id);
  }

  /** A write adds its message to the queue or the remains and moves earlier remains to the overwritten. */
  lemma WriteMoves(s: State, m: Tracked, w: Written, id: nat)
    requires !w.Refused?
    ensures Places(Write(s, m, w), id) == Places(s, id) + if m.id == id then 1 else 0
  {
    hide Occurs;
    WriteOccurs(s, m, w, id);
    var t := Write(s, m, w);
    assert t.ends == s.ends.(overwritten := t.ends.overwritten);
    assert t == s.(queue := t.queue, remains := t.remains, ends := t.ends);
    hide Write;
  }

  lemma OccursNone(id: nat)
    ensures Occurs([], id) == 0
  {
  }

  lemma TakeUpMoves(s: State, m: Tracked, id: nat)
    requires s.retry.phase.Round? && s.retry.phase.hand.Empty?
    ensures Places(TakeUp(s, m), id) == Places(s, id) + if m.id == id then 1 else 0
  {
    hide Occurs;
    OccursAdd(s.ends.abandoned, m, id);
    assert TakeUp(s, m).ends == s.ends.(abandoned := TakeUp(s, m).ends.abandoned);
  }

  lemma FirstMoves(s: State, act: FirstAct, id: nat)
    requires FirstEnabled(s, act)
    ensures Places(FirstApply(s, act), id) == Places(s, id)
  {
    hide Occurs, Write;
    match act
    case Take =>
      OccursRemove(s.channel, 0, id);
      assert s.channel[..0] + s.channel[1..] == s.channel[1..];
    case FirstDelivers =>
      OccursAdd(s.ends.delivered, Tried(s.first.hand.msg), id);
    case FirstPush(Stored) =>
      WriteMoves(s.(first := s.first.(hand := Empty, owes := [CountFailed, CountRetryTotal, CountLatency])),
                 s.first.hand.msg, Stored, id);
    case FirstPush(Torn) =>
      WriteMoves(s.(first := s.first.(hand := Empty, owes := [CountLatency]), tornFirst := s.tornFirst + 1),
                 s.first.hand.msg, Torn, id);
    case FirstPush(Refused) =>
      OccursAdd(s.ends.lostFirst, s.first.hand.msg, id);
    case _ =>
  }

  lemma RetryMoves(s: State, act: RetryAct, id: nat)
    requires RetryEnabled(s, act)
    ensures Places(RetryApply(s, act), id) == Places(s, id)
  {
    hide Occurs, Write, TakeUp;
    match act
    case Pop(k) =>
      OccursRemove(s.queue, k, id);
      TakeUpMoves(s.(queue := s.queue[..k] + s.queue[k + 1..]), s.queue[k], id);
    case PopRemains =>
      OccursRemove(s.remains, 0, id);
      assert s.remains[..0] + s.remains[1..] == s.remains[1..];
      TakeUpMoves(s.(remains := s.remains[1..]), s.remains[0], id);
    case RetryDelivers =>
      OccursAdd(s.ends.delivered, Tried(RetryHand(s).msg), id);
    case RetryPush(w) =>
      var s1 := s.(retry := s.retry.(phase := s.retry.phase.(hand := Empty),
                                     owes := [CountRetry, CountRetryTotal, CountLatency]));
      if w.Refused? {
        OccursAdd(s.ends.lostRetry, RetryHand(s).msg, id);
      } else {
        WriteMoves(s1, RetryHand(s).msg, w, id);
      }
    case _ =>
  }

  lemma OccursInHands(h: Hand, id: nat)
    ensures Occurs(InHand(h), id) == OccursInHand(h, id)
  {
    if !h.Empty? { assert [h.msg][..0] == []; }
  }

  /** What a process had in memory when it died is counted among the crashed. */
  lemma RestartMoves(s: State, id: nat)
    ensures Places(Restarted(s), id) == Places(s, id)
  {
    hide Occurs;
    var hands := InHand(s.first.hand) + InHand(RetryHand(s));
    OccursConcat(s.ends.crashed, s.channel + hands, id);
    OccursConcat(s.channel, hands, id);
    OccursConcat(InHand(s.first.hand), InHand(RetryHand(s)), id);
    OccursInHands(s.first.hand, id);
    OccursInHands(RetryHand(s), id);
    OccursNone(id);
  }

  /** A step moves messages between places; only an ingestion brings in a new one. */
  lemma StepMoves(s: State, step: Step, id: nat)
    requires Enabled(s, step)
    ensures Places(Apply(s, step), id) == Places(s, id) + if step == Ingest && id == s.ingested then 1 else 0
  {
    hide Occurs, FirstApply, RetryApply, FirstEnabled, RetryEnabled, Restarted;
    match step
    case Restart => RestartMoves(s, id);
    case Ingest =>
      var m := Tracked(s.ingested, 0, 0);
      OccursAdd(s.channel, m, id);
      OccursAdd(s.ends.dropped, m, id);
    case First(act) => FirstMoves(s, act, id);
    case Retry(act) => RetryMoves(s, act, id);
    case _ =>
  }

  lemma StepCountsIngested(s: State, step: Step)
    requires Enabled(s, step)
    ensures Apply(s, step).ingested == s.ingested + if step == Ingest then 1 else 0
  {
    hide FirstEnabled, FirstApply, RetryEnabled, RetryApply;
    match step
    case First(act) => FirstCountsNone(s, act);
    case Retry(act) => RetryCountsNone(s, act);
    case _ =>
  }

  lemma FirstCountsNone(s: State, act: FirstAct)
    requires FirstEnabled(s, act)
    ensures FirstApply(s, act).ingested == s.ingested
  {
  }

  lemma RetryCountsNone(s: State, act: RetryAct)
    requires RetryEnabled(s, act)
    ensures RetryApply(s, act).ingested == s.ingested
  {
  }

  lemma StepConserves(s: State, step: Step)
    requires Conserved(s) && Enabled(s, step)
    ensures Conserved(Apply(s, step))
  {
    hide Places, Apply, Enabled;
    StepCountsIngested(s, step);
    forall id: nat ensures Places(Apply(s, step), id) == if id < Apply(s, step).ingested then 1 else 0 {
      StepMoves(s, step, id);
    }
  }

  /** Conservation over every run of every interleaving. */
  lemma {:induction false} RunConserves(s: State, steps: seq<Step>)
    requires Conserved(s) && Legal(s, steps)
    ensures Conserved(Run(s, steps))
    decreases |steps|
  {
    hide Conserved, Apply, Enabled;
    if steps != [] {
      StepConserves(s, steps[0]);
      RunConserves(Apply(s, steps[0]), steps[1..]);
    }
  }

  /** From the start: each of the messages ingested so far has exactly one place. */
  lemma EveryMessageInOnePlace(maxAttempts: int, steps: seq<Step>, id: nat)
    requires Legal(Init(maxAttempts), steps)
    ensures Places(Run(Init(maxAttempts), steps), id) == if id < Run(Init(maxAttempts), steps).ingested then 1 else 0
  {
    RunConserves(Init(maxAttempts), steps);
  }

  /** The channel never holds more than its capacity, and a message is dropped only when it is full. */
  lemma {:induction false} ChannelWithinCapacity(s: State, steps: seq<Step>)
    requires Legal(s, steps) && |s.channel| <= CHANNEL_CAPACITY
    ensures |Run(s, steps).channel| <= CHANNEL_CAPACITY
    ensures Run(s, steps).ends.dropped != s.ends.dropped ==>
              exists n :: 0 <= n < |steps| && Legal(s, steps[..n]) && |Run(s, steps[..n]).channel| == CHANNEL_CAPACITY
    decreases |steps|
  {
    if steps != [] {
      StepChannel(s, steps[0]);
      hide Apply, Enabled;
      var t := Apply(s, steps[0]);
      ChannelWithinCapacity(t, steps[1..]);
      if |s.channel| == CHANNEL_CAPACITY {
        assert Legal(s, steps[..0]) && Run(s, steps[..0]) == s;
      } else if Run(s, steps).ends.dropped != s.ends.dropped {
        var rest := steps[1..];
        var n :| 0 <= n < |rest| && Legal(t, rest[..n]) && |Run(t, rest[..n]).channel| == CHANNEL_CAPACITY;
        assert steps[..n + 1][1..] == rest[..n];
        assert Legal(s, steps[..n + 1]) && Run(s, steps[..n + 1]) == Run(t, rest[..n]);
      }
    }
  }

  lemma StepChannel(s: State, step: Step)
    requires Enabled(s, step) && |s.channel| <= CHANNEL_CAPACITY
    ensures |Apply(s, step).channel| <= CHANNEL_CAPACITY
    ensures |s.channel| < CHANNEL_CAPACITY ==> Apply(s, step).ends.dropped == s.ends.dropped
  {
    hide FirstEnabled, FirstApply, RetryEnabled, RetryApply;
    match step
    case First(act) => FirstChannel(s, act);
    case Retry(act) => RetryChannel(s, act);
    case _ =>
  }

  lemma FirstChannel(s: State, act: FirstAct)
    requires FirstEnabled(s, act)
    ensures |FirstApply(s, act).channel| <= |s.channel| && FirstApply(s, act).ends.dropped == s.ends.dropped
  {
  }

  lemma RetryChannel(s: State, act: RetryAct)
    requires RetryEnabled(s, act)
    ensures RetryApply(s, act).channel == s.channel && RetryApply(s, act).ends.dropped == s.ends.dropped
  {
  }

  /** Conservation makes the identities in the queue distinct. */
  lemma {:induction false} OccursOften(ms: seq<Tracked>, i: nat, j: nat)
    requires i < j < |ms| && ms[i].id == ms[j].id
    ensures Occurs(ms, ms[i].id) >= 2
  {
    var id := ms[i].id;
    assert ms == ms[..j] + ms[j..];
    OccursConcat(ms[..j], ms[j..], id);
    OccursRemove(ms[..j], i, id);
    OccursRemove(ms[j..], 0, id);
  }

  ghost predicate DistinctIds(ms: seq<Tracked>) {
    forall i, j :: 0 <= i < j < |ms| ==> ms[i].id != ms[j].id
  }

  /** The stored messages, those of torn pushes included, are all different. */
  lemma QueueDistinct(s: State)
    requires Conserved(s)
    ensures DistinctIds(s.queue + s.remains) && DistinctIds(s.queue)
  {
    var all := s.queue + s.remains;
    forall i, j | 0 <= i < j < |all| ensures all[i].id != all[j].id {
      assert Places(s, all[i].id) <= 1;
      OccursConcat(s.queue, s.remains, all[i].id);
      if all[i].id == all[j].id {
        OccursOften(all, i, j);
      }
    }
    forall i, j | 0 <= i < j < |s.queue| ensures s.queue[i].id != s.queue[j].id {
      assert all[i].id != all[j].id;
    }
  }
}
