/** The channel hands messages out first-in first-out, so first attempts begin in order of ingestion. */
module ChannelOrder {
  import opened Delivery

  /** Every message has an identity below the bound. */
  ghost predicate Below(ms: seq<Tracked>, bound: nat) {
    forall m :: m in ms ==> m.id < bound
  }

  ghost predicate HandBelow(h: Hand, bound: nat) {
    !h.Empty? ==> h.msg.id < bound
  }

  ghost predicate AscendingIds(ms: seq<Tracked>) {
    forall i, j :: 0 <= i < j < |ms| ==> ms[i].id < ms[j].id
  }

  /** The identity of the next message to leave the channel, known when it is empty as well. */
  function NextId(s: State): nat {
    if s.channel == [] then s.ingested else s.channel[0].id
  }

  /** All messages that have left the channel: every place but the channel itself and the dropped. */
  ghost predicate GoneBelow(s: State, bound: nat) {
    && HandBelow(s.first.hand, bound) && HandBelow(RetryHand(s), bound)
    && Below(s.queue, bound) && Below(s.remains, bound)
    && Below(s.ends.delivered, bound) && Below(s.ends.abandoned, bound)
    && Below(s.ends.lostFirst, bound) && Below(s.ends.lostRetry, bound)
    && Below(s.ends.overwritten, bound) && Below(s.ends.crashed, bound)
  }

  /** Identities ascend in the channel, and those of all messages that have left it come before. */
  ghost predicate InOrderOfIngestion(s: State) {
    && AscendingIds(s.channel) && Below(s.channel, s.ingested)
    && NextId(s) <= s.ingested && GoneBelow(s, NextId(s))
  }

  lemma BelowConcat(a: seq<Tracked>, b: seq<Tracked>, bound: nat)
    ensures Below(a + b, bound) <==> Below(a, bound) && Below(b, bound)
  {
    var all := a + b;
    if Below(all, bound) {
      forall m | m in a ensures m.id < bound { assert m in all; }
      forall m | m in b ensures m.id < bound { assert m in all; }
    }
  }

  lemma BelowOne(m: Tracked, bound: nat)
    ensures Below([m], bound) <==> m.id < bound
  {
    assert m in [m];
  }

  lemma BelowRaised(ms: seq<Tracked>, bound: nat, bound': nat)
    requires Below(ms, bound) && bound <= bound'
    ensures Below(ms, bound')
  {
  }

  lemma GoneBelowRaised(s: State, bound: nat, bound': nat)
    requires GoneBelow(s, bound) && bound <= bound'
    ensures GoneBelow(s, bound')
  {
  }

  lemma WriteBelow(s: State, m: Tracked, w: Written, bound: nat)
    requires GoneBelow(s, bound) && m.id < bound && !w.Refused?
    ensures GoneBelow(Write(s, m, w), bound)
  {
    hide Below;
    BelowOne(m, bound);
    BelowConcat(s.queue, [m], bound);
    BelowConcat(s.ends.overwritten, s.remains, bound);
    assert Below([], bound) by { NoneBelow(bound); }
  }

  lemma NoneBelow(bound: nat)
    ensures Below([], bound)
  {
  }

  lemma TakeUpBelow(s: State, m: Tracked, bound: nat)
    requires GoneBelow(s, bound) && m.id < bound && s.retry.phase.Round?
    ensures GoneBelow(TakeUp(s, m), bound)
  {
    hide Below;
    BelowOne(m, bound);
    BelowConcat(s.ends.abandoned, [m], bound);
  }

  /** The first worker takes the next message; nothing else it does touches the channel. */
  lemma FirstKeepsOrder(s: State, act: FirstAct)
    requires InOrderOfIngestion(s) && FirstEnabled(s, act)
    ensures InOrderOfIngestion(FirstApply(s, act))
  {
    match act
    case Take => TakeKeepsOrder(s);
    case _ =>
      FirstBelow(s, act, NextId(s));
      FirstKeepsChannel(s, act);
      hide *;
      UnchangedOrder(s, FirstApply(s, act));
  }

  lemma UnchangedOrder(s: State, t: State)
    requires InOrderOfIngestion(s) && t.channel == s.channel && t.ingested == s.ingested && GoneBelow(t, NextId(s))
    ensures InOrderOfIngestion(t)
  {
  }

  lemma TakeKeepsOrder(s: State)
    requires InOrderOfIngestion(s) && FirstEnabled(s, Take)
    ensures InOrderOfIngestion(FirstApply(s, Take))
  {
    hide Below;
    var t := FirstApply(s, Take);
    var next := NextId(t);
    assert s.channel == [s.channel[0]] + t.channel;
    BelowConcat([s.channel[0]], t.channel, s.ingested);
    assert t.channel != [] ==> t.channel[0] == s.channel[1];
    BelowOne(s.channel[0], s.ingested);
    GoneBelowRaised(s, NextId(s), next);
    if t.channel != [] { BelowHead(t.channel, s.ingested); }
  }

  lemma BelowHead(ms: seq<Tracked>, bound: nat)
    requires Below(ms, bound) && ms != []
    ensures ms[0].id < bound
  {
  }

  lemma FirstKeepsChannel(s: State, act: FirstAct)
    requires FirstEnabled(s, act) && !act.Take?
    ensures FirstApply(s, act).channel == s.channel && FirstApply(s, act).ingested == s.ingested
  {
  }

  lemma FirstBelow(s: State, act: FirstAct, bound: nat)
    requires GoneBelow(s, bound) && FirstEnabled(s, act) && !act.Take?
    ensures GoneBelow(FirstApply(s, act), bound)
  {
    hide Below, Write;
    match act
    case FirstDelivers =>
      BelowOne(Tried(s.first.hand.msg), bound);
      BelowConcat(s.ends.delivered, [Tried(s.first.hand.msg)], bound);
    case FirstPush(Stored) =>
      WriteBelow(s.(first := s.first.(hand := Empty, owes := [CountFailed, CountRetryTotal, CountLatency])),
                 s.first.hand.msg, Stored, bound);
    case FirstPush(Torn) =>
      WriteBelow(s.(first := s.first.(hand := Empty, owes := [CountLatency]), tornFirst := s.tornFirst + 1),
                 s.first.hand.msg, Torn, bound);
    case FirstPush(Refused) =>
      BelowOne(s.first.hand.msg, bound);
      BelowConcat(s.ends.lostFirst, [s.first.hand.msg], bound);
    case _ =>
  }

  lemma RetryKeepsOrder(s: State, act: RetryAct)
    requires InOrderOfIngestion(s) && RetryEnabled(s, act)
    ensures InOrderOfIngestion(RetryApply(s, act))
  {
    RetryBelow(s, act, NextId(s));
    RetryKeepsChannel(s, act);
    hide *;
    UnchangedOrder(s, RetryApply(s, act));
  }

  lemma RetryKeepsChannel(s: State, act: RetryAct)
    requires RetryEnabled(s, act)
    ensures RetryApply(s, act).channel == s.channel && RetryApply(s, act).ingested == s.ingested
  {
  }

  lemma RetryBelow(s: State, act: RetryAct, bound: nat)
    requires GoneBelow(s, bound) && RetryEnabled(s, act)
    ensures GoneBelow(RetryApply(s, act), bound)
  {
    hide Below, Write, TakeUp;
    match act
    case Pop(k) =>
      assert s.queue == s.queue[..k] + ([s.queue[k]] + s.queue[k + 1..]);
      BelowConcat(s.queue[..k], [s.queue[k]] + s.queue[k + 1..], bound);
      BelowConcat([s.queue[k]], s.queue[k + 1..], bound);
      BelowConcat(s.queue[..k], s.queue[k + 1..], bound);
      BelowOne(s.queue[k], bound);
      TakeUpBelow(s.(queue := s.queue[..k] + s.queue[k + 1..]), s.queue[k], bound);
    case PopRemains =>
      assert s.remains == [s.remains[0]] + s.remains[1..];
      BelowConcat([s.remains[0]], s.remains[1..], bound);
      BelowOne(s.remains[0], bound);
      TakeUpBelow(s.(remains := s.remains[1..]), s.remains[0], bound);
    case RetryDelivers =>
      BelowOne(Tried(RetryHand(s).msg), bound);
      BelowConcat(s.ends.delivered, [Tried(RetryHand(s).msg)], bound);
    case RetryPush(w) =>
      if w.Refused? {
        BelowOne(RetryHand(s).msg, bound);
        BelowConcat(s.ends.lostRetry, [RetryHand(s).msg], bound);
      } else {
        var s1 := s.(retry := s.retry.(phase := s.retry.phase.(hand := Empty),
                                       owes := [CountRetry, CountRetryTotal, CountLatency]));
        WriteBelow(s1, RetryHand(s).msg, w, bound);
      }
    case _ =>
  }

  lemma AppendAscends(ms: seq<Tracked>, m: Tracked)
    requires AscendingIds(ms) && Below(ms, m.id)
    ensures AscendingIds(ms + [m]) && Below(ms + [m], m.id + 1)
  {
    var all := ms + [m];
    forall i, j | 0 <= i < j < |all| ensures all[i].id < all[j].id {
      assert all[i] in ms;
      assert j < |ms| ==> all[j] == ms[j];
    }
    forall x | x in all ensures x.id < m.id + 1 {
      assert x in ms || x == m;
    }
  }

  lemma IngestKeepsOrder(s: State)
    requires InOrderOfIngestion(s)
    ensures InOrderOfIngestion(Ingested(s))
  {
    hide Below, AscendingIds;
    var m := Tracked(s.ingested, 0, 0);
    AppendAscends(s.channel, m);
    BelowRaised(s.channel, s.ingested, s.ingested + 1);
    hide GoneBelow;
    assert GoneBelow(Ingested(s), NextId(s)) by { DropKeepsGone(s, NextId(s)); }
    assert s.channel != [] ==> (s.channel + [m])[0] == s.channel[0];
  }

  lemma DropKeepsGone(s: State, bound: nat)
    requires GoneBelow(s, bound)
    ensures GoneBelow(Ingested(s), bound)
  {
    hide Below;
  }

  lemma RestartKeepsOrder(s: State)
    requires InOrderOfIngestion(s)
    ensures InOrderOfIngestion(Restarted(s))
  {
    hide Below, AscendingIds;
    var first, retry, bound := InHand(s.first.hand), InHand(RetryHand(s)), s.ingested;
    GoneBelowRaised(s, NextId(s), bound);
    assert Below(first, bound) && Below(retry, bound) by { HandsBelow(s, bound); }
    BelowConcat(first, retry, bound);
    BelowConcat(s.channel, first + retry, bound);
    BelowConcat(s.ends.crashed, s.channel + (first + retry), bound);
    NoneBelow(bound);
    assert AscendingIds([]) by { NoneAscending(); }
  }

  lemma NoneAscending()
    ensures AscendingIds([])
  {
  }

  lemma HandsBelow(s: State, bound: nat)
    requires GoneBelow(s, bound)
    ensures Below(InHand(s.first.hand), bound) && Below(InHand(RetryHand(s)), bound)
  {
  }

  lemma StepKeepsOrder(s: State, step: Step)
    requires InOrderOfIngestion(s) && Enabled(s, step)
    ensures InOrderOfIngestion(Apply(s, step))
  {
    hide InOrderOfIngestion, FirstEnabled, FirstApply, RetryEnabled, RetryApply, Ingested, Restarted;
    match step
    case Ingest => IngestKeepsOrder(s);
    case First(act) => FirstKeepsOrder(s, act);
    case Retry(act) => RetryKeepsOrder(s, act);
    case Restart => RestartKeepsOrder(s);
    case _ => OthersKeepOrder(s, step);
  }

  lemma OthersKeepOrder(s: State, step: Step)
    requires InOrderOfIngestion(s) && Enabled(s, step)
    requires step.IngesterExits? || step.ResetCounters? || step.SignalStop? || step.CloseQueue?
    ensures InOrderOfIngestion(Apply(s, step))
  {
  }

  lemma {:induction false} RunKeepsOrder(s: State, steps: seq<Step>)
    requires InOrderOfIngestion(s) && Legal(s, steps)
    ensures InOrderOfIngestion(Run(s, steps))
    decreases |steps|
  {
    hide InOrderOfIngestion, Enabled, Apply;
    if steps != [] {
      StepKeepsOrder(s, steps[0]);
      RunKeepsOrder(Apply(s, steps[0]), steps[1..]);
    }
  }

  /** In every reachable state the channel is in order and behind every message that has left it. */
  lemma ChannelIsFirstInFirstOut(maxAttempts: int, steps: seq<Step>)
    requires Legal(Init(maxAttempts), steps)
    ensures var s := Run(Init(maxAttempts), steps);
            && (forall i, j :: 0 <= i < j < |s.channel| ==> s.channel[i].id < s.channel[j].id < s.ingested)
            && (s.channel != [] && !s.first.hand.Empty? ==> s.first.hand.msg.id < s.channel[0].id)
            && (forall m, n | m in s.queue + s.remains + s.ends.delivered + s.ends.abandoned && n in s.channel ::
                  m.id < n.id)
  {
    RunKeepsOrder(Init(maxAttempts), steps);
    var s := Run(Init(maxAttempts), steps);
    hide Legal, Run;
    forall i, j | 0 <= i < j < |s.channel| ensures s.channel[i].id < s.channel[j].id < s.ingested {
      assert s.channel[j] in s.channel;
    }
    forall n | n in s.channel ensures s.channel[0].id <= n.id {
      var j :| 0 <= j < |s.channel| && s.channel[j] == n;
    }
  }

  // ---- the order of first attempts ------------------------------------------------------------------

  /** The identities the first worker takes from the channel in a run, in this order. */
  function TakenIds(s: State, steps: seq<Step>): seq<nat>
    requires Legal(s, steps)
    decreases |steps|
  {
    if steps == [] then []
    else
      var rest := TakenIds(Apply(s, steps[0]), steps[1..]);
      if steps[0] == First(Take) then [Apply(s, steps[0]).first.hand.msg.id] + rest else rest
  }

  lemma StepRaisesNext(s: State, step: Step)
    requires InOrderOfIngestion(s) && Enabled(s, step)
    ensures NextId(s) <= NextId(Apply(s, step))
    ensures step == First(Take) ==>
              && Apply(s, step).first.hand.Sending?
              && NextId(s) <= Apply(s, step).first.hand.msg.id < NextId(Apply(s, step))
  {
    StepKeepsOrder(s, step);
    hide Below, Write, TakeUp;
    match step
    case First(act) => if !act.Take? { FirstKeepsChannel(s, act); }
    case Retry(act) => RetryKeepsChannel(s, act); hide RetryApply;
    case _ =>
  }

  ghost predicate AscendingFrom(ids: seq<nat>, low: nat) {
    && (forall i :: 0 <= i < |ids| ==> low <= ids[i])
    && (forall i, j :: 0 <= i < j < |ids| ==> ids[i] < ids[j])
  }

  lemma AscendingLower(ids: seq<nat>, low: nat, low': nat)
    requires AscendingFrom(ids, low) && low' <= low
    ensures AscendingFrom(ids, low')
  {
  }

  lemma AscendingAfter(id: nat, rest: seq<nat>, low: nat)
    requires AscendingFrom(rest, low) && id < low
    ensures AscendingFrom([id] + rest, id)
  {
  }

  /**
   Whatever the other workers do, whatever is dropped and however often the process is restarted:
   first attempts begin in order of ingestion.
   */
  lemma {:induction false} FirstAttemptsInOrder(s: State, steps: seq<Step>)
    requires InOrderOfIngestion(s) && Legal(s, steps)
    ensures AscendingFrom(TakenIds(s, steps), NextId(s))
    decreases |steps|
  {
    hide InOrderOfIngestion, Enabled, Apply, NextId, AscendingFrom;
    if steps == [] {
      assert AscendingFrom([], NextId(s)) by { NoneAscendingFrom(NextId(s)); }
    } else {
      var t := Apply(s, steps[0]);
      StepKeepsOrder(s, steps[0]);
      StepRaisesNext(s, steps[0]);
      FirstAttemptsInOrder(t, steps[1..]);
      var rest := TakenIds(t, steps[1..]);
      if steps[0] == First(Take) {
        var id := t.first.hand.msg.id;
        AscendingAfter(id, rest, NextId(t));
        AscendingLower([id] + rest, id, NextId(s));
      } else {
        AscendingLower(rest, NextId(t), NextId(s));
      }
    }
  }

  lemma NoneAscendingFrom(low: nat)
    ensures AscendingFrom([], low)
  {
  }

  /** From the start of the program. */
  lemma FirstAttemptsInOrderOfIngestion(maxAttempts: int, steps: seq<Step>)
    requires Legal(Init(maxAttempts), steps)
    ensures var ids := TakenIds(Init(maxAttempts), steps);
            forall i, j :: 0 <= i < j < |ids| ==> ids[i] < ids[j]
  {
    FirstAttemptsInOrder(Init(maxAttempts), steps);
  }
}
