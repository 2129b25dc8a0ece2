/**
 A retry round over the durable queue: when it pops each message it saw once, whatever fails and
 whatever the first worker queues meanwhile.
 */
module DurableRounds {
  import opened ByteOrder
  import opened Decimal
  import opened Delivery
  import opened Queue
  import opened LevelDbQueue
  import opened FifoRefinement

  /**
   What happens around one pop of a round: the messages the first worker queues before it and
   during the attempt, and whether the attempt succeeds.
   */
  datatype Turn = Turn(before: seq<Tracked>, during: seq<Tracked>, ok: bool)

  /** A round under way: the store, the messages popped so far, and whether the loop was left. */
  datatype Pass = Pass(store: Store<Tracked>, popped: seq<Tracked>, over: bool)

  function PushAll(s: Store<Tracked>, ms: seq<Tracked>): Store<Tracked> {
    if ms == [] then s else PushStep(PushAll(s, ms[..|ms| - 1]), ms[|ms| - 1], NoFault).0
  }

  function Iterate(p: Pass, maxAttempts: int, turn: Turn): Pass {
    if p.over then p
    else
      var met := PushAll(p.store, turn.before);
      var (rest, r) := PopStep(met, NoFault);
      if !r.Item? then Pass(met, p.popped, true)
      else
        var popped := p.popped + [r.msg];
        if r.msg.attempts >= maxAttempts then Pass(rest, popped, false)
        else
          var later := PushAll(rest, turn.during);
          Pass(if turn.ok then later else PushStep(later, FailedOnce(r.msg), NoFault).0, popped, false)
  }

  /** The first n iterations of a round over the store. */
  function RoundOver(s: Store<Tracked>, maxAttempts: int, turns: nat -> Turn, n: nat): Pass {
    if n == 0 then Pass(s, [], false) else Iterate(RoundOver(s, maxAttempts, turns, n - 1), maxAttempts, turns(n - 1))
  }

  /** The messages the first worker queues during n iterations. */
  function Arriving(turns: nat -> Turn, n: nat): nat {
    if n == 0 then 0 else Arriving(turns, n - 1) + |turns(n - 1).before| + |turns(n - 1).during|
  }

  /** A round that read the size of ms pops exactly the messages of ms, each once. */
  ghost predicate PopsEachOnce(s: Store<Tracked>, ms: seq<Tracked>, maxAttempts: int, turns: nat -> Turn) {
    multiset(RoundOver(s, maxAttempts, turns, |ms|).popped) == multiset(ms)
  }

  /**
   Whether every pop of a round over n messages meets an ordered range even if all before it came
   back and a messages arrived: told from size, counter and number of arrivals.
   */
  predicate OrderedRound(n: nat, c: nat, a: nat)
    requires n <= c
  {
    forall t: nat | t < n :: OrderedAt(n, c, a, t)
  }

  predicate OrderedAt(n: nat, c: nat, a: nat, t: nat)
    requires n <= c
  {
    InOrder(c - n + t, c + a + t)
  }

  // ---- an ordered round --------------------------------------------------------------------------

  lemma {:induction false} PushAllMirrors(s: Store<Tracked>, q: seq<Tracked>, ms: seq<Tracked>)
    requires Mirrors(s, Fifo(q, false)) && Counter(s.records).value + |ms| <= MAX_INT64
    ensures Mirrors(PushAll(s, ms), Fifo(q + ms, false))
    ensures Counter(PushAll(s, ms).records) == Some(Counter(s.records).value + |ms|)
  {
    hide Counter, PushStep;
    if ms == [] {
      assert q + ms == q;
      MirrorsMeaning(s, Fifo(q, false));
    } else {
      var front, last := ms[..|ms| - 1], ms[|ms| - 1];
      PushAllMirrors(s, q, front);
      var s1 := PushAll(s, front);
      PushMirrors(s1, Fifo(q + front, false), last);
      assert FifoStep(Fifo(q + front, false), Op.Push(last)).0 == Fifo(q + ms, false) by {
        assert (q + front) + [last] == q + ms;
      }
      MirrorsMeaning(PushAll(s, ms), Fifo(q + ms, false));
    }
  }

  lemma InOrderBelow(lo: nat, c: nat, c': nat)
    requires InOrder(lo, c) && c' <= c
    ensures InOrder(lo, c')
  {
  }

  /** The part of an iteration before the attempt, on an ordered range. */
  lemma OrderedPop(s: Store<Tracked>, head: Tracked, tail: seq<Tracked>, arrived: seq<Tracked>)
    requires Mirrors(s, Fifo([head] + tail, false)) && Counter(s.records).value + |arrived| <= MAX_INT64
    requires |[head] + tail| <= Counter(s.records).value
    requires InOrder(Counter(s.records).value - |[head] + tail|, Counter(s.records).value + |arrived|)
    ensures var (rest, r) := PopStep(PushAll(s, arrived), NoFault);
            && r == Item(head) && Mirrors(rest, Fifo(tail + arrived, false))
            && Counter(rest.records) == Some(Counter(s.records).value + |arrived|)
  {
    hide Mirrors, Counter, PushStep, PopStep, InOrder, PushAll;
    var q := [head] + tail;
    PushAllMirrors(s, q, arrived);
    var met := PushAll(s, arrived);
    MirrorsMeaning(met, Fifo(q + arrived, false));
    assert (q + arrived)[1..] == tail + arrived && (q + arrived)[0] == head;
    PopMirrors(met, Fifo(q + arrived, false));
  }

  /** The part from the attempt on: messages that arrive meanwhile, and this one if it comes back. */
  lemma AttemptMirrors(s: Store<Tracked>, q: seq<Tracked>, arrived: seq<Tracked>, back: seq<Tracked>)
    requires Mirrors(s, Fifo(q, false)) && |back| <= 1
    requires Counter(s.records).value + |arrived| + |back| <= MAX_INT64
    ensures var later := PushAll(s, arrived);
            var last := if back == [] then later else PushStep(later, back[0], NoFault).0;
            && Mirrors(last, Fifo(q + (arrived + back), false))
            && Counter(last.records) == Some(Counter(s.records).value + |arrived| + |back|)
  {
    hide Mirrors, Counter, PushStep, PushAll;
    PushAllMirrors(s, q, arrived);
    if back == [] {
      assert arrived + back == arrived;
    } else {
      var all := arrived + back;
      assert all[..|all| - 1] == arrived && all[|all| - 1] == back[0];
      PushAllMirrors(s, q, all);
      PushAllAdd(s, arrived, back[0]);
      assert all == arrived + [back[0]];
    }
  }

  lemma PushAllAdd(s: Store<Tracked>, ms: seq<Tracked>, m: Tracked)
    ensures PushAll(s, ms + [m]) == PushStep(PushAll(s, ms), m, NoFault).0
  {
    hide PushStep;
    assert (ms + [m])[..|ms|] == ms;
  }

  /** What an iteration that pops head puts behind the queue. */
  function Added(head: Tracked, maxAttempts: int, turn: Turn): seq<Tracked> {
    if head.attempts >= maxAttempts then turn.before
    else turn.before + (turn.during + if turn.ok then [] else [FailedOnce(head)])
  }

  /** One iteration that meets an ordered range: it pops the head of the queue. */
  lemma OrderedIteration(p: Pass, head: Tracked, tail: seq<Tracked>, maxAttempts: int, turn: Turn)
    requires !p.over && Mirrors(p.store, Fifo([head] + tail, false))
    requires Counter(p.store.records).value + |turn.before| + |turn.during| + 1 <= MAX_INT64
    requires |[head] + tail| <= Counter(p.store.records).value
    requires InOrder(Counter(p.store.records).value - |[head] + tail|, Counter(p.store.records).value + |turn.before|)
    ensures var p' := Iterate(p, maxAttempts, turn);
            var added := Added(head, maxAttempts, turn);
            && !p'.over && p'.popped == p.popped + [head]
            && Mirrors(p'.store, Fifo(tail + added, false))
            && Counter(p'.store.records) == Some(Counter(p.store.records).value + |added|)
  {
    hide Mirrors, Counter, PushStep, PopStep, InOrder, PushAll;
    OrderedPop(p.store, head, tail, turn.before);
    if head.attempts < maxAttempts {
      var rest := PopStep(PushAll(p.store, turn.before), NoFault).0;
      var back := if turn.ok then [] else [FailedOnce(head)];
      AttemptMirrors(rest, tail + turn.before, turn.during, back);
      assert (tail + turn.before) + (turn.during + back) == tail + (turn.before + (turn.during + back));
    }
  }

  lemma {:induction false} ArrivingMonotone(turns: nat -> Turn, t: nat, n: nat)
    requires t <= n
    ensures Arriving(turns, t) <= Arriving(turns, n)
  {
    if t < n { ArrivingMonotone(turns, t, n - 1); }
  }

  /** What the first t turns of a round over ms put behind the queue. */
  function AddedIn(ms: seq<Tracked>, maxAttempts: int, turns: nat -> Turn, t: nat): seq<Tracked>
    requires t <= |ms|
  {
    if t == 0 then [] else AddedIn(ms, maxAttempts, turns, t - 1) + Added(ms[t - 1], maxAttempts, turns(t - 1))
  }

  lemma {:induction false} AddedInSize(ms: seq<Tracked>, maxAttempts: int, turns: nat -> Turn, t: nat)
    requires t <= |ms|
    ensures |AddedIn(ms, maxAttempts, turns, t)| <= t + Arriving(turns, t)
  {
    if t > 0 { AddedInSize(ms, maxAttempts, turns, t - 1); }
  }

  /**
   In an ordered round the messages are popped in the order of the queue at its start, whatever
   comes back and whatever arrives.
   */
  lemma {:induction false} OrderedRoundPops(
    s: Store<Tracked>, ms: seq<Tracked>, maxAttempts: int, turns: nat -> Turn, a: nat, t: nat)
    requires Mirrors(s, Fifo(ms, false)) && t <= |ms|
    requires Arriving(turns, |ms|) <= a && Counter(s.records).value + a + |ms| <= MAX_INT64
    requires OrderedRound(|ms|, Counter(s.records).value, a)
    ensures var p, added := RoundOver(s, maxAttempts, turns, t), AddedIn(ms, maxAttempts, turns, t);
            && !p.over && p.popped == ms[..t]
            && Mirrors(p.store, Fifo(ms[t..] + added, false))
            && Counter(p.store.records) == Some(Counter(s.records).value + |added|)
  {
    hide Mirrors, Counter, Iterate, InOrder, Added;
    MirrorsMeaning(s, Fifo(ms, false));
    if t == 0 {
      assert ms[0..] + [] == ms;
    } else {
      OrderedRoundPops(s, ms, maxAttempts, turns, a, t - 1);
      var before := AddedIn(ms, maxAttempts, turns, t - 1);
      AddedInSize(ms, maxAttempts, turns, t - 1);
      var p := RoundOver(s, maxAttempts, turns, t - 1);
      var c, turn := Counter(s.records).value, turns(t - 1);
      ArrivingMonotone(turns, t, |ms|);
      var tail := ms[t..] + before;
      assert ms[t - 1..] + before == [ms[t - 1]] + tail;
      assert OrderedAt(|ms|, c, a, t - 1);
      InOrderBelow(c - |ms| + t - 1, c + a + t - 1, c + |before| + |turn.before|);
      OrderedIteration(p, ms[t - 1], tail, maxAttempts, turn);
      assert tail + Added(ms[t - 1], maxAttempts, turn) == ms[t..] + AddedIn(ms, maxAttempts, turns, t);
    }
  }

  /** No message is queued during the round. */
  ghost predicate Undisturbed(turns: nat -> Turn) {
    forall i: nat :: turns(i).before == turns(i).during == []
  }

  /** How many of the first n messages were tried and failed. */
  function FailedBefore(ms: seq<Tracked>, maxAttempts: int, turns: nat -> Turn, n: nat): nat
    requires n <= |ms|
  {
    if n == 0 then 0
    else FailedBefore(ms, maxAttempts, turns, n - 1)
         + if ms[n - 1].attempts < maxAttempts && !turns(n - 1).ok then 1 else 0
  }

  /** Message i, if it was tried and failed, is where it belongs among those that came back. */
  ghost predicate CameBack(ms: seq<Tracked>, maxAttempts: int, turns: nat -> Turn, i: nat, back: seq<Tracked>)
    requires i < |ms|
  {
    ms[i].attempts < maxAttempts && !turns(i).ok ==>
      var k := FailedBefore(ms, maxAttempts, turns, i);
      k < |back| && back[k] == ms[i].(attempts := ms[i].attempts + 1, calls := ms[i].calls + 1)
  }

  ghost predicate AllBack(ms: seq<Tracked>, maxAttempts: int, turns: nat -> Turn, n: nat, back: seq<Tracked>)
    requires n <= |ms|
  {
    |back| == FailedBefore(ms, maxAttempts, turns, n)
    && forall i: nat | i < n :: CameBack(ms, maxAttempts, turns, i, back)
  }

  lemma StillBack(
    ms: seq<Tracked>, maxAttempts: int, turns: nat -> Turn, i: nat, back: seq<Tracked>, more: seq<Tracked>)
    requires i < |ms| && CameBack(ms, maxAttempts, turns, i, back)
    ensures CameBack(ms, maxAttempts, turns, i, back + more)
  {
    hide FailedBefore;
  }

  /** One more turn: its message is put last if it was tried and failed. */
  lemma FailureAdded(ms: seq<Tracked>, maxAttempts: int, turns: nat -> Turn, n: nat)
    requires n < |ms| && turns(n).before == turns(n).during == []
    requires |AddedIn(ms, maxAttempts, turns, n)| == FailedBefore(ms, maxAttempts, turns, n)
    ensures var added := AddedIn(ms, maxAttempts, turns, n + 1);
            && added == AddedIn(ms, maxAttempts, turns, n) + Added(ms[n], maxAttempts, turns(n))
            && |added| == FailedBefore(ms, maxAttempts, turns, n + 1)
            && CameBack(ms, maxAttempts, turns, n, added)
  {
  }

  lemma OneMoreFailure(ms: seq<Tracked>, maxAttempts: int, turns: nat -> Turn, n: nat)
    requires n < |ms| && Undisturbed(turns)
    requires AllBack(ms, maxAttempts, turns, n, AddedIn(ms, maxAttempts, turns, n))
    ensures AllBack(ms, maxAttempts, turns, n + 1, AddedIn(ms, maxAttempts, turns, n + 1))
  {
    assert turns(n).before == turns(n).during == [];
    hide Added, AddedIn, FailedBefore, CameBack, Undisturbed, Arriving;
    FailureAdded(ms, maxAttempts, turns, n);
    var before, after := AddedIn(ms, maxAttempts, turns, n), AddedIn(ms, maxAttempts, turns, n + 1);
    forall i: nat | i <= n ensures CameBack(ms, maxAttempts, turns, i, after) {
      if i < n { StillBack(ms, maxAttempts, turns, i, before, Added(ms[n], maxAttempts, turns(n))); }
    }
  }

  lemma {:induction false} OnlyFailuresAdded(ms: seq<Tracked>, maxAttempts: int, turns: nat -> Turn, n: nat)
    requires n <= |ms| && Undisturbed(turns)
    ensures AllBack(ms, maxAttempts, turns, n, AddedIn(ms, maxAttempts, turns, n))
  {
    hide Added, CameBack, Undisturbed;
    if n > 0 {
      hide AddedIn, FailedBefore, AllBack;
      OnlyFailuresAdded(ms, maxAttempts, turns, n - 1);
      OneMoreFailure(ms, maxAttempts, turns, n - 1);
    }
  }

  /**
   What an undisturbed ordered round leaves: exactly the messages that were tried and failed, each
   with one more attempt, in the order in which they were tried.
   */
  lemma FailuresComeBack(s: Store<Tracked>, ms: seq<Tracked>, maxAttempts: int, turns: nat -> Turn)
    returns (back: seq<Tracked>)
    requires Mirrors(s, Fifo(ms, false)) && Counter(s.records).value + |ms| <= MAX_INT64
    requires |ms| <= Counter(s.records).value && OrderedRound(|ms|, Counter(s.records).value, 0)
    requires Undisturbed(turns)
    ensures Mirrors(RoundOver(s, maxAttempts, turns, |ms|).store, Fifo(back, false))
    ensures |back| == FailedBefore(ms, maxAttempts, turns, |ms|)
    ensures forall i: nat | i < |ms| :: CameBack(ms, maxAttempts, turns, i, back)
  {
    hide Mirrors, Counter, RoundOver, AddedIn, FailedBefore, OrderedRound, CameBack, Undisturbed;
    NothingArrives(turns, |ms|);
    OrderedRoundPops(s, ms, maxAttempts, turns, 0, |ms|);
    OnlyFailuresAdded(ms, maxAttempts, turns, |ms|);
    back := AddedIn(ms, maxAttempts, turns, |ms|);
    assert ms[|ms|..] + back == back;
  }

  lemma {:induction false} NothingArrives(turns: nat -> Turn, n: nat)
    requires Undisturbed(turns)
    ensures Arriving(turns, n) == 0
  {
    if n > 0 { NothingArrives(turns, n - 1); }
  }

  /** An ordered round pops the queue it met, in order, whatever the limit and the outcomes. */
  lemma OrderedRoundPopsAll(s: Store<Tracked>, ms: seq<Tracked>, maxAttempts: int, turns: nat -> Turn, a: nat)
    requires Mirrors(s, Fifo(ms, false)) && Arriving(turns, |ms|) <= a
    requires Counter(s.records).value + a + |ms| <= MAX_INT64
    requires |ms| <= Counter(s.records).value && OrderedRound(|ms|, Counter(s.records).value, a)
    ensures RoundOver(s, maxAttempts, turns, |ms|).popped == ms
    ensures PopsEachOnce(s, ms, maxAttempts, turns)
  {
    hide Mirrors, Counter, RoundOver;
    OrderedRoundPops(s, ms, maxAttempts, turns, a, |ms|);
    assert ms[..|ms|] == ms;
  }

  /** Each turn pops at most one message, and once the loop is left nothing changes. */
  lemma {:induction false} NeverLeft(s: Store<Tracked>, maxAttempts: int, turns: nat -> Turn, t: nat, n: nat)
    requires t <= n
    ensures var p, q := RoundOver(s, maxAttempts, turns, t), RoundOver(s, maxAttempts, turns, n);
            && p.popped <= q.popped && |q.popped| <= |p.popped| + (n - t)
            && (p.over ==> q == p)
  {
    hide PushAll, PopStep, PushStep;
    if t < n { NeverLeft(s, maxAttempts, turns, t, n - 1); }
  }

  lemma PushNone(s: Store<Tracked>)
    ensures PushAll(s, []) == s
  {
  }

  // ---- the round as the handler runs it -----------------------------------------------------------------

  /** Undisturbed turns with the given outcomes. */
  function Alone(outcomes: nat -> bool): nat -> Turn {
    (i: nat) => Turn([], [], outcomes(i))
  }

  lemma FailedPopChangesNothing(s: Store<Tracked>)
    ensures !PopStep(s, NoFault).1.Item? ==> PopStep(s, NoFault).0 == s
  {
    hide FirstStep;
  }

  /** processQueuedMessages over the durable queue, and the messages it pops. */
  method ProcessQueuedMessages(queue: LevelDBQueue<Tracked>, maxAttempts: int, outcomes: nat -> bool)
    returns (popped: seq<Tracked>)
    modifies queue.db
    ensures queue.closed ==> popped == [] && queue.View() == old(queue.View())
    ensures !queue.closed ==>
              var s := old(queue.View());
              var p := RoundOver(s, maxAttempts, Alone(outcomes), |MessageKeys(s.records)|);
              popped == p.popped && queue.View() == p.store
  {
    hide PushStep, PopStep, MessageKeys, FirstStep, Counter;
    ghost var s := queue.View();
    popped := [];
    var size := queue.Size(NoFault);
    if size.Failed? {
      return;
    }
    var i := 0;
    while i < size.n
      invariant i <= size.n == |MessageKeys(s.records)| && !queue.closed
      invariant Pass(queue.View(), popped, false) == RoundOver(s, maxAttempts, Alone(outcomes), i)
    {
      PushNone(queue.View());
      FailedPopChangesNothing(queue.View());
      var msg := queue.Pop(NoFault);
      if !msg.Item? {
        NeverLeft(s, maxAttempts, Alone(outcomes), i + 1, size.n);
        break;
      }
      PushNone(queue.View());
      popped := popped + [msg.msg];
      if msg.msg.attempts < maxAttempts && !outcomes(i) {
        var r := queue.Push(FailedOnce(msg.msg), NoFault);
      }
      i := i + 1;
    }
  }
}
