/**
 A retry round of the delivery protocol over the durable queue, interleaved with the other workers,
 on a store with any live indices.
 */
module ListedDelivery {
  import opened ByteOrder
  import opened Decimal
  import opened Delivery
  import opened Conservation
  import opened Attempts
  import opened Queue
  import opened LevelDbQueue
  import opened BagRefinement
  import opened TornRefinement
  import opened ListedRounds
  import opened DurableDelivery
  import opened DurableFifo

  // ---- the calls of the workers ---------------------------------------------------------------------

  lemma PushCall(
    s: Store<Tracked>, keys: seq<Bytes>, ms: seq<Tracked>, t: nat, c: nat, hi: nat, m: Tracked, fault: Fault)
    requires Midway(s, keys, ms, t, c, hi) && hi < MAX_INT64 && fault != IndexPutFails
    ensures var (s', r) := LevelDbQueue.Step(s, Op.Push(m), fault);
            if r.Done? then Midway(s', keys, ms, t, c, hi + 1) else s' == s
  {
    hide Midway, Others, Counter;
    FaultFailsOrNot(s, Op.Push(m), fault);
    FailedCallChangesNothing(s, Op.Push(m), fault);
    if !s.closed { PushMidway(s, keys, ms, t, c, hi, m); }
  }

  lemma PopCall(s: Store<Tracked>, keys: seq<Bytes>, ms: seq<Tracked>, t: nat, c: nat, hi: nat, fault: Fault)
    requires Midway(s, keys, ms, t, c, hi) && t < |keys| == |ms| && SortsBefore(keys[|keys| - 1], c, hi)
    ensures var (s', r) := LevelDbQueue.Step(s, Op<Tracked>.Pop, fault);
            if r.Item? then r == Item(ms[t]) && Midway(s', keys, ms, t + 1, c, hi) else s' == s
  {
    hide Midway, SortsBefore, Others, FirstStep;
    FaultFailsOrNot(s, Op.Pop, fault);
    FailedCallChangesNothing(s, Op.Pop, fault);
    ItemIsFirst(s);
    if !s.closed {
      PopNext(s, keys, ms, t, c, hi);
      RemoveMidway(s, keys, ms, t, c, hi);
    }
  }

  lemma OtherCall(
    s: Store<Tracked>, keys: seq<Bytes>, ms: seq<Tracked>, t: nat, c: nat, hi: nat, op: Op<Tracked>, fault: Fault)
    requires Midway(s, keys, ms, t, c, hi) && (op.Size? || op.Close?)
    ensures Midway(LevelDbQueue.Step(s, op, fault).0, keys, ms, t, c, hi)
  {
    hide MessageKeys, MessageKeySet, Counter, KeysFrom, Ascending;
  }

  // ---- the steps of the workers ---------------------------------------------------------------------

  /**
   A round that met the messages ms at counter c has taken the first of them, and the counter has
   room for the arrivals still to come.
   */
  ghost predicate Taking(s: State, index: int, ms: seq<Tracked>, max: int, c: nat, a: nat, arrivals: nat) {
    && s.maxAttempts == max && s.remains == []
    && (s.retry.phase.Round? ==>
          var p := s.retry.phase;
          && |p.snapshot| == |ms| && p.taken <= ms
          && index + arrivals + (if p.hand.Empty? then 0 else 1) <= c + a + Returning(max, p.taken))
  }

  lemma ReturningAdd(max: int, ms: seq<Tracked>, m: Tracked)
    ensures Returning(max, ms + [m]) == Returning(max, ms) + if m.attempts < max then 1 else 0
  {
    assert (ms + [m])[..|ms|] == ms;
  }

  lemma PopTaking(s: State, k: nat, index: int, ms: seq<Tracked>, max: int, c: nat, a: nat, arrivals: nat)
    requires Taking(s, index, ms, max, c, a, arrivals) && RetryEnabled(s, RetryAct.Pop(k))
    requires |s.retry.phase.taken| < |ms| && s.queue[k] == ms[|s.retry.phase.taken|]
    ensures Taking(RetryApply(s, RetryAct.Pop(k)), index, ms, max, c, a, arrivals)
  {
    hide Returning;
    ReturningAdd(max, s.retry.phase.taken, s.queue[k]);
  }

  lemma RetryTaking(s: State, act: RetryAct, index: int, ms: seq<Tracked>, max: int, c: nat, a: nat, arrivals: nat)
    requires Taking(s, index, ms, max, c, a, arrivals) && RetryEnabled(s, act) && !act.Enter? && !act.Pop?
    requires Intact(Retry(act))
    ensures Taking(RetryApply(s, act), index + Stores(Retry(act)), ms, max, c, a, arrivals)
  {
    hide Returning;
  }

  lemma FirstTaking(s: State, act: FirstAct, index: int, ms: seq<Tracked>, max: int, c: nat, a: nat, arrivals: nat)
    requires Taking(s, index, ms, max, c, a, arrivals + IsArrival(First(act))) && FirstEnabled(s, act)
    requires Intact(First(act))
    ensures Taking(FirstApply(s, act), index + Stores(First(act)), ms, max, c, a, arrivals)
  {
    hide Returning;
  }

  lemma StepTaking(
    s: State, step: Delivery.Step, index: int, ms: seq<Tracked>, max: int, c: nat, a: nat, arrivals: nat)
    requires Taking(s, index, ms, max, c, a, arrivals + IsArrival(step)) && Enabled(s, step)
    requires Intact(step) && !(step.Retry? && step.r.Enter?)
    requires IsPop(step) == 1 ==>
               step.r.Pop? && |s.retry.phase.taken| < |ms| && s.queue[step.r.k] == ms[|s.retry.phase.taken|]
    ensures Taking(Apply(s, step), index + Stores(step), ms, max, c, a, arrivals)
  {
    hide FirstEnabled, FirstApply, RetryApply, Returning;
    match step
    case First(act) => FirstTaking(s, act, index, ms, max, c, a, arrivals);
    case Retry(act) =>
      if act.Pop? {
        PopTaking(s, act.k, index, ms, max, c, a, arrivals);
      } else {
        RetryTaking(s, act, index, ms, max, c, a, arrivals);
      }
    case _ =>
  }

  // ---- both together ----------------------------------------------------------------------------------

  /** The position of the round in its listing; once it is over nothing is said of the store. */
  ghost predicate OnListing(d: System, keys: seq<Bytes>, ms: seq<Tracked>, c: nat) {
    d.state.retry.phase.Round? ==>
      Index(d) >= 0 && Midway(d.store, keys, ms, |d.state.retry.phase.taken|, c, Index(d))
  }

  lemma StepPhase(s: State, step: Delivery.Step)
    requires Enabled(s, step) && !(step.Retry? && step.r.Enter?)
    ensures Apply(s, step).retry.phase.Round? ==> s.retry.phase.Round?
    ensures Apply(s, step).retry.phase.Round? ==>
              |Apply(s, step).retry.phase.taken| == |s.retry.phase.taken| + IsPop(step)
  {
    hide FirstApply, RetryApply;
    match step
    case First(act) => FirstKeepsRetry(s, act);
    case Retry(act) => RetryPhase(s, act);
    case _ =>
  }

  lemma FirstKeepsRetry(s: State, act: FirstAct)
    requires FirstEnabled(s, act)
    ensures FirstApply(s, act).retry == s.retry
  {
  }

  lemma RetryPhase(s: State, act: RetryAct)
    requires RetryEnabled(s, act) && !act.Enter?
    ensures RetryApply(s, act).retry.phase.Round? ==>
              && s.retry.phase.Round?
              && |RetryApply(s, act).retry.phase.taken| == |s.retry.phase.taken| + IsPop(Retry(act))
  {
  }

  /** At a pop the counter has not passed the bound under which no new index sorts before the listed keys. */
  lemma RoomAtPop(d: System, m: Move, keys: seq<Bytes>, ms: seq<Tracked>, c: nat, a: nat, arrivals: nat)
    requires Taking(d.state, Index(d), ms, d.state.maxAttempts, c, a, arrivals) && IsPop(m.step) == 1
    requires Enabled(d.state, m.step) && |keys| == |ms| > 0 && KeysFirst(keys, ms, d.state.maxAttempts, c, a)
    ensures |d.state.retry.phase.taken| < |ms| && SortsBefore(keys[|keys| - 1], c, Index(d))
  {
    hide SortsBefore, Index, Returning;
    var max, t := d.state.maxAttempts, |d.state.retry.phase.taken|;
    assert ms[..t] == d.state.retry.phase.taken;
    ReturningMonotone(max, ms, t, |ms| - 1);
    SortsBeforeFewer(keys[|keys| - 1], c, c + a + Returning(max, ms[..|ms| - 1]), Index(d));
  }

  /** Which steps store a message and which pop one, told from the call and its reply. */
  lemma CallKinds(d: System, m: Move)
    requires MoveEnabled(d, m) && Intact(m.step) && d.state.remains == []
    ensures var call := QueueCall(d.state, m.step);
            if call.None? || call.value.Size? || call.value.Close? then Stores(m.step) == IsPop(m.step) == 0
            else
              var r := LevelDbQueue.Step(d.store, call.value, m.fault).1;
              if call.value.Push? then IsPop(m.step) == 0 && Stores(m.step) == (if r.Done? then 1 else 0)
              else
                call.value.Pop? && Stores(m.step) == 0 && (IsPop(m.step) == if r.Item? then 1 else 0)
                && (r.Item? ==> m.step.r.Pop? && r == Item(d.state.queue[m.step.r.k]))
  {
    hide LevelDbQueue.Step, Enabled, Tears;
  }

  lemma MidwayIndex(d: System, keys: seq<Bytes>, ms: seq<Tracked>, t: nat, c: nat, hi: nat)
    requires Midway(d.store, keys, ms, t, c, hi)
    ensures Index(d) == hi
  {
  }

  lemma MovedStore(d: System, m: Move)
    requires MoveEnabled(d, m) && Intact(m.step)
    ensures Enabled(d.state, m.step)
    ensures var call := QueueCall(d.state, m.step);
            && Moved(d, m).store
               == (if call.Some? then LevelDbQueue.Step(d.store, call.value, m.fault).0 else d.store)
            && (call.Some? ==> !call.value.Peek?)
  {
    assert !m.step.Restart?;
    hide LevelDbQueue.Step, Enabled, Apply, Tears, Follows;
  }

  lemma PushOnListing(
    d: System, m: Move, msg: Tracked, keys: seq<Bytes>, ms: seq<Tracked>, t: nat, c: nat, hi: nat)
    requires Midway(d.store, keys, ms, t, c, hi) && hi < MAX_INT64 && MoveEnabled(d, m) && Intact(m.step)
    requires QueueCall(d.state, m.step) == Some(Op.Push(msg))
    ensures var (s', r) := LevelDbQueue.Step(d.store, Op.Push(msg), m.fault);
            if r.Done? then Midway(s', keys, ms, t, c, hi + 1) else s' == d.store
  {
    hide LevelDbQueue.PushStep, Midway, MoveEnabled, Intact, QueueCall;
    if m.fault == IndexPutFails {
      IntactPush(d, m, msg);
    } else {
      PushCall(d.store, keys, ms, t, c, hi, msg, m.fault);
    }
  }

  /** What a move does to the store of a round. */
  lemma MoveOnListing(d: System, m: Move, keys: seq<Bytes>, ms: seq<Tracked>, c: nat)
    requires OnListing(d, keys, ms, c) && d.state.retry.phase.Round? && MoveEnabled(d, m)
    requires Intact(m.step) && d.state.remains == []
    requires Index(d) < MAX_INT64 && |keys| == |ms|
    requires IsPop(m.step) == 1 ==>
               |d.state.retry.phase.taken| < |ms| && SortsBefore(keys[|keys| - 1], c, Index(d))
    ensures var t := |d.state.retry.phase.taken|;
            && Index(Moved(d, m)) == Index(d) + Stores(m.step)
            && Midway(Moved(d, m).store, keys, ms, t + IsPop(m.step), c, Index(d) + Stores(m.step))
            && (IsPop(m.step) == 1 ==> m.step.r.Pop? && d.state.queue[m.step.r.k] == ms[t])
  {
    hide LevelDbQueue.Step, Midway, SortsBefore, Enabled, QueueCall, Stores, IsPop, Index, Intact, MoveEnabled, Moved;
    MovedStore(d, m);
    CallKinds(d, m);
    var t, hi := |d.state.retry.phase.taken|, Index(d);
    var call := QueueCall(d.state, m.step);
    if call.Some? {
      match call.value
      case Push(msg) => PushOnListing(d, m, msg, keys, ms, t, c, hi);
      case Pop =>
        FailedCallChangesNothing(d.store, Op.Pop, m.fault);
        if IsPop(m.step) == 1 { PopCall(d.store, keys, ms, t, c, hi, m.fault); }
      case Size => OtherCall(d.store, keys, ms, t, c, hi, Op.Size, m.fault);
      case Close => OtherCall(d.store, keys, ms, t, c, hi, Op.Close, m.fault);
      case Peek =>
    }
    MidwayIndex(Moved(d, m), keys, ms, t + IsPop(m.step), c, hi + Stores(m.step));
  }

  lemma {:induction false} RunOnListing(
    d: System, moves: seq<Move>, keys: seq<Bytes>, ms: seq<Tracked>, c: nat, a: nat)
    requires Conserved(d.state) && Coupled(d) && Index(d) + |moves| <= MAX_INT64
    requires LegalMoves(d, moves) && DuringRound(moves)
    requires |keys| == |ms| > 0 && KeysFirst(keys, ms, d.state.maxAttempts, c, a)
    requires OnListing(d, keys, ms, c)
    requires Taking(d.state, Index(d), ms, d.state.maxAttempts, c, a, Arrivals(StepsOf(moves)))
    ensures var t := RunMoves(d, moves);
            Taking(t.state, Index(t), ms, d.state.maxAttempts, c, a, 0)
    decreases |moves|
  {
    hide Conserved, Coupled, Index, MoveEnabled, Moved, OnListing, Taking, KeysFirst, IsPop, IsArrival, Stores;
    hide Enabled, Apply, Intact;
    if moves != [] {
      var m, rest := moves[0], moves[1..];
      assert m in moves && forall x | x in rest :: x in moves;
      assert StepsOf(moves) == [m.step] + StepsOf(rest);
      assert StepsOf(moves)[1..] == StepsOf(rest);
      MoveSteps(d, m);
      StepConserves(d.state, m.step);
      MoveKeepsCoupled(d, m);
      MoveTakes(d, m, keys, ms, c, a, Arrivals(StepsOf(rest)));
      RunOnListing(Moved(d, m), rest, keys, ms, c, a);
    }
  }

  /** One move of a round that keeps to its listing. */
  lemma MoveTakes(d: System, m: Move, keys: seq<Bytes>, ms: seq<Tracked>, c: nat, a: nat, arrivals: nat)
    requires MoveEnabled(d, m) && Intact(m.step) && !(m.step.Retry? && m.step.r.Enter?) && Index(d) < MAX_INT64
    requires |keys| == |ms| > 0 && KeysFirst(keys, ms, d.state.maxAttempts, c, a)
    requires OnListing(d, keys, ms, c)
    requires Taking(d.state, Index(d), ms, d.state.maxAttempts, c, a, arrivals + IsArrival(m.step))
    ensures Moved(d, m).state.maxAttempts == d.state.maxAttempts
    ensures OnListing(Moved(d, m), keys, ms, c)
    ensures Taking(Moved(d, m).state, Index(Moved(d, m)), ms, d.state.maxAttempts, c, a, arrivals)
  {
    hide MoveEnabled, Moved, Apply, Enabled, KeysFirst, SortsBefore, Midway, IsArrival, Stores, Intact;
    MoveSteps(d, m);
    KeepsNoRemains(d.state, m.step);
    StepPhase(d.state, m.step);
    StepLimit(d.state, m.step);
    if d.state.retry.phase.Round? {
      if IsPop(m.step) == 1 { RoomAtPop(d, m, keys, ms, c, a, arrivals + IsArrival(m.step)); }
      MoveOnListing(d, m, keys, ms, c);
      StepTaking(d.state, m.step, Index(d), ms, d.state.maxAttempts, c, a, arrivals);
    }
  }

  lemma KeepsNoRemains(s: State, step: Delivery.Step)
    requires Enabled(s, step) && Intact(step) && s.remains == []
    ensures Apply(s, step).remains == []
  {
    StepQueue(s, step);
    hide Apply;
  }

  lemma StepLimit(s: State, step: Delivery.Step)
    requires Enabled(s, step)
    ensures Apply(s, step).maxAttempts == s.maxAttempts
  {
    hide FirstEnabled, FirstApply, RetryEnabled, RetryApply;
    match step
    case First(act) => FirstLimit(s, act);
    case Retry(act) => RetryLimit(s, act);
    case _ =>
  }

  lemma FirstLimit(s: State, act: FirstAct)
    requires FirstEnabled(s, act)
    ensures FirstApply(s, act).maxAttempts == s.maxAttempts
  {
  }

  lemma RetryLimit(s: State, act: RetryAct)
    requires RetryEnabled(s, act)
    ensures RetryApply(s, act).maxAttempts == s.maxAttempts
  {
  }

  /**
   A round whose keys come first, on a store with any live indices: however the other workers
   interleave and whatever fails, it takes the messages of its queue in the order of their keys,
   and when it ends it has taken each of them once.
   */
  lemma ListedRoundTakesItsQueue(d: System, moves: seq<Move>, ms: seq<Tracked>, a: nat)
    requires Conserved(d.state) && Coupled(d) && Index(d) + |moves| <= MAX_INT64
    requires d.state.retry.phase == Round(d.state.queue, [], Empty) && d.state.queue != [] && d.state.remains == []
    requires var keys := MessageKeys(d.store.records);
             && Listed(d.store, keys, ms) && |keys| == |ms| > 0 && Index(d) >= 0
             && KeysFirst(keys, ms, d.state.maxAttempts, Index(d), a)
    requires LegalMoves(d, moves) && DuringRound(moves) && Arrivals(StepsOf(moves)) <= a
    ensures multiset(ms) == multiset(d.state.queue)
    ensures var t := RunMoves(d, moves).state;
            t.retry.phase.Round? ==>
              && t.retry.phase.taken <= ms
              && (RetryEnabled(t, EndRound) ==> t.retry.phase.taken == ms)
  {
    hide Conserved, LegalMoves, RunMoves, DuringRound, Arrivals, MessageKeys, Listed, KeysFirst, Midway, Bag;
    var q := QueueOf(d.state);
    ListingOfQueue(d.store, q, ms);
    ListedMidway(d.store, MessageKeys(d.store.records), ms);
    RunOnListing(d, moves, MessageKeys(d.store.records), ms, Index(d), a);
  }

  lemma ListingOfQueue(s: Store<Tracked>, q: Fifo<Tracked>, ms: seq<Tracked>)
    requires Bag(s, q) && Listed(s, MessageKeys(s.records), ms)
    ensures multiset(ms) == multiset(q.messages) && |ms| == |q.messages|
  {
    hide Carries, MessageKeys, Counter, DistinctIds;
    var keys :| Carries(s.records, keys, q.messages);
    CarriesPermuted(s.records, MessageKeys(s.records), ms, keys, q.messages);
  }
}
