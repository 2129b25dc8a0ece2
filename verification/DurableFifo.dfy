/**
 When the delivery protocol over the durable queue is first-in first-out, and what then holds of
 its retry rounds.
 */
module DurableFifo {
  import opened ByteOrder
  import opened Decimal
  import opened Delivery
  import opened Conservation
  import opened Attempts
  import opened Rounds
  import opened Queue
  import opened LevelDbQueue
  import opened FifoRefinement
  import opened BagRefinement
  import opened TornRefinement
  import opened DurableRounds
  import opened DurableDelivery

  /** The store mirrors the protocol's queue, and no push was torn. */
  ghost predicate Mirrored(d: System) {
    Mirrors(d.store, QueueOf(d.state)) && d.state.remains == []
  }

  /** A step that is neither a torn push nor a restart. */
  predicate Intact(step: Delivery.Step) {
    match step
    case First(FirstPush(w)) => !w.Torn?
    case Retry(RetryPush(w)) => !w.Torn?
    case Restart => false
    case _ => true
  }

  /** The live indices, told from size and counter, are in order. */
  predicate OrderedNow(s: Store<Tracked>) {
    && Counter(s.records).Some?
    && var c, n := Counter(s.records).value, |MessageKeys(s.records)|;
       n <= c && InOrder(c - n, c)
  }

  /** A run without torn pushes and restarts in which every successful pop meets an ordered range. */
  predicate OrderedMoves(d: System, moves: seq<Move>)
    requires LegalMoves(d, moves)
    decreases |moves|
  {
    moves == []
    || (&& Intact(moves[0].step)
        && (IsPop(moves[0].step) == 1 ==> OrderedNow(d.store))
        && OrderedMoves(Moved(d, moves[0]), moves[1..]))
  }

  /** Whether a step stores a message. */
  function Stores(step: Delivery.Step): nat {
    if step == First(FirstPush(Stored)) || step == Retry(RetryPush(Stored)) then 1 else 0
  }

  lemma OrderedNowOf(s: Store<Tracked>, q: Fifo<Tracked>)
    requires Mirrors(s, q)
    ensures |q.messages| <= Counter(s.records).value
    ensures OrderedNow(s) <==> InOrder(Counter(s.records).value - |q.messages|, Counter(s.records).value)
  {
    hide Mirrors, Counter, MessageKeys, InOrder;
    MirrorsMeaning(s, q);
    SizeOfMirror(s, q);
  }

  // ---- one move --------------------------------------------------------------------------------------

  lemma PushStaysFifo(d: System, m: Move, msg: Tracked)
    requires Mirrored(d) && MoveEnabled(d, m) && Index(d) < MAX_INT64 && Intact(m.step)
    requires QueueCall(d.state, m.step) == Some(Op.Push(msg))
    ensures Mirrored(Moved(d, m)) && Index(Moved(d, m)) == Index(d) + Stores(m.step)
  {
    hide Mirrors, LevelDbQueue.PushStep, Counter, Apply, Enabled;
    MirrorsMeaning(d.store, QueueOf(d.state));
    StepQueue(d.state, m.step);
    if m.fault == IndexPutFails {
      IntactPush(d, m, msg);
    } else {
      FaultFailsOrNot(d.store, Op.Push(msg), m.fault);
      FailedCallChangesNothing(d.store, Op.Push(msg), m.fault);
    }
    StepMirrors(d.store, QueueOf(d.state), Op.Push(msg));
    MirrorsMeaning(Moved(d, m).store, QueueOf(Moved(d, m).state));
  }

  /** A push that is not torn although its index write would fail has failed before. */
  lemma IntactPush(d: System, m: Move, msg: Tracked)
    requires MoveEnabled(d, m) && Intact(m.step) && m.fault == IndexPutFails
    requires QueueCall(d.state, m.step) == Some(Op.Push(msg))
    ensures PushStep(d.store, msg, m.fault).0 == d.store && PushStep(d.store, msg, m.fault).1.Failed?
  {
    hide Apply, Enabled;
  }

  /** On an ordered range the pop of the store is the pop of the oldest message. */
  lemma PopStaysFifo(d: System, m: Move, k: nat)
    requires Conserved(d.state) && Mirrored(d) && Index(d) < MAX_INT64
    requires m.step == Retry(RetryAct.Pop(k)) && MoveEnabled(d, m) && OrderedNow(d.store)
    ensures k == 0 && Mirrored(Moved(d, m))
    ensures Index(Moved(d, m)) == Index(d)
  {
    hide Conserved, Mirrors, LevelDbQueue.Step, Counter, Apply, Enabled, DistinctIds, OrderedNow, InOrder;
    MirrorsMeaning(d.store, QueueOf(d.state));
    OrderedNowOf(d.store, QueueOf(d.state));
    StepQueue(d.state, m.step);
    FaultFailsOrNot(d.store, Op.Pop, m.fault);
    StepMirrors(d.store, QueueOf(d.state), Op.Pop);
    QueueDistinct(d.state);
    SamePosition(d.state.queue, 0, k);
    HeadIsPosition(QueueOf(d.state));
    MirrorsMeaning(Moved(d, m).store, QueueOf(Moved(d, m).state));
  }

  lemma MoveStaysFifo(d: System, m: Move)
    requires Conserved(d.state) && Mirrored(d) && Index(d) < MAX_INT64
    requires MoveEnabled(d, m) && Intact(m.step) && (IsPop(m.step) == 1 ==> OrderedNow(d.store))
    ensures InFifoOrder(m.step) && Mirrored(Moved(d, m))
    ensures Index(Moved(d, m)) == Index(d) + Stores(m.step)
  {
    hide Conserved, Mirrors, LevelDbQueue.Step, Counter, Apply, OrderedNow, FirstEnabled, Tears, OpenStep;
    MirrorsMeaning(d.store, QueueOf(d.state));
    StepQueue(d.state, m.step);
    match m.step
    case First(FirstPush(_)) => PushStaysFifo(d, m, QueueCall(d.state, m.step).value.msg);
    case Retry(RetryPush(_)) => PushStaysFifo(d, m, QueueCall(d.state, m.step).value.msg);
    case Retry(Pop(k)) => PopStaysFifo(d, m, k);
    case Retry(PopFails) => FailedCallChangesNothing(d.store, Op.Pop, m.fault);
    case Retry(Tick(_)) => FailedCallChangesNothing(d.store, Op.Size, m.fault);
    case Retry(Enter(_)) => FailedCallChangesNothing(d.store, Op.Size, m.fault);
    case CloseQueue =>
      CloseMirrors(d.store, QueueOf(d.state), m.fault);
    case _ =>
  }

  lemma CloseMirrors(s: Store<Tracked>, q: Fifo<Tracked>, fault: Fault)
    requires Mirrors(s, q)
    ensures var s' := LevelDbQueue.Step(s, Op<Tracked>.Close, fault).0;
            Mirrors(s', q.(closed := true)) && s'.records == s.records
  {
    hide Counter, KeysFrom, IsMessageKey;
  }

  // ---- whole runs ------------------------------------------------------------------------------------

  /** A run in which every pop meets an ordered range is first-in first-out. */
  lemma {:induction false} OrderedMovesAreFifo(d: System, moves: seq<Move>)
    requires Conserved(d.state) && Mirrored(d) && Index(d) + |moves| <= MAX_INT64
    requires LegalMoves(d, moves) && OrderedMoves(d, moves)
    ensures Legal(d.state, StepsOf(moves)) && Run(d.state, StepsOf(moves)) == RunMoves(d, moves).state
    ensures FifoRun(StepsOf(moves))
    ensures Mirrored(RunMoves(d, moves))
    decreases |moves|
  {
    hide Conserved, Mirrored, Index, MoveEnabled, Moved, OrderedNow, InFifoOrder, IsPop, Intact, Enabled, Apply;
    if moves != [] {
      MoveSteps(d, moves[0]);
      MoveStaysFifo(d, moves[0]);
      StepConserves(d.state, moves[0].step);
      OrderedMovesAreFifo(Moved(d, moves[0]), moves[1..]);
      assert StepsOf(moves)[1..] == StepsOf(moves[1..]);
    }
  }

  /** The first pop on a range that is not in order takes a younger message. */
  lemma DisorderedPop(d: System, m: Move)
    requires Conserved(d.state) && Mirrored(d) && Index(d) < MAX_INT64
    requires MoveEnabled(d, m) && IsPop(m.step) == 1 && !OrderedNow(d.store)
    ensures !InFifoOrder(m.step)
  {
    hide Conserved, Mirrors, LevelDbQueue.Step, Counter, Apply, DistinctIds, OrderedNow, InOrder, FirstStep;
    if m.step.r.Pop? {
      MirrorsMeaning(d.store, QueueOf(d.state));
      OrderedNowOf(d.store, QueueOf(d.state));
      FaultFailsOrNot(d.store, Op.Pop, m.fault);
      ItemIsFirst(d.store);
      QueueDistinct(d.state);
      FirstMessage(d.store, QueueOf(d.state));
      var j :| 0 <= j < |d.state.queue| && FirstStep(d.store, NoFault) == Item(d.state.queue[j]) && j != 0;
      SamePosition(d.state.queue, j, m.step.r.k);
    }
  }

  lemma ItemIsFirst(s: Store<Tracked>)
    ensures var r := LevelDbQueue.Step(s, Op<Tracked>.Pop, NoFault).1;
            r.Item? ==> r == FirstStep(s, NoFault) && !s.closed
  {
    hide MessageKeys;
  }

  lemma DamagedStep(step: Delivery.Step)
    requires !Intact(step)
    ensures !InFifoOrder(step)
  {
  }

  /** A run is first-in first-out exactly when no push is torn and each of its pops meets an ordered range. */
  lemma {:induction false} FifoExactlyWhenOrdered(d: System, moves: seq<Move>)
    requires Conserved(d.state) && Mirrored(d) && Index(d) + |moves| <= MAX_INT64
    requires LegalMoves(d, moves)
    ensures FifoRun(StepsOf(moves)) <==> OrderedMoves(d, moves)
    decreases |moves|
  {
    hide Conserved, Mirrored, Index, MoveEnabled, Moved, OrderedNow, InFifoOrder, IsPop, Intact, Enabled, Apply;
    if OrderedMoves(d, moves) {
      OrderedMovesAreFifo(d, moves);
    } else {
      var m, rest, steps := moves[0], moves[1..], StepsOf(moves);
      assert steps[0] == m.step && steps[1..] == StepsOf(rest);
      if !Intact(m.step) {
        DamagedStep(m.step);
        assert steps[0] in steps;
      } else if IsPop(m.step) == 1 && !OrderedNow(d.store) {
        DisorderedPop(d, m);
        assert steps[0] in steps;
      } else {
        MoveSteps(d, m);
        MoveStaysFifo(d, m);
        StepConserves(d.state, m.step);
        FifoExactlyWhenOrdered(Moved(d, m), rest);
        assert forall step | step in steps[1..] :: step in steps;
      }
    }
  }

  /** Once per round on the durable queue, as long as its pops meet ordered ranges. */
  lemma DurableOncePerRound(maxAttempts: int, moves: seq<Move>)
    requires LegalMoves(Start(maxAttempts), moves) && OrderedMoves(Start(maxAttempts), moves)
    requires |moves| <= MAX_INT64
    ensures var s := RunMoves(Start(maxAttempts), moves).state;
            var p := s.retry.phase;
            p.Round? ==>
              && DistinctIds(p.taken)
              && p.taken <= p.snapshot
              && (|p.taken| < |p.snapshot| ==> s.queue != [] && s.queue[0] == p.snapshot[|p.taken|])
              && (RetryEnabled(s, EndRound) ==> p.taken == p.snapshot)
  {
    hide LegalMoves, OrderedMoves, RunMoves, Mirrors, Legal, Run, FifoRun, DistinctIds, RetryEnabled, Coupled;
    StartCoupled(maxAttempts);
    OrderedMovesAreFifo(Start(maxAttempts), moves);
    OncePerRound(maxAttempts, StepsOf(moves));
  }

  /** Without arrivals, and on ordered ranges, as many rounds as the retry limit empty the durable queue. */
  lemma DurableRoundsEmptyTheQueue(d: System, moves: seq<Move>)
    requires Conserved(d.state) && Accounted(d.state) && Mirrored(d)
    requires d.state.retry.phase.Waiting? && Index(d) + |moves| <= MAX_INT64
    requires LegalMoves(d, moves) && OrderedMoves(d, moves) && NoArrivals(StepsOf(moves))
    ensures CompletedRounds(StepsOf(moves)) <= Limit(d.state)
    ensures CompletedRounds(StepsOf(moves)) == Limit(d.state) ==> MessageKeys(RunMoves(d, moves).store.records) == []
  {
    hide LegalMoves, OrderedMoves, RunMoves, Conserved, Accounted, Mirrors, Legal, Run, FifoRun, NoArrivals;
    hide MessageKeys, CompletedRounds, Index, Counter;
    OrderedMovesAreFifo(d, moves);
    RoundsEmptyTheQueue(d.state, StepsOf(moves));
    SizeOfMirror(RunMoves(d, moves).store, QueueOf(RunMoves(d, moves).state));
  }

  // ---- a round that is ordered from its size and counter ---------------------------------------------------

  /**
   In a round that saw snapshot at counter c: where the live indices begin, and that the counter
   has room for the arrivals still to come.
   */
  ghost predicate Within(s: State, index: int, snapshot: seq<Tracked>, c: nat, a: nat, arrivals: nat) {
    s.retry.phase.Round? ==>
      var p := s.retry.phase;
      && p.snapshot == snapshot && |p.taken| <= |snapshot| <= c
      && index - |s.queue| == c - |snapshot| + |p.taken|
      && index + arrivals + (if p.hand.Empty? then 0 else 1) <= c + a + |p.taken|
  }

  lemma RetryStaysWithin(
    s: State, act: RetryAct, index: int, snapshot: seq<Tracked>, c: nat, a: nat, arrivals: nat)
    requires Within(s, index, snapshot, c, a, arrivals) && RetryEnabled(s, act)
    requires !act.Enter? && !act.PopRemains? && act != RetryPush(Torn)
    ensures Within(RetryApply(s, act), index + Stores(Retry(act)), snapshot, c, a, arrivals)
  {
  }

  lemma FirstStaysWithin(
    s: State, act: FirstAct, index: int, snapshot: seq<Tracked>, c: nat, a: nat, arrivals: nat)
    requires Within(s, index, snapshot, c, a, arrivals + IsArrival(First(act))) && FirstEnabled(s, act)
    requires act != FirstPush(Torn)
    ensures Within(FirstApply(s, act), index + Stores(First(act)), snapshot, c, a, arrivals)
  {
  }

  lemma StaysWithin(s: State, step: Delivery.Step, index: int, snapshot: seq<Tracked>, c: nat, a: nat, arrivals: nat)
    requires Within(s, index, snapshot, c, a, arrivals + IsArrival(step)) && Enabled(s, step)
    requires InFifoOrder(step) && !(step.Retry? && step.r.Enter?)
    ensures Within(Apply(s, step), index + Stores(step), snapshot, c, a, arrivals)
  {
    hide FirstEnabled, FirstApply, RetryEnabled, RetryApply;
    match step
    case First(act) => FirstStaysWithin(s, act, index, snapshot, c, a, arrivals);
    case Retry(act) => RetryStaysWithin(s, act, index, snapshot, c, a, arrivals);
    case _ =>
  }

  lemma WithinPopsOrdered(d: System, m: Move, snapshot: seq<Tracked>, c: nat, a: nat, arrivals: nat)
    requires Within(d.state, Index(d), snapshot, c, a, arrivals) && MoveEnabled(d, m) && IsPop(m.step) == 1
    requires |snapshot| <= c && OrderedRound(|snapshot|, c, a) && Mirrored(d)
    ensures OrderedNow(d.store)
  {
    hide LevelDbQueue.Step, Counter, Mirrors, OrderedNow, InOrder;
    MirrorsMeaning(d.store, QueueOf(d.state));
    OrderedNowOf(d.store, QueueOf(d.state));
    var t := |d.state.retry.phase.taken|;
    assert OrderedAt(|snapshot|, c, a, t);
    InOrderBelow(c - |snapshot| + t, c + a + t, Index(d));
  }

  /** Moves during one round: none enters another, and none is a torn push or a restart. */
  ghost predicate DuringRound(moves: seq<Move>) {
    forall m | m in moves :: Intact(m.step) && !(m.step.Retry? && m.step.r.Enter?)
  }

  lemma {:induction false} WithinRunsOrdered(
    d: System, moves: seq<Move>, snapshot: seq<Tracked>, c: nat, a: nat)
    requires Conserved(d.state) && Mirrored(d) && Index(d) + |moves| <= MAX_INT64
    requires LegalMoves(d, moves) && DuringRound(moves)
    requires |snapshot| <= c && OrderedRound(|snapshot|, c, a)
    requires Within(d.state, Index(d), snapshot, c, a, Arrivals(StepsOf(moves)))
    ensures OrderedMoves(d, moves)
    ensures Within(RunMoves(d, moves).state, Index(RunMoves(d, moves)), snapshot, c, a, 0)
    decreases |moves|
  {
    hide Conserved, Mirrors, Index, MoveEnabled, Moved, OrderedNow, OrderedRound, IsPop, IsArrival, Within;
    hide Enabled, Apply;
    if moves != [] {
      var m, rest := moves[0], moves[1..];
      assert m in moves && forall x | x in rest :: x in moves;
      assert StepsOf(moves) == [m.step] + StepsOf(rest);
      assert StepsOf(moves)[1..] == StepsOf(rest);
      if IsPop(m.step) == 1 {
        WithinPopsOrdered(d, m, snapshot, c, a, Arrivals(StepsOf(moves)));
      }
      MoveStaysFifo(d, m);
      MoveSteps(d, m);
      StepConserves(d.state, m.step);
      StaysWithin(d.state, m.step, Index(d), snapshot, c, a, Arrivals(StepsOf(rest)));
      assert Stores(m.step) <= 1;
      WithinRunsOrdered(Moved(d, m), rest, snapshot, c, a);
    }
  }

  /**
   A round that starts ordered, by its size, the counter and the number a of messages the first
   worker may queue during it, is first-in first-out: when it ends it has popped exactly the queue
   it saw, each message once and in order, whatever failed.
   */
  lemma OrderedRoundTakesItsQueue(d: System, moves: seq<Move>, a: nat)
    requires Conserved(d.state) && Mirrored(d) && Index(d) + |moves| <= MAX_INT64
    requires d.state.retry.phase == Round(d.state.queue, [], Empty) && d.state.queue != []
    requires |d.state.queue| <= Index(d) && OrderedRound(|d.state.queue|, Index(d), a)
    requires LegalMoves(d, moves) && DuringRound(moves) && Arrivals(StepsOf(moves)) <= a
    ensures FifoRun(StepsOf(moves))
    ensures var t := RunMoves(d, moves).state;
            t.retry.phase.Round? ==>
              && t.retry.phase.taken <= d.state.queue
              && (RetryEnabled(t, EndRound) ==> t.retry.phase.taken == d.state.queue)
  {
    hide Conserved, Mirrors, Index, OrderedRound, LegalMoves, RunMoves, OrderedMoves, DuringRound, Legal, Run, FifoRun;
    hide Arrivals;
    QueueDistinct(d.state);
    hide DistinctIds;
    WithinRunsOrdered(d, moves, d.state.queue, Index(d), a);
    OrderedMovesAreFifo(d, moves);
    assert [] + d.state.queue[..|d.state.queue|] == d.state.queue;
    RunKeepsShape(d.state, StepsOf(moves));
  }
}
