/**
 The delivery protocol with the durable queue in it: every queue call of a worker goes to the
 key-value store, and the worker goes on as the reply tells it.
 */
module DurableDelivery {
  import opened ByteOrder
  import opened Decimal
  import opened Delivery
  import opened Conservation
  import opened Attempts
  import opened Rounds
  import opened Queue
  import opened LevelDbQueue
  import opened FifoRefinement
  import opened BagRefinement
  import opened TornRefinement

  /** The protocol state and the store behind its queue. */
  datatype System = System(state: State, store: Store<Tracked>)

  /** A step, and what goes wrong in the queue call or the opening it makes, if it makes one. */
  datatype Move = Move(step: Delivery.Step, fault: Fault)

  /** A handler that has just been created over a new directory. */
  function Start(maxAttempts: int): System {
    System(Init(maxAttempts), NewStore())
  }

  /** The queue call of a step. */
  function QueueCall(s: State, step: Delivery.Step): Option<Op<Tracked>>
    requires Enabled(s, step)
  {
    match step
    case First(FirstPush(_)) => Some(Op.Push(s.first.hand.msg))
    case Retry(RetryPush(_)) => Some(Op.Push(RetryHand(s).msg))
    case Retry(Pop(_)) => Some(Op.Pop)
    case Retry(PopRemains) => Some(Op.Pop)
    case Retry(PopFails) => Some(Op.Pop)
    case Retry(Tick(_)) => Some(Op.Size)
    case Retry(Enter(_)) => Some(Op.Size)
    case CloseQueue => Some(Op.Close)
    case _ => None
  }

  /** What a push has left, told from its reply and whether it was torn. */
  function WrittenBy(r: Reply<Tracked>, torn: bool): Written {
    if r.Done? then Stored else if torn then Torn else Refused
  }

  /** Whether a worker takes this step when its queue call is answered by r. */
  predicate Follows(s: State, step: Delivery.Step, r: Reply<Tracked>, torn: bool) {
    match step
    case First(FirstPush(w)) => w == WrittenBy(r, torn)
    case Retry(RetryPush(w)) => w == WrittenBy(r, torn)
    case Retry(Pop(k)) => k < |s.queue| && r == Item(s.queue[k])
    case Retry(PopRemains) => s.remains != [] && r == Item(s.remains[0])
    case Retry(PopFails) => r.Failed?
    case Retry(Tick(sizeOk)) => if sizeOk then r == Count(|s.queue| + |s.remains|) else r.Failed?
    case Retry(Enter(sizeOk)) => if sizeOk then r == Count(|s.queue| + |s.remains|) else r.Failed?
    case _ => true
  }

  /** Every fault of the store can happen, and the process can die and be restarted at any point. */
  predicate MoveEnabled(d: System, m: Move) {
    && Enabled(d.state, m.step)
    && (m.step.Restart? ==> OpenStep(d.store.records, m.fault).1)
    && var call := QueueCall(d.state, m.step);
       call.Some? ==>
         Follows(d.state, m.step, LevelDbQueue.Step(d.store, call.value, m.fault).1, Tears(d.store, m.fault))
  }

  function Moved(d: System, m: Move): System
    requires MoveEnabled(d, m)
  {
    var call := QueueCall(d.state, m.step);
    System(Apply(d.state, m.step),
           if m.step.Restart? then Store(OpenStep(d.store.records, m.fault).0, false)
           else if call.Some? then LevelDbQueue.Step(d.store, call.value, m.fault).0
           else d.store)
  }

  predicate LegalMoves(d: System, moves: seq<Move>)
    decreases |moves|
  {
    moves == [] || (MoveEnabled(d, moves[0]) && LegalMoves(Moved(d, moves[0]), moves[1..]))
  }

  function RunMoves(d: System, moves: seq<Move>): System
    requires LegalMoves(d, moves)
    decreases |moves|
  {
    if moves == [] then d else RunMoves(Moved(d, moves[0]), moves[1..])
  }

  function StepsOf(moves: seq<Move>): seq<Delivery.Step> {
    if moves == [] then [] else [moves[0].step] + StepsOf(moves[1..])
  }

  function QueueOf(s: State): Fifo<Tracked> {
    Fifo(s.queue, s.closed)
  }

  /** The protocol's queue, and its remains of a torn push, are what the store holds. */
  ghost predicate Coupled(d: System) {
    Holding(d.store, QueueOf(d.state), d.state.remains)
  }

  function Index(d: System): int {
    if Counter(d.store.records).Some? then Counter(d.store.records).value else -1
  }

  // ---- the store as the queue of the protocol ---------------------------------------------------

  lemma SamePosition(ms: seq<Tracked>, j: nat, k: nat)
    requires DistinctIds(ms) && j < |ms| && k < |ms| && ms[j] == ms[k]
    ensures j == k
  {
  }

  /** What a step does to the protocol's queue. */
  function QueueAfter(s: State, step: Delivery.Step): Fifo<Tracked>
    requires Enabled(s, step)
  {
    var q := QueueOf(s);
    match step
    case First(FirstPush(Stored)) => q.(messages := s.queue + [s.first.hand.msg])
    case Retry(RetryPush(Stored)) => q.(messages := s.queue + [RetryHand(s).msg])
    case Retry(Pop(k)) => q.(messages := Without(s.queue, k))
    case CloseQueue => q.(closed := true)
    case Restart => q.(closed := false)
    case _ => q
  }

  function RemainsAfter(s: State, step: Delivery.Step): seq<Tracked>
    requires Enabled(s, step)
  {
    match step
    case First(FirstPush(Stored)) => []
    case Retry(RetryPush(Stored)) => []
    case First(FirstPush(Torn)) => [s.first.hand.msg]
    case Retry(RetryPush(Torn)) => [RetryHand(s).msg]
    case Retry(PopRemains) => s.remains[1..]
    case _ => s.remains
  }

  lemma StepQueue(s: State, step: Delivery.Step)
    requires Enabled(s, step)
    ensures QueueOf(Apply(s, step)) == QueueAfter(s, step) && Apply(s, step).remains == RemainsAfter(s, step)
  {
    hide FirstEnabled, FirstApply, RetryEnabled, RetryApply;
    match step
    case First(act) => FirstQueue(s, act);
    case Retry(act) => RetryQueue(s, act);
    case _ =>
  }

  lemma FirstQueue(s: State, act: FirstAct)
    requires FirstEnabled(s, act)
    ensures QueueOf(FirstApply(s, act)) == QueueAfter(s, First(act))
    ensures FirstApply(s, act).remains == RemainsAfter(s, First(act))
  {
  }

  lemma RetryQueue(s: State, act: RetryAct)
    requires RetryEnabled(s, act)
    ensures QueueOf(RetryApply(s, act)) == QueueAfter(s, Retry(act))
    ensures RetryApply(s, act).remains == RemainsAfter(s, Retry(act))
  {
  }

  lemma PushKeepsCoupled(d: System, m: Move, msg: Tracked)
    requires Coupled(d) && MoveEnabled(d, m) && Index(d) < MAX_INT64
    requires QueueCall(d.state, m.step) == Some(Op.Push(msg))
    ensures Coupled(Moved(d, m)) && Index(Moved(d, m)) <= Index(d) + 1
  {
    hide Holding, LevelDbQueue.PushStep, Counter, Apply, Enabled, Tears;
    HoldingMeaning(d.store, QueueOf(d.state), d.state.remains);
    StepQueue(d.state, m.step);
    PushWrites(d.store, QueueOf(d.state), d.state.remains, msg, m.fault);
  }

  /** The reply tells which message the store has popped, because stored messages are all different. */
  lemma PopKeepsCoupled(d: System, m: Move)
    requires Conserved(d.state) && Coupled(d) && MoveEnabled(d, m) && Index(d) < MAX_INT64
    requires QueueCall(d.state, m.step) == Some(Op.Pop)
    ensures Coupled(Moved(d, m)) && Index(Moved(d, m)) == Index(d)
  {
    hide Conserved, Holding, LevelDbQueue.PopStep, Counter, Apply, Enabled, DistinctIds, Without, Tears;
    var q, remains := QueueOf(d.state), d.state.remains;
    HoldingMeaning(d.store, q, remains);
    StepQueue(d.state, m.step);
    PopTakes(d.store, q, remains, m.fault);
    QueueDistinct(d.state);
    var (s', r) := PopStep(d.store, m.fault);
    if r.Item? {
      var all := q.messages + remains;
      var at := if m.step.r.Pop? then m.step.r.k else |q.messages|;
      assert r == Item(all[at]);
      if remains != [] && r == Item(remains[0]) && Holding(s', q, []) {
        assert all[|q.messages|] == remains[0];
        SamePosition(all, at, |q.messages|);
        assert remains[1..] == [];
      } else {
        var j :| 0 <= j < |q.messages| && r == Item(q.messages[j])
              && Holding(s', q.(messages := Without(q.messages, j)), remains);
        assert all[j] == q.messages[j];
        SamePosition(all, at, j);
      }
    }
  }

  lemma OtherKeepsCoupled(d: System, m: Move)
    requires Coupled(d) && MoveEnabled(d, m)
    requires var call := QueueCall(d.state, m.step); call.None? || call.value.Size? || call.value.Close?
    ensures Coupled(Moved(d, m)) && Index(Moved(d, m)) == Index(d)
  {
    hide Holding, Counter, Apply, Enabled, Tears, MessageKeys, Follows;
    var q, remains := QueueOf(d.state), d.state.remains;
    StepQueue(d.state, m.step);
    CloseHolds(d.store, q, remains, m.fault);
    ReopenHolds(d.store, q, remains, m.fault);
    KindOfCall(d.state, m.step);
  }

  lemma KindOfCall(s: State, step: Delivery.Step)
    requires Enabled(s, step)
    ensures var call := QueueCall(s, step);
            && (call.Some? && call.value.Close? <==> step == CloseQueue)
            && (step == Restart ==> call.None?)
            && (call.None? || call.value.Size? ==>
                  && RemainsAfter(s, step) == s.remains
                  && QueueAfter(s, step) == QueueOf(s).(closed := step != Restart && s.closed))
            && (call.Some? ==> !call.value.Peek?)
  {
    hide Enabled;
  }

  /** Each move leaves the protocol's queue and the store with the same messages. */
  lemma MoveKeepsCoupled(d: System, m: Move)
    requires Conserved(d.state) && Coupled(d) && MoveEnabled(d, m) && Index(d) < MAX_INT64
    ensures Coupled(Moved(d, m)) && Index(Moved(d, m)) <= Index(d) + 1
  {
    hide Conserved, Coupled, MoveEnabled, Moved, Index, Enabled;
    assert Enabled(d.state, m.step) by { MoveSteps(d, m); }
    var call := QueueCall(d.state, m.step);
    KindOfCall(d.state, m.step);
    if call.None? {
      OtherKeepsCoupled(d, m);
    } else {
      match call.value
      case Push(msg) => PushKeepsCoupled(d, m, msg);
      case Pop => PopKeepsCoupled(d, m);
      case _ => OtherKeepsCoupled(d, m);
    }
  }

  lemma MoveSteps(d: System, m: Move)
    requires MoveEnabled(d, m)
    ensures Enabled(d.state, m.step) && Moved(d, m).state == Apply(d.state, m.step)
  {
    hide LevelDbQueue.Step, Apply, Enabled;
  }

  /** A run over the store is a run of the protocol, and the two queues stay the same. */
  lemma {:induction false} RunKeepsCoupled(d: System, moves: seq<Move>)
    requires Conserved(d.state) && Coupled(d) && LegalMoves(d, moves) && Index(d) + |moves| <= MAX_INT64
    ensures Coupled(RunMoves(d, moves))
    ensures Legal(d.state, StepsOf(moves)) && Run(d.state, StepsOf(moves)) == RunMoves(d, moves).state
    decreases |moves|
  {
    hide Conserved, Coupled, Index, Enabled, Apply, MoveEnabled, Moved;
    if moves != [] {
      MoveSteps(d, moves[0]);
      MoveKeepsCoupled(d, moves[0]);
      StepConserves(d.state, moves[0].step);
      RunKeepsCoupled(Moved(d, moves[0]), moves[1..]);
      assert StepsOf(moves)[1..] == StepsOf(moves[1..]);
    }
  }

  // ---- replies ------------------------------------------------------------------------------------

  lemma PushIsFollowed(d: System, msg: Tracked, fault: Fault)
    requires Coupled(d) && Index(d) < MAX_INT64
    ensures var w := WrittenBy(PushStep(d.store, msg, fault).1, Tears(d.store, fault));
            && (d.state.first.hand == Requeueing(msg) ==> MoveEnabled(d, Move(First(FirstPush(w)), fault)))
            && (RetryHand(d.state) == Requeueing(msg) ==> MoveEnabled(d, Move(Retry(RetryPush(w)), fault)))
  {
    hide Holding, LevelDbQueue.PushStep, Counter, Tears;
    HoldingMeaning(d.store, QueueOf(d.state), d.state.remains);
    PushWrites(d.store, QueueOf(d.state), d.state.remains, msg, fault);
  }

  lemma PopIsFollowed(d: System, fault: Fault)
    requires Coupled(d) && Index(d) < MAX_INT64
    requires AtLoopHead(d.state.retry) && Left(d.state.retry.phase) > 0
    ensures MoveEnabled(d, Move(Retry(PopFails), fault)) || MoveEnabled(d, Move(Retry(PopRemains), fault))
         || exists k :: MoveEnabled(d, Move(Retry(RetryAct.Pop(k)), fault))
  {
    hide Holding, LevelDbQueue.PopStep, Counter, Without, Tears;
    var q, remains := QueueOf(d.state), d.state.remains;
    HoldingMeaning(d.store, q, remains);
    PopTakes(d.store, q, remains, fault);
    var r := PopStep(d.store, fault).1;
    if r.Item? && !MoveEnabled(d, Move(Retry(PopRemains), fault)) {
      var k :| 0 <= k < |q.messages| && r == Item(q.messages[k]);
      assert MoveEnabled(d, Move(Retry(RetryAct.Pop(k)), fault));
    }
  }

  lemma SizeIsFollowed(d: System, fault: Fault)
    requires Coupled(d)
    ensures var r := SizeStep(d.store, fault);
            var w := d.state.retry;
            && (w.phase.Waiting? && w.owes == [] && !w.gone ==> MoveEnabled(d, Move(Retry(Tick(r.Count?)), fault)))
            && (w.phase.Entering? ==> MoveEnabled(d, Move(Retry(Enter(r.Count?)), fault)))
  {
    hide Holding, LevelDbQueue.SizeStep, Counter, Tears;
    SizeCounts(d.store, QueueOf(d.state), d.state.remains, fault);
  }

  /**
   The protocol foresees every answer of the store: wherever a worker calls its queue, and
   whatever goes wrong, there is a step that follows the reply.
   */
  lemma EveryReplyIsFollowed(d: System, fault: Fault)
    requires Coupled(d) && Index(d) < MAX_INT64
    ensures d.state.first.hand.Requeueing? ==> exists w :: MoveEnabled(d, Move(First(FirstPush(w)), fault))
    ensures RetryHand(d.state).Requeueing? ==> exists w :: MoveEnabled(d, Move(Retry(RetryPush(w)), fault))
    ensures AtLoopHead(d.state.retry) && Left(d.state.retry.phase) > 0 ==>
              || MoveEnabled(d, Move(Retry(PopFails), fault)) || MoveEnabled(d, Move(Retry(PopRemains), fault))
              || exists k :: MoveEnabled(d, Move(Retry(RetryAct.Pop(k)), fault))
    ensures d.state.retry.phase.Waiting? && d.state.retry.owes == [] && !d.state.retry.gone ==>
              exists ok :: MoveEnabled(d, Move(Retry(Tick(ok)), fault))
    ensures d.state.retry.phase.Entering? ==> exists ok :: MoveEnabled(d, Move(Retry(Enter(ok)), fault))
    ensures MoveEnabled(d, Move(Restart, fault))
  {
    RestartIsEnabled(d, fault);
    hide MoveEnabled, Coupled, Index;
    if d.state.first.hand.Requeueing? { PushIsFollowed(d, d.state.first.hand.msg, fault); }
    if RetryHand(d.state).Requeueing? { PushIsFollowed(d, RetryHand(d.state).msg, fault); }
    if AtLoopHead(d.state.retry) && Left(d.state.retry.phase) > 0 { PopIsFollowed(d, fault); }
    SizeIsFollowed(d, fault);
  }

  lemma RestartIsEnabled(d: System, fault: Fault)
    requires Coupled(d)
    ensures MoveEnabled(d, Move(Restart, fault))
  {
    ReopenHolds(d.store, QueueOf(d.state), d.state.remains, fault);
  }

  // ---- draining ------------------------------------------------------------------------------------

  lemma StartCoupled(maxAttempts: int)
    ensures Coupled(Start(maxAttempts)) && Index(Start(maxAttempts)) == 0
    ensures Mirrors(Start(maxAttempts).store, Fifo([], false))
  {
    CreatedIsEmptyBag<Tracked>();
    CreatedMirrorsEmpty<Tracked>();
  }

  /**
   Draining ends on the durable queue: whatever its order, whatever calls fail, and over torn pushes
   and restarts, the successful pops and the messages still stored are bounded by the weight of the
   queue at the start plus the retry limit for each message that arrives.
   */
  lemma DurableDrainBound(d: System, moves: seq<Move>)
    requires Conserved(d.state) && Accounted(d.state) && Coupled(d)
    requires LegalMoves(d, moves) && Index(d) + |moves| <= MAX_INT64
    ensures Pops(StepsOf(moves)) + |MessageKeys(RunMoves(d, moves).store.records)|
         <= Remaining(d.state) + Limit(d.state) * Arrivals(StepsOf(moves))
  {
    hide Conserved, Accounted, Remaining, Holding, MessageKeys;
    RunKeepsCoupled(d, moves);
    DrainBound(d.state, StepsOf(moves));
    var t := RunMoves(d, moves);
    SizeCounts(t.store, QueueOf(t.state), t.state.remains, NoFault);
  }

  /** From a new directory: no more than the limit of pops for each message that ever reached the store. */
  lemma DurablePopsBounded(maxAttempts: int, moves: seq<Move>)
    requires LegalMoves(Start(maxAttempts), moves) && |moves| <= MAX_INT64
    ensures Pops(StepsOf(moves)) + |MessageKeys(RunMoves(Start(maxAttempts), moves).store.records)|
         <= (if maxAttempts > 1 then maxAttempts else 1) * Arrivals(StepsOf(moves))
  {
    hide LegalMoves, RunMoves, MessageKeys, Pops, Arrivals, Coupled, Mirrors;
    StartCoupled(maxAttempts);
    DurableDrainBound(Start(maxAttempts), moves);
  }

  /**
   From a new directory, over every interleaving, every failing call, every torn push and every
   restart: each ingested message is in exactly one place, the stored ones are those under the
   message keys, each was processed once per recorded attempt, and none more often than the limit.
   */
  lemma DurableConservation(maxAttempts: int, moves: seq<Move>)
    requires LegalMoves(Start(maxAttempts), moves) && |moves| <= MAX_INT64
    ensures var d := RunMoves(Start(maxAttempts), moves);
            && Conserved(d.state) && Accounted(d.state)
            && Holding(d.store, QueueOf(d.state), d.state.remains)
  {
    hide LegalMoves, RunMoves, Mirrors, Conserved, Accounted, Holding, Legal, Run;
    StartCoupled(maxAttempts);
    assert Conserved(Init(maxAttempts)) && Accounted(Init(maxAttempts)) by { InitInvariants(maxAttempts); }
    RunKeepsCoupled(Start(maxAttempts), moves);
    RunConserves(Init(maxAttempts), StepsOf(moves));
    RunAccounts(Init(maxAttempts), StepsOf(moves));
  }

  lemma InitInvariants(maxAttempts: int)
    ensures Conserved(Init(maxAttempts)) && Accounted(Init(maxAttempts))
  {
  }
}
