/**
 The durable queue as a bag with, at times, one message more: the remains of a torn push, stored
 under the counter's own index until it is popped or the next write takes its place.
 */
module TornRefinement {
  import opened ByteOrder
  import opened Decimal
  import opened Queue
  import opened LevelDbQueue
  import opened FifoRefinement
  import opened BagRefinement

  /** Whether a push with this fault writes its message but not the index. */
  predicate Tears<T>(s: Store<T>, fault: Fault) {
    fault == IndexPutFails && !s.closed && Counter(s.records).Some?
  }

  function Slot<T>(s: Store<T>): Bytes
    requires Counter(s.records).Some?
  {
    MessageKey(Counter(s.records).value)
  }

  function WithoutSlot<T>(s: Store<T>): Store<T>
    requires Counter(s.records).Some?
  {
    s.(records := s.records - {Slot(s)})
  }

  /** The store holds the messages of q and the remains of at most one torn push, and no others. */
  ghost predicate Holding<T>(s: Store<T>, q: Fifo<T>, remains: seq<T>) {
    && Counter(s.records).Some?
    && if remains == [] then Bag(s, q)
       else |remains| == 1 && Holds(s.records, Slot(s), remains[0]) && Bag(WithoutSlot(s), q)
  }

  lemma HoldingMeaning<T>(s: Store<T>, q: Fifo<T>, remains: seq<T>)
    requires Holding(s, q, remains)
    ensures s.closed == q.closed && Counter(s.records).Some? && Counter(s.records).value >= 0 && |remains| <= 1
  {
    if remains != [] { SlotKeepsCounter(s); }
  }

  lemma SlotKeepsCounter<T>(s: Store<T>)
    requires Counter(s.records).Some?
    ensures Counter(WithoutSlot(s).records) == Counter(s.records)
    ensures MessageKeySet(WithoutSlot(s).records) == MessageKeySet(s.records) - {Slot(s)}
  {
    MessageKeyFacts(Counter(s.records).value);
  }

  // ---- pushes ------------------------------------------------------------------------------------------

  /** A complete push onto the counter's slot does not see what was there. */
  lemma PushOverSlot<T>(s: Store<T>, msg: T)
    requires Counter(s.records).Some?
    ensures PushStep(WithoutSlot(s), msg, NoFault) == if s.closed then (WithoutSlot(s), Failed(QueueClosed))
                                                      else PushStep(s, msg, NoFault)
  {
    hide ParseInt, FormatInt, Wrap64;
    SlotKeepsCounter(s);
    var k := Slot(s);
    assert (s.records - {k})[k := Json(msg)] == s.records[k := Json(msg)];
  }

  lemma TornPush<T>(s: Store<T>, q: Fifo<T>, remains: seq<T>, msg: T)
    requires Holding(s, q, remains) && !s.closed
    ensures var (s', r) := PushStep(s, msg, IndexPutFails);
            r.Failed? && Holding(s', q, [msg]) && Counter(s'.records) == Counter(s.records)
  {
    hide ParseInt, FormatInt, Wrap64, Carries, IsMessageKey;
    var c := Counter(s.records).value;
    MessageKeyFacts(c);
    SlotKeepsCounter(s);
    var k := Slot(s);
    var s' := PushStep(s, msg, IndexPutFails).0;
    assert s'.records == s.records[k := Json(msg)];
    assert Counter(s'.records) == Counter(s.records);
    assert s'.records - {k} == s.records - {k};
    assert Bag(WithoutSlot(s), q) by {
      if remains == [] { SlotIsFree(s, q); }
    }
    assert WithoutSlot(s') == WithoutSlot(s);
  }

  lemma SlotIsFree<T>(s: Store<T>, q: Fifo<T>)
    requires Bag(s, q)
    ensures Slot(s) !in s.records && WithoutSlot(s) == s
  {
    hide ParseInt, FormatInt, IsMessageKey;
    var c := Counter(s.records).value;
    MessageKeyFacts(c);
    assert Slot(s) !in KeysFrom(0, c);
    assert s.records - {Slot(s)} == s.records;
  }

  /** What a push can answer and leave, torn pushes included. */
  lemma PushWrites<T>(s: Store<T>, q: Fifo<T>, remains: seq<T>, msg: T, fault: Fault)
    requires Holding(s, q, remains) && Counter(s.records).value < MAX_INT64
    ensures var (s', r) := PushStep(s, msg, fault);
            && Counter(s'.records).Some?
            && if r.Done? then
                 && !q.closed && Holding(s', q.(messages := q.messages + [msg]), [])
                 && Counter(s'.records).value <= Counter(s.records).value + 1
               else if Tears(s, fault) then
                 r.Failed? && !q.closed && Holding(s', q, [msg]) && Counter(s'.records) == Counter(s.records)
               else r.Failed? && s' == s
  {
    hide Bag, PushStep, Counter, Slot, WithoutSlot;
    HoldingMeaning(s, q, remains);
    if Tears(s, fault) {
      TornPush(s, q, remains, msg);
    } else if fault == IndexPutFails {
      ClosedPush(s, msg, fault);
    } else {
      FaultFailsOrNot(s, Op.Push(msg), fault);
      FailedCallChangesNothing(s, Op.Push(msg), fault);
      CleanPush(s, q, remains, msg);
    }
  }

  lemma ClosedPush<T>(s: Store<T>, msg: T, fault: Fault)
    requires s.closed || Counter(s.records).None?
    ensures PushStep(s, msg, fault).0 == s && PushStep(s, msg, fault).1.Failed?
  {
  }

  lemma CleanPush<T>(s: Store<T>, q: Fifo<T>, remains: seq<T>, msg: T)
    requires Holding(s, q, remains) && Counter(s.records).value < MAX_INT64
    ensures var (s', r) := PushStep(s, msg, NoFault);
            if q.closed then r.Failed? && s' == s
            else
              && r.Done? && Holding(s', q.(messages := q.messages + [msg]), [])
              && Counter(s'.records).Some? && Counter(s'.records).value <= Counter(s.records).value + 1
  {
    hide Bag, PushStep, Counter, Slot, WithoutSlot;
    HoldingMeaning(s, q, remains);
    if s.closed {
      ClosedPush(s, msg, NoFault);
    } else if remains == [] {
      PushAnswers(s, q, msg, NoFault);
      OpenPush(s, msg);
    } else {
      SlotKeepsCounter(s);
      PushOverSlot(s, msg);
      PushAnswers(WithoutSlot(s), q, msg, NoFault);
      OpenPush(s, msg);
    }
  }

  lemma OpenPush<T>(s: Store<T>, msg: T)
    requires !s.closed && Counter(s.records).Some?
    ensures PushStep(s, msg, NoFault).1 == Done
  {
    hide FormatInt, Wrap64, ParseInt;
  }

  // ---- the other calls ----------------------------------------------------------------------------------

  /** A Pop of the remains leaves the rest of the bag. */
  lemma PopOfSlot<T>(s: Store<T>, q: Fifo<T>, remains: seq<T>)
    requires Holding(s, q, remains) && remains != [] && PopStep(s, NoFault).1.Item?
    requires PopStep(s, NoFault).0 == WithoutSlot(s) && s.records[Slot(s)] == Json(PopStep(s, NoFault).1.msg)
    ensures var (s', r) := PopStep(s, NoFault);
            r == Item(remains[0]) && Holding(s', q, []) && Counter(s'.records) == Counter(s.records)
  {
    hide Counter, Slot, PopStep, Bag;
    SlotKeepsCounter(s);
  }

  /** A Pop of another key leaves the remains where they are. */
  lemma PopBesideSlot<T>(s: Store<T>, q: Fifo<T>, remains: seq<T>, key: Bytes) returns (k: nat)
    requires Holding(s, q, remains) && remains != [] && !s.closed && Counter(s.records).value < MAX_INT64
    requires key != Slot(s) && key in MessageKeySet(s.records) && s.records[key].Json?
    requires forall x | x in MessageKeySet(s.records) :: Leq(key, x)
    ensures var s' := s.(records := s.records - {key});
            && k < |q.messages| && s.records[key].msg == q.messages[k]
            && Holding(s', q.(messages := Without(q.messages, k)), remains)
            && Counter(s'.records) == Counter(s.records)
  {
    hide Leq, ParseInt, FormatInt, MessageKey, Bag, Without;
    SlotKeepsCounter(s);
    var clean := WithoutSlot(s);
    var m := s.records[key].msg;
    assert key in MessageKeySet(clean.records) && clean.records[key] == Json(m);
    PopOfLeast(clean, key, m);
    PopAnswers(clean, q, NoFault);
    var (rest, _) := PopStep(clean, NoFault);
    k :| 0 <= k < |q.messages| && Item(m) == Item(q.messages[k])
      && Bag(rest, q.(messages := Without(q.messages, k)));
    var s' := s.(records := s.records - {key});
    KeyIsNotIndex(s, key);
    assert Counter(s'.records) == Counter(s.records);
    assert s'.records - {Slot(s)} == s.records - {Slot(s)} - {key};
    assert WithoutSlot(s') == rest;
  }

  lemma KeyIsNotIndex<T>(s: Store<T>, key: Bytes)
    requires key in MessageKeySet(s.records)
    ensures key != INDEX_KEY
  {
  }

  /** A Pop that answers a message has taken one of those that wait, or the remains. */
  lemma PopTakes<T>(s: Store<T>, q: Fifo<T>, remains: seq<T>, fault: Fault)
    requires Holding(s, q, remains) && Counter(s.records).value < MAX_INT64
    ensures var (s', r) := PopStep(s, fault);
            && Counter(s'.records) == Counter(s.records)
            && if r.Item? then
                 && !q.closed
                 && ((remains != [] && r == Item(remains[0]) && Holding(s', q, []))
                     || exists k :: 0 <= k < |q.messages| && r == Item(q.messages[k])
                                 && Holding(s', q.(messages := Without(q.messages, k)), remains))
               else r.Failed? && s' == s
  {
    hide Bag, PopStep, Counter, Slot, WithoutSlot, Without;
    HoldingMeaning(s, q, remains);
    FaultFailsOrNot(s, Op.Pop, fault);
    FailedCallChangesNothing(s, Op.Pop, fault);
    ItemWhenOpen(s, fault);
    if PopStep(s, fault).1.Item? {
      if remains == [] {
        PopAnswers(s, q, fault);
        PopKeepsIndex(s, fault);
      } else {
        var key := PopTakesLeast(s);
        if key == Slot(s) {
          SlotPopped(s, key);
          PopOfSlot(s, q, remains);
        } else {
          var k := PopBesideSlot(s, q, remains, key);
        }
      }
    }
  }

  lemma SlotPopped<T>(s: Store<T>, key: Bytes)
    requires Counter(s.records).Some? && key == Slot(s)
    ensures s.(records := s.records - {key}) == WithoutSlot(s)
  {
  }

  lemma ItemWhenOpen<T>(s: Store<T>, fault: Fault)
    ensures PopStep(s, fault).1.Item? ==> !s.closed && PopStep(s, fault) == PopStep(s, NoFault)
  {
    hide MessageKeys;
  }

  lemma PopKeepsIndex<T>(s: Store<T>, fault: Fault)
    ensures Counter(PopStep(s, fault).0.records) == Counter(s.records)
  {
    if PopStep(s, fault).1.Item? {
      ItemWhenOpen(s, fault);
      var key := PopTakesLeast(s);
      KeyIsNotIndex(s, key);
    }
    hide ParseInt, MessageKeys;
  }

  /** Size counts the remains of a torn push among the messages. */
  lemma SizeCounts<T>(s: Store<T>, q: Fifo<T>, remains: seq<T>, fault: Fault)
    requires Holding(s, q, remains)
    ensures var r := SizeStep(s, fault);
            if r.Count? then r.n == |q.messages| + |remains| && !q.closed else r.Failed?
    ensures |MessageKeys(s.records)| == |q.messages| + |remains|
  {
    hide Bag, Counter, Slot, Sorted, MessageKeySet;
    if remains == [] {
      SizeOfBag(s, q);
    } else {
      SizeOfBag(WithoutSlot(s), q);
      SlotKeepsCounter(s);
      SlotIsKey(s);
      var all := MessageKeySet(s.records);
      assert all == (all - {Slot(s)}) + {Slot(s)};
    }
    HoldingMeaning(s, q, remains);
  }

  lemma SlotIsKey<T>(s: Store<T>)
    requires Counter(s.records).Some? && Slot(s) in s.records
    ensures Slot(s) in MessageKeySet(s.records)
  {
    MessageKeyFacts(Counter(s.records).value);
  }

  lemma CloseHolds<T>(s: Store<T>, q: Fifo<T>, remains: seq<T>, fault: Fault)
    requires Holding(s, q, remains)
    ensures var s' := Step(s, Op<T>.Close, fault).0;
            Holding(s', q.(closed := true), remains) && s'.records == s.records
  {
    hide Bag, Counter, MessageKey;
    if remains == [] {
      CloseAnswers(s, q, fault);
    } else {
      CloseAnswers(WithoutSlot(s), q, fault);
      assert WithoutSlot(s.(closed := true)) == WithoutSlot(s).(closed := true);
    }
  }

  /** Opening the directory again finds every message where it was, the remains of a torn push included. */
  lemma ReopenHolds<T>(s: Store<T>, q: Fifo<T>, remains: seq<T>, fault: Fault)
    requires Holding(s, q, remains)
    ensures OpenStep(s.records, fault) == (s.records, true)
    ensures Holding(Store(s.records, false), q.(closed := false), remains)
  {
    assert INDEX_KEY in s.records;
    hide Carries, Counter, Slot;
    assert WithoutSlot(Store(s.records, false)) == WithoutSlot(s).(closed := false);
  }
}
