/**
 What survives in the durable queue when pushes are torn between their two writes, database
 calls fail, and the process is restarted at any point.
 */
module CrashSafety {
  import opened ByteOrder
  import opened Decimal
  import opened Queue
  import opened LevelDbQueue

  datatype Event<+T> = Call(op: Op<T>, fault: Fault) | Reopen(fault: Fault)

  /**
   The store with its history: every acknowledged Push by index, the acknowledged messages a Pop
   has returned, and the message left behind by a push whose index write failed.
   */
  datatype Journal<T> = Journal(store: Store<T>, acked: map<int, T>, popped: map<int, T>, torn: Option<T>)

  /** A new database directory after its first successful opening. */
  function Created<T>(): Journal<T> {
    Journal(Store(OpenStep(map[], NoFault).0, false), map[], map[], None)
  }

  /** The index a message key stands for. */
  function IndexOf(key: Bytes): int {
    if |key| > 4 && ParseInt(key[4..]).Some? then ParseInt(key[4..]).value else -1
  }

  predicate ReachesSecondWrite<T>(s: Store<T>, fault: Fault) {
    !s.closed && Counter(s.records).Some? && fault != GetFails && fault != EncodeFails && fault != MessagePutFails
  }

  function Advance<T>(j: Journal<T>, e: Event<T>): Journal<T> {
    match e
    case Reopen(fault) =>
      var (records, usable) := OpenStep(j.store.records, fault);
      j.(store := Store(records, !usable))
    case Call(op, fault) =>
      var (store, reply) := Step(j.store, op, fault);
      if op.Push? && ReachesSecondWrite(j.store, fault) then
        if reply == Done then
          j.(store := store, acked := j.acked[Counter(j.store.records).value := op.msg], torn := None)
        else
          j.(store := store, torn := Some(op.msg))
      else if op.Pop? && reply.Item? then
        var i := IndexOf(MessageKeys(j.store.records)[0]);
        if i in j.acked then j.(store := store, popped := j.popped[i := reply.msg])
        else j.(store := store, torn := None)
      else
        j.(store := store)
  }

  function Replay<T>(j: Journal<T>, events: seq<Event<T>>): Journal<T>
    decreases |events|
  {
    if events == [] then j else Replay(Advance(j, events[0]), events[1..])
  }

  /**
   The stored messages are exactly the acknowledged ones no Pop has returned, unaltered, plus the
   remains of a torn push, which sit at the counter itself.
   */
  ghost predicate Safe<T>(j: Journal<T>) {
    var records := j.store.records;
    && Counter(records).Some?
    && var c := Counter(records).value;
    && 0 <= c
    && (forall i :: i in j.acked <==> 0 <= i < c)
    && j.popped.Keys <= j.acked.Keys
    && (forall i {:trigger i in j.popped} | i in j.popped :: j.popped[i] == j.acked[i] && MessageKey(i) !in records)
    && (forall i {:trigger MessageKey(i)} | 0 <= i < c && i !in j.popped ::
          MessageKey(i) in records && records[MessageKey(i)] == Json(j.acked[i]))
    && (MessageKey(c) in records <==> j.torn.Some?)
    && (j.torn.Some? ==> records[MessageKey(c)] == Json(j.torn.value))
    && (forall k | k in records && IsMessageKey(k) :: k in KeysFrom(0, c + 1))
  }

  lemma IndexOfMessageKey(i: int)
    requires IsInt64(i)
    ensures IndexOf(MessageKey(i)) == i
  {
    assert MessageKey(i)[4..] == FormatInt(i);
    ParseFormat(i);
    MessageKeyFacts(i);
  }

  lemma CounterAfterPush<T>(records: map<Bytes, Value<T>>, n: int)
    requires IsInt64(n)
    ensures Counter(records[INDEX_KEY := Text(FormatInt(n))]) == Some(n)
  {
    ParseFormat(n);
  }

  lemma CreatedSafe<T>()
    ensures Safe(Created<T>()) && Counter(Created<T>().store.records) == Some(0)
  {
    ParseFormat(0);
    assert FormatInt(0) == [ZERO];
    MessageKeyFacts(0);
    var records := Created<T>().store.records;
    assert records.Keys == {INDEX_KEY};
    forall i ensures MessageKey(i) !in records { MessageKeyFacts(i); }
  }

  /** Both writes done: the message takes the counter's slot, over the remains of any torn push. */
  lemma AcknowledgedPushSafe<T>(j: Journal<T>, msg: T, records: map<Bytes, Value<T>>)
    requires Safe(j) && Counter(j.store.records).value < MAX_INT64
    requires var c := Counter(j.store.records).value;
             records == j.store.records[MessageKey(c) := Json(msg)][INDEX_KEY := Text(FormatInt(c + 1))]
    ensures var acked := j.acked[Counter(j.store.records).value := msg];
            Safe(Journal(j.store.(records := records), acked, j.popped, None))
  {
    hide ParseInt, FormatInt, Counter;
    var c := Counter(j.store.records).value;
    MessageKeyFacts(c);
    MessageKeyFacts(c + 1);
    KeysFromSnoc(0, c + 1);
    KeysFromSnoc(0, c + 2);
    CounterAfterPush(j.store.records[MessageKey(c) := Json(msg)], c + 1);
    assert MessageKey(c + 1) !in KeysFrom(0, c + 1);
    forall i | 0 <= i < c ensures MessageKey(i) != INDEX_KEY && MessageKey(i) != MessageKey(c) {
      MessageKeyFacts(i);
    }
  }

  /** Only the message was written: the counter's slot holds a message nobody acknowledged. */
  lemma TornPushSafe<T>(j: Journal<T>, msg: T, records: map<Bytes, Value<T>>)
    requires Safe(j)
    requires records == j.store.records[MessageKey(Counter(j.store.records).value) := Json(msg)]
    ensures Safe(j.(store := j.store.(records := records), torn := Some(msg)))
  {
    hide ParseInt, FormatInt, IsMessageKey;
    var c := Counter(j.store.records).value;
    MessageKeyFacts(c);
    KeysFromSnoc(0, c + 1);
    assert Counter(records) == Some(c);
  }

  lemma PushSafe<T>(j: Journal<T>, msg: T, fault: Fault)
    requires Safe(j) && Counter(j.store.records).value < MAX_INT64
    ensures Safe(Advance(j, Call(Op.Push(msg), fault)))
    ensures Counter(Advance(j, Call(Op.Push(msg), fault)).store.records).value <= Counter(j.store.records).value + 1
  {
    hide ParseInt, FormatInt, MessageKey, IsMessageKey;
    var records := PushStep(j.store, msg, fault).0.records;
    if ReachesSecondWrite(j.store, fault) {
      var c := Counter(j.store.records).value;
      var written := j.store.records[MessageKey(c) := Json(msg)];
      if fault == IndexPutFails {
        TornPushSafe(j, msg, records);
        MessageKeyFacts(c);
        assert Counter(written) == Counter(j.store.records);
      } else {
        AcknowledgedPushSafe(j, msg, records);
        CounterAfterPush(written, c + 1);
      }
    }
  }

  /** Deleting one message key keeps the store safe once the deletion is booked. */
  lemma DeleteSafe<T>(j: Journal<T>, i: int, records: map<Bytes, Value<T>>)
    requires Safe(j) && 0 <= i <= Counter(j.store.records).value && MessageKey(i) in j.store.records
    requires records == j.store.records - {MessageKey(i)}
    ensures Counter(records) == Counter(j.store.records)
    ensures i in j.acked ==>
              i !in j.popped && Safe(j.(store := j.store.(records := records), popped := j.popped[i := j.acked[i]]))
    ensures i !in j.acked ==> Safe(j.(store := j.store.(records := records), torn := None))
  {
    hide ParseInt, FormatInt, IsMessageKey;
    MessageKeyFacts(i);
    MessageKeyFacts(Counter(j.store.records).value);
    assert Counter(records) == Counter(j.store.records);
  }

  lemma PopSafe<T>(j: Journal<T>, fault: Fault)
    requires Safe(j) && Counter(j.store.records).value <= MAX_INT64
    ensures Safe(Advance(j, Call(Op.Pop, fault)))
    ensures Counter(Advance(j, Call(Op.Pop, fault)).store.records) == Counter(j.store.records)
    ensures forall i | i in j.popped :: i in Advance(j, Call(Op.Pop, fault)).popped
  {
    hide ParseInt, FormatInt, MessageKey, Counter, Sorted, MessageKeys;
    var records := j.store.records;
    var (store, reply) := PopStep(j.store, fault);
    if reply.Item? {
      var key := MessageKeys(records)[0];
      ListedKeys(records);
      assert key in MessageKeys(records);
      var i :| 0 <= i < Counter(records).value + 1 && key == MessageKey(i);
      IndexOfMessageKey(i);
      DeleteSafe(j, i, store.records);
    }
  }

  lemma AdvanceSafe<T>(j: Journal<T>, e: Event<T>)
    requires Safe(j) && Counter(j.store.records).value < MAX_INT64
    ensures Safe(Advance(j, e))
    ensures Counter(Advance(j, e).store.records).value <= Counter(j.store.records).value + 1
    ensures forall i | i in j.acked :: i in Advance(j, e).acked && Advance(j, e).acked[i] == j.acked[i]
    ensures forall i | i in j.popped :: i in Advance(j, e).popped
  {
    hide ParseInt, FormatInt, Leq, Sorted;
    match e
    case Call(Push(msg), fault) => PushSafe(j, msg, fault);
    case Call(Pop, fault) => PopSafe(j, fault);
    case _ =>
  }

  /**
   Over every mix of calls, faults and restarts shorter than 2^63 events, each acknowledged
   message is either still stored under its own index, unaltered, or was returned by a Pop,
   never both; nothing acknowledged before is ever forgotten.
   */
  lemma {:induction false} CrashSafe<T>(j: Journal<T>, events: seq<Event<T>>)
    requires Safe(j) && Counter(j.store.records).value + |events| <= MAX_INT64
    ensures Safe(Replay(j, events))
    ensures forall i | i in j.acked :: i in Replay(j, events).acked && Replay(j, events).acked[i] == j.acked[i]
    ensures forall i | i in j.popped :: i in Replay(j, events).popped
    decreases |events|
  {
    if events != [] {
      AdvanceSafe(j, events[0]);
      CrashSafe(Advance(j, events[0]), events[1..]);
    }
  }

  /** The same from a new directory, said of the database itself. */
  lemma EveryAcknowledgedMessageKeptOnce<T>(events: seq<Event<T>>)
    requires |events| <= MAX_INT64
    ensures var j := Replay(Created(), events);
            var records := j.store.records;
            && Counter(records).Some?
            && (forall i | i in j.acked ::
                  (MessageKey(i) in records && records[MessageKey(i)] == Json(j.acked[i]))
                  != (i in j.popped && j.popped[i] == j.acked[i]))
            && (forall k | k in records && IsMessageKey(k) ::
                  exists i ::
                    0 <= i <= Counter(records).value && k == MessageKey(i) && (i in j.acked || j.torn.Some?))
  {
    hide ParseInt, FormatInt, MessageKey, IsMessageKey, Advance;
    CreatedSafe<T>();
    CrashSafe(Created<T>(), events);
    var j := Replay(Created(), events);
    var records := j.store.records;
    forall k | k in records && IsMessageKey(k)
      ensures exists i :: 0 <= i <= Counter(records).value && k == MessageKey(i) && (i in j.acked || j.torn.Some?)
    {
      var i :| 0 <= i < Counter(records).value + 1 && k == MessageKey(i);
    }
  }

  /** The only push that breaks the index is the one that would wrap a full 64-bit counter. */
  lemma PushSafeExactlyBelowMax<T>(j: Journal<T>, msg: T)
    requires Safe(j) && !j.store.closed && Counter(j.store.records).value <= MAX_INT64
    ensures Safe(Advance(j, Call(Op.Push(msg), NoFault))) <==> Counter(j.store.records).value < MAX_INT64
  {
    hide ParseInt, FormatInt, MessageKey;
    var c := Counter(j.store.records).value;
    if c < MAX_INT64 {
      PushSafe(j, msg, NoFault);
    } else {
      assert Wrap64(c + 1) == MIN_INT64;
      CounterAfterPush(j.store.records[MessageKey(c) := Json(msg)], MIN_INT64);
    }
  }

  /** An acknowledged push adds a message, except that it replaces the remains of a torn one. */
  lemma PushRaisesSize<T>(j: Journal<T>, msg: T)
    requires Safe(j) && !j.store.closed && Counter(j.store.records).value < MAX_INT64
    ensures var before := |MessageKeySet(j.store.records)|;
            SizeStep(PushStep(j.store, msg, NoFault).0, NoFault)
            == Count(if j.torn.None? then before + 1 else before)
  {
    hide ParseInt, FormatInt, Sorted;
    var c := Counter(j.store.records).value;
    var after := PushStep(j.store, msg, NoFault).0;
    MessageKeyFacts(c);
    assert MessageKeySet(after.records) == MessageKeySet(j.store.records) + {MessageKey(c)};
    assert j.torn.Some? ==> MessageKeySet(after.records) == MessageKeySet(j.store.records);
  }
}
