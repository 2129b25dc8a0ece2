/**
 Whatever the order of its keys, the durable queue is a queue that hands out some message it
 holds: the queue of the delivery protocol, where a pop may take any position.
 */
module BagRefinement {
  import opened ByteOrder
  import opened Decimal
  import opened Queue
  import opened LevelDbQueue
  import opened FifoRefinement

  /**
   The message keys, in order of arrival, and under each the message that arrived with it; all of
   them at indices the counter has passed.
   */
  ghost predicate Carries<T>(records: map<Bytes, Value<T>>, keys: seq<Bytes>, q: seq<T>) {
    && |keys| == |q|
    && (forall i, j :: 0 <= i < j < |keys| ==> keys[i] != keys[j])
    && (forall k :: k in keys <==> k in records && IsMessageKey(k))
    && (forall i :: 0 <= i < |keys| ==> Holds(records, keys[i], q[i]))
    && Counter(records).Some? && Counter(records).value >= 0
    && (forall k :: k in keys ==> k in KeysFrom(0, Counter(records).value))
  }

  function Without<T>(s: seq<T>, k: nat): seq<T>
    requires k < |s|
  {
    s[..k] + s[k + 1..]
  }

  lemma WithoutElements<T>(s: seq<T>, k: nat)
    requires k < |s| && forall i, j :: 0 <= i < j < |s| ==> s[i] != s[j]
    ensures forall i, j :: 0 <= i < j < |Without(s, k)| ==> Without(s, k)[i] != Without(s, k)[j]
    ensures forall x :: x in Without(s, k) <==> x in s && x != s[k]
  {
    var rest := Without(s, k);
    forall x ensures x in rest <==> x in s && x != s[k] {
      if x in s && x != s[k] {
        var i :| 0 <= i < |s| && s[i] == x;
        assert rest[if i < k then i else i - 1] == x;
      }
      if x in rest {
        var i :| 0 <= i < |rest| && rest[i] == x;
        assert s[if i < k then i else i + 1] == x;
      }
    }
  }

  lemma CarriesWithout<T>(records: map<Bytes, Value<T>>, keys: seq<Bytes>, q: seq<T>, k: nat)
    requires Carries(records, keys, q) && k < |keys|
    ensures Carries(records - {keys[k]}, Without(keys, k), Without(q, k))
    ensures Counter(records - {keys[k]}) == Counter(records)
  {
    hide IsMessageKey, ParseInt;
    WithoutElements(keys, k);
    var rest, left := Without(keys, k), Without(q, k);
    assert keys[k] in keys && !IsMessageKey(INDEX_KEY);
    assert Counter(records - {keys[k]}) == Counter(records);
    forall i | 0 <= i < |rest| ensures Holds(records - {keys[k]}, rest[i], left[i]) {
      var j := if i < k then i else i + 1;
      assert rest[i] == keys[j] && left[i] == q[j];
      assert Holds(records, keys[j], q[j]);
      assert rest[i] in rest;
    }
  }

  /** A Pop takes exactly one of the waiting messages, whichever its key sorts first, or says the queue is empty. */
  lemma PopTakesOne<T>(s: Store<T>, keys: seq<Bytes>, q: seq<T>)
    requires Carries(s.records, keys, q) && !s.closed
    ensures var (s', r) := PopStep(s, NoFault);
            && r == FirstStep(s, NoFault) && Counter(s'.records) == Counter(s.records)
            && if q == [] then r == Failed(QueueEmpty) && s' == s
               else exists k :: 0 <= k < |q| && r == Item(q[k]) && Carries(s'.records, Without(keys, k), Without(q, k))
  {
    hide Sorted, Carries, IsMessageKey, Counter;
    CarriesMeaning(s.records, keys, q);
    ListedKeys(s.records);
    var listed := MessageKeys(s.records);
    if q == [] {
      assert MessageKeySet(s.records) == {};
    } else {
      assert keys[0] in keys && keys[0] in listed;
      assert listed[0] in listed && listed[0] in keys;
      var k :| 0 <= k < |keys| && keys[k] == listed[0];
      assert Holds(s.records, keys[k], q[k]);
      CarriesWithout(s.records, keys, q, k);
    }
  }

  lemma CarriesMeaning<T>(records: map<Bytes, Value<T>>, keys: seq<Bytes>, q: seq<T>)
    requires Carries(records, keys, q)
    ensures |keys| == |q|
    ensures forall k :: k in keys <==> k in records && IsMessageKey(k)
    ensures forall i :: 0 <= i < |keys| ==> Holds(records, keys[i], q[i])
  {
  }

  /** A Push finds its index unused, adds its message last, and leaves the next index unused. */
  lemma PushAddsLast<T>(s: Store<T>, keys: seq<Bytes>, q: seq<T>, msg: T)
    requires Carries(s.records, keys, q) && !s.closed && Counter(s.records).value < MAX_INT64
    ensures var (s', r) := PushStep(s, msg, NoFault);
            var c := Counter(s.records).value;
            && r == Done && Counter(s'.records) == Some(c + 1)
            && MessageKey(c) !in s.records
            && Carries(s'.records, keys + [MessageKey(c)], q + [msg])
  {
    hide ParseInt, FormatInt;
    var c := Counter(s.records).value;
    var key := MessageKey(c);
    MessageKeyFacts(c);
    ParseFormat(c + 1);
    KeysFromSnoc(0, c + 1);
    assert key !in KeysFrom(0, c);
    assert key !in keys;
    assert forall k :: k in keys + [key] <==> k in keys || k == key;
  }

  // ---- whole runs ----------------------------------------------------------------------------

  /** The store holds the messages of q under some message keys. */
  ghost predicate Bag<T>(s: Store<T>, q: Fifo<T>) {
    && s.closed == q.closed
    && Counter(s.records).Some?
    && exists keys :: Carries(s.records, keys, q.messages)
  }

  /** A queue operation in which Pop and Peek take the message at position k. */
  function BagStep<T>(q: Fifo<T>, op: Op<T>, k: nat): (Fifo<T>, Reply<T>) {
    if (op.Pop? || op.Peek?) && !q.closed && k < |q.messages| then
      (if op.Pop? then q.(messages := Without(q.messages, k)) else q, Item(q.messages[k]))
    else FifoStep(q, op)
  }

  /** The replies are those of a queue that hands out, at each Pop and Peek, some message it holds. */
  ghost predicate AnswersAsBag<T>(q: Fifo<T>, ops: seq<Op<T>>, replies: seq<Reply<T>>)
    decreases |ops|
  {
    && |replies| == |ops|
    && (ops != [] ==>
          exists k :: BagStep(q, ops[0], k).1 == replies[0]
                   && AnswersAsBag(BagStep(q, ops[0], k).0, ops[1..], replies[1..]))
  }

  lemma {:induction false} SizeOfDistinct(keys: seq<Bytes>, s: set<Bytes>)
    requires forall i, j :: 0 <= i < j < |keys| ==> keys[i] != keys[j]
    requires forall k :: k in keys <==> k in s
    ensures |s| == |keys|
  {
    if keys == [] {
      assert s == {};
    } else {
      var k := keys[|keys| - 1];
      var front := keys[..|keys| - 1];
      assert keys == front + [k];
      SizeOfDistinct(front, s - {k});
    }
  }

  lemma SizeOfBag<T>(s: Store<T>, q: Fifo<T>)
    requires Bag(s, q)
    ensures |MessageKeys(s.records)| == |MessageKeySet(s.records)| == |q.messages|
  {
    hide Sorted, IsMessageKey, Counter;
    var keys :| Carries(s.records, keys, q.messages);
    SizeOfDistinct(keys, MessageKeySet(s.records));
  }

  /** Every operation is one of the bag queue, at some position, and keeps the index beyond all live keys. */
  lemma StepIsBagStep<T>(s: Store<T>, q: Fifo<T>, op: Op<T>) returns (k: nat)
    requires Bag(s, q) && Counter(s.records).value < MAX_INT64
    ensures var (s', r) := Step(s, op, NoFault); var (q', r') := BagStep(q, op, k);
            && r == r' && Bag(s', q')
            && Counter(s.records).value <= Counter(s'.records).value <= Counter(s.records).value + 1
  {
    hide Carries, Counter, ParseInt, Sorted, IsMessageKey;
    k := 0;
    var keys :| Carries(s.records, keys, q.messages);
    CarriesMeaning(s.records, keys, q.messages);
    if !s.closed {
      match op
      case Push(msg) =>
        PushAddsLast(s, keys, q.messages, msg);
      case Pop =>
        PopTakesOne(s, keys, q.messages);
        if q.messages != [] {
          k :| 0 <= k < |q.messages| && PopStep(s, NoFault).1 == Item(q.messages[k])
            && Carries(PopStep(s, NoFault).0.records, Without(keys, k), Without(q.messages, k));
        }
      case Peek =>
        PopTakesOne(s, keys, q.messages);
        if q.messages != [] {
          k :| 0 <= k < |q.messages| && PopStep(s, NoFault).1 == Item(q.messages[k]);
        }
      case Size => SizeOfBag(s, q);
      case Close =>
    }
  }

  /** Over any run the durable queue answers as a queue that hands out some message it holds each time. */
  lemma {:induction false} RunAnswersAsBag<T>(s: Store<T>, q: Fifo<T>, ops: seq<Op<T>>)
    requires Bag(s, q) && Counter(s.records).value + |ops| <= MAX_INT64
    ensures AnswersAsBag(q, ops, Replies(s, ops))
    decreases |ops|
  {
    hide Bag, BagStep, Step, Counter;
    if ops != [] {
      assert Counter(s.records).Some? by { BagMeaning(s, q); }
      var k := StepIsBagStep(s, q, ops[0]);
      var s', q' := Step(s, ops[0], NoFault).0, BagStep(q, ops[0], k).0;
      BagMeaning(s', q');
      RunAnswersAsBag(s', q', ops[1..]);
      assert Replies(s, ops)[1..] == Replies(s', ops[1..]);
    }
  }

  lemma BagMeaning<T>(s: Store<T>, q: Fifo<T>)
    requires Bag(s, q)
    ensures s.closed == q.closed && Counter(s.records).Some? && Counter(s.records).value >= 0
  {
  }

  /** A call that fails to reach the disk does what the faultless one does, or fails and does nothing. */
  lemma FaultFailsOrNot<T>(s: Store<T>, op: Op<T>, fault: Fault)
    requires op.Push? ==> fault != IndexPutFails
    ensures var (s', r) := Step(s, op, fault);
            || (s', r) == Step(s, op, NoFault)
            || (s' == s && r == Failed(StorageFailure))
            || (op.Close? && s' == Step(s, op, NoFault).0)
  {
    hide Counter, MessageKeys, MessageKey, FormatInt, Wrap64;
  }

  /** A failed Push or Pop leaves the store as it was; Size never changes it. */
  lemma FailedCallChangesNothing<T>(s: Store<T>, op: Op<T>, fault: Fault)
    requires op.Push? ==> fault != IndexPutFails
    ensures var (s', r) := Step(s, op, fault);
            && (op.Push? ==> r.Done? || (r.Failed? && s' == s))
            && (op.Pop? ==> r.Item? || (r.Failed? && s' == s))
            && (op.Size? ==> s' == s && (r.Count? || r.Failed?))
  {
    hide Counter, MessageKeys, MessageKey, FormatInt, Wrap64;
  }

  /** What a Push can answer and leave, whatever goes wrong short of a torn push. */
  lemma PushAnswers<T>(s: Store<T>, q: Fifo<T>, msg: T, fault: Fault)
    requires Bag(s, q) && Counter(s.records).value < MAX_INT64 && fault != IndexPutFails
    ensures var (s', r) := Step(s, Op.Push(msg), fault);
            && Counter(s'.records).Some?
            && Counter(s.records).value <= Counter(s'.records).value <= Counter(s.records).value + 1
            && if r.Done? then !q.closed && Bag(s', q.(messages := q.messages + [msg])) else r.Failed? && s' == s
  {
    hide Bag, Step, Counter, Without;
    BagMeaning(s, q);
    FaultFailsOrNot(s, Op.Push(msg), fault);
    FailedCallChangesNothing(s, Op.Push(msg), fault);
    var k := StepIsBagStep(s, q, Op.Push(msg));
    BagMeaning(Step(s, Op.Push(msg), NoFault).0, BagStep(q, Op.Push(msg), k).0);
  }

  /** A Pop that answers a message has taken it, and only it, from those that wait. */
  lemma PopAnswers<T>(s: Store<T>, q: Fifo<T>, fault: Fault)
    requires Bag(s, q) && Counter(s.records).value < MAX_INT64
    ensures var (s', r) := Step(s, Op<T>.Pop, fault);
            && Counter(s'.records).Some?
            && Counter(s.records).value <= Counter(s'.records).value <= Counter(s.records).value + 1
            && if r.Item? then
                 !q.closed && exists k :: 0 <= k < |q.messages| && r == Item(q.messages[k])
                                       && Bag(s', q.(messages := Without(q.messages, k)))
               else r.Failed? && s' == s
  {
    hide Bag, Step, Counter, Without;
    BagMeaning(s, q);
    FaultFailsOrNot(s, Op.Pop, fault);
    FailedCallChangesNothing(s, Op.Pop, fault);
    var j := StepIsBagStep(s, q, Op.Pop);
    var (s', r) := Step(s, Op<T>.Pop, NoFault);
    BagMeaning(s', BagStep(q, Op.Pop, j).0);
    if r.Item? {
      HeadIsPosition(q);
      var k := if j < |q.messages| then j else 0;
      assert BagStep(q, Op.Pop, j) == BagStep(q, Op.Pop, k);
      assert r == Item(q.messages[k]) && Bag(s', q.(messages := Without(q.messages, k)));
    }
  }

  lemma HeadIsPosition<T>(q: Fifo<T>)
    ensures q.messages != [] ==> Without(q.messages, 0) == q.messages[1..]
  {
    if q.messages != [] { assert q.messages[..0] + q.messages[1..] == q.messages[1..]; }
  }

  /** A Pop that answers a message takes the least of the message keys. */
  lemma PopTakesLeast<T>(s: Store<T>) returns (key: Bytes)
    requires PopStep(s, NoFault).1.Item?
    ensures key in MessageKeySet(s.records) && s.records[key] == Json(PopStep(s, NoFault).1.msg)
    ensures PopStep(s, NoFault).0 == s.(records := s.records - {key})
    ensures forall k | k in MessageKeySet(s.records) :: Leq(key, k)
  {
    hide Leq, Sorted, IsMessageKey;
    var keys := MessageKeys(s.records);
    ListedKeys(s.records);
    key := keys[0];
    assert key in keys;
    forall k | k in MessageKeySet(s.records) ensures Leq(key, k) {
      FirstIsLeast(keys, k);
    }
  }

  lemma PopOfLeast<T>(s: Store<T>, key: Bytes, m: T)
    requires !s.closed && key in MessageKeySet(s.records) && s.records[key] == Json(m)
    requires forall k | k in MessageKeySet(s.records) :: Leq(key, k)
    ensures PopStep(s, NoFault) == (s.(records := s.records - {key}), Item(m))
  {
    hide Leq, Sorted, IsMessageKey;
    var keys := MessageKeys(s.records);
    ListedKeys(s.records);
    assert key in keys;
    assert keys[0] in keys;
    FirstIsLeast(keys, key);
    assert keys[0] in MessageKeySet(s.records);
    LeqAntisymmetric(key, keys[0]);
  }

  lemma CloseAnswers<T>(s: Store<T>, q: Fifo<T>, fault: Fault)
    requires Bag(s, q)
    ensures var s' := Step(s, Op<T>.Close, fault).0; Bag(s', q.(closed := true)) && s'.records == s.records
  {
    hide Carries, Counter;
  }

  /** A new directory is the empty bag. */
  lemma CreatedIsEmptyBag<T>()
    ensures var s := Store(OpenStep<T>(map[], NoFault).0, false);
            Bag(s, Fifo([], false)) && Counter(s.records) == Some(0)
  {
    ParseFormat(0);
    assert FormatInt(0) == [ZERO];
    var records := OpenStep<T>(map[], NoFault).0;
    assert Carries(records, [], []);
  }

  // ---- listings --------------------------------------------------------------------------------

  /** The messages stored under the given keys. */
  function MessagesUnder<T>(records: map<Bytes, Value<T>>, keys: seq<Bytes>): seq<T>
    requires forall k :: k in keys ==> k in records && records[k].Json?
  {
    if keys == [] then [] else MessagesUnder(records, keys[..|keys| - 1]) + [records[keys[|keys| - 1]].msg]
  }

  lemma {:induction false} MessagesUnderAt<T>(records: map<Bytes, Value<T>>, keys: seq<Bytes>)
    requires forall k :: k in keys ==> k in records && records[k].Json?
    ensures |MessagesUnder(records, keys)| == |keys|
    ensures forall i :: 0 <= i < |keys| ==> Holds(records, keys[i], MessagesUnder(records, keys)[i])
  {
    if keys != [] {
      assert keys[|keys| - 1] in keys;
      MessagesUnderAt(records, keys[..|keys| - 1]);
    }
  }

  lemma CarriesSize<T>(records: map<Bytes, Value<T>>, keys: seq<Bytes>, q: seq<T>)
    requires Carries(records, keys, q)
    ensures |keys| == |q| == |MessageKeySet(records)|
  {
    hide Counter, IsMessageKey;
    SizeOfDistinct(keys, MessageKeySet(records));
  }

  /** The same keys in another order carry the same messages in another order. */
  lemma {:induction false} CarriesPermuted<T>(
    records: map<Bytes, Value<T>>, keys: seq<Bytes>, q: seq<T>, keys': seq<Bytes>, q': seq<T>)
    requires Carries(records, keys, q) && Carries(records, keys', q')
    ensures |q| == |q'| && multiset(q) == multiset(q')
    decreases |keys|
  {
    hide Carries, Counter, Without, IsMessageKey;
    CarriesMeaning(records, keys, q);
    CarriesMeaning(records, keys', q');
    CarriesSize(records, keys, q);
    CarriesSize(records, keys', q');
    if keys != [] {
      assert keys[0] in keys && keys[0] in keys';
      var j :| 0 <= j < |keys'| && keys'[j] == keys[0];
      assert Holds(records, keys[0], q[0]) && Holds(records, keys'[j], q'[j]);
      CarriesWithout(records, keys, q, 0);
      CarriesWithout(records, keys', q', j);
      WithoutOne(keys, 0);
      CarriesPermuted(records - {keys[0]}, Without(keys, 0), Without(q, 0), Without(keys', j), Without(q', j));
      WithoutOne(q, 0);
      WithoutOne(q', j);
    }
  }

  lemma WithoutOne<T>(s: seq<T>, k: nat)
    requires k < |s|
    ensures |Without(s, k)| == |s| - 1 && multiset(s) == multiset(Without(s, k)) + multiset{s[k]}
  {
    assert s == s[..k] + [s[k]] + s[k + 1..];
  }

  lemma CarriesRelisted<T>(records: map<Bytes, Value<T>>, keys: seq<Bytes>, q: seq<T>, listed: seq<Bytes>)
    returns (ms: seq<T>)
    requires Carries(records, keys, q) && Ascending(listed)
    requires forall k :: k in listed <==> k in records && IsMessageKey(k)
    ensures Carries(records, listed, ms)
  {
    hide Counter, IsMessageKey, Leq, MessagesUnder;
    forall k | k in listed ensures k in keys && k in records && records[k].Json? {
      assert k in keys;
      var i :| 0 <= i < |keys| && keys[i] == k;
      assert Holds(records, keys[i], q[i]);
    }
    ms := MessagesUnder(records, listed);
    MessagesUnderAt(records, listed);
    forall i, j | 0 <= i < j < |listed| ensures listed[i] != listed[j] {
      assert Less(listed[i], listed[j]);
    }
  }

  /** Whatever its history, the store lists the messages of the bag under its keys in byte order. */
  lemma BagInKeyOrder<T>(s: Store<T>, q: Fifo<T>) returns (ms: seq<T>)
    requires Bag(s, q)
    ensures Carries(s.records, MessageKeys(s.records), ms)
    ensures |ms| == |q.messages| && multiset(ms) == multiset(q.messages)
  {
    var keys :| Carries(s.records, keys, q.messages);
    hide Counter, Carries, MessageKeys, IsMessageKey, Ascending;
    ListedKeys(s.records);
    ms := CarriesRelisted(s.records, keys, q.messages, MessageKeys(s.records));
    CarriesPermuted(s.records, MessageKeys(s.records), ms, keys, q.messages);
  }

  /** A store that mirrors the in-memory queue is a bag. */
  lemma MirrorsBag<T>(s: Store<T>, q: Fifo<T>)
    requires Mirrors(s, q)
    ensures Bag(s, q)
  {
    hide ParseInt, FormatInt, IsMessageKey;
    var c, n := Counter(s.records).value, |q.messages|;
    var keys := IndexKeys(c - n, n);
    IndexKeysDistinct(c - n, n);
    assert Carries(s.records, keys, q.messages) by {
      forall k ensures k in keys <==> k in s.records && IsMessageKey(k) {
        assert k in MessageKeySet(s.records) <==> k in KeysFrom(c - n, c);
      }
      forall i | 0 <= i < n ensures Holds(s.records, keys[i], q.messages[i]) {
        assert Holds(s.records, MessageKey(c - n + i), q.messages[i]);
      }
    }
  }

  function IndexKeys(lo: int, n: nat): seq<Bytes> {
    seq(n, i requires 0 <= i => MessageKey(lo + i))
  }

  lemma IndexKeysDistinct(lo: int, n: nat)
    ensures |IndexKeys(lo, n)| == n
    ensures forall i, j :: 0 <= i < j < n ==> IndexKeys(lo, n)[i] != IndexKeys(lo, n)[j]
    ensures forall k :: k in IndexKeys(lo, n) <==> k in KeysFrom(lo, lo + n)
  {
    hide MessageKey;
    var keys := IndexKeys(lo, n);
    forall i, j | 0 <= i < j < n ensures keys[i] != keys[j] {
      MessageKeyFacts(lo + i);
    }
    forall k | k in KeysFrom(lo, lo + n) ensures k in keys {
      var i :| lo <= i < lo + n && k == MessageKey(i);
      assert keys[i - lo] == k;
    }
  }
}
