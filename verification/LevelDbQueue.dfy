/**
 The durable retry queue. One database holds the queue index as decimal text and every message
 under "msg:" followed by its index, so the order of messages is the text order of their indices.
 */
module LevelDbQueue {
  import opened ByteOrder
  import opened Decimal
  import opened LevelDb
  import opened Queue

  /** "queue:index" */
  const INDEX_KEY: Bytes := [113, 117, 101, 117, 101, 58, 105, 110, 100, 101, 120]
  /** "msg:" */
  const MSG_PREFIX: Bytes := [109, 115, 103, 58]

  /** A stored value: plain text, or the JSON of a message, which decodes to that message. */
  datatype Value<+T> = Text(bytes: Bytes) | Json(msg: T)

  /** The database call or encoding, if any, that goes wrong during an operation. */
  datatype Fault = NoFault | IterateFails | GetFails | EncodeFails | MessagePutFails | IndexPutFails | DeleteFails
                 | CloseFails

  datatype Store<T> = Store(records: map<Bytes, Value<T>>, closed: bool)

  function MessageKey(index: int): Bytes {
    MSG_PREFIX + FormatInt(index)
  }

  predicate IsMessageKey(key: Bytes) {
    key != INDEX_KEY && |key| > 4 && key[..4] == MSG_PREFIX
  }

  function MessageKeySet<T>(records: map<Bytes, Value<T>>): set<Bytes> {
    set k | k in records && IsMessageKey(k)
  }

  function MessageKeys<T>(records: map<Bytes, Value<T>>): seq<Bytes> {
    Sorted(MessageKeySet(records))
  }

  /** The index cell, when it is present and holds a 64-bit number. */
  function Counter<T>(records: map<Bytes, Value<T>>): Option<int> {
    if INDEX_KEY in records && records[INDEX_KEY].Text? then ParseInt(records[INDEX_KEY].bytes) else None
  }

  function PushStep<T>(s: Store<T>, msg: T, fault: Fault): (Store<T>, Reply<T>) {
    if s.closed then (s, Failed(QueueClosed))
    else if fault == GetFails || Counter(s.records).None? || fault == EncodeFails || fault == MessagePutFails then
      (s, Failed(StorageFailure))
    else
      var index := Counter(s.records).value;
      var written := s.records[MessageKey(index) := Json(msg)];
      if fault == IndexPutFails then (s.(records := written), Failed(StorageFailure))
      else (s.(records := written[INDEX_KEY := Text(FormatInt(Wrap64(index + 1)))]), Done)
  }

  function FirstStep<T>(s: Store<T>, fault: Fault): Reply<T> {
    if s.closed then Failed(QueueClosed)
    else if fault == IterateFails then Failed(StorageFailure)
    else
      var keys := MessageKeys(s.records);
      if keys == [] then Failed(QueueEmpty)
      else if fault == GetFails || s.records[keys[0]].Text? then Failed(StorageFailure)
      else Item(s.records[keys[0]].msg)
  }

  function PopStep<T>(s: Store<T>, fault: Fault): (Store<T>, Reply<T>) {
    var head := FirstStep(s, fault);
    if !head.Item? then (s, head)
    else if fault == DeleteFails then (s, Failed(StorageFailure))
    else (s.(records := s.records - {MessageKeys(s.records)[0]}), head)
  }

  function SizeStep<T>(s: Store<T>, fault: Fault): Reply<T> {
    if s.closed then Failed(QueueClosed)
    else if fault == IterateFails then Failed(StorageFailure)
    else Count(|MessageKeys(s.records)|)
  }

  function Step<T>(s: Store<T>, op: Op<T>, fault: Fault): (Store<T>, Reply<T>) {
    match op
    case Push(msg) => PushStep(s, msg, fault)
    case Pop => PopStep(s, fault)
    case Peek => (s, FirstStep(s, fault))
    case Size => (s, SizeStep(s, fault))
    case Close => (s.(closed := true), if !s.closed && fault == CloseFails then Failed(StorageFailure) else Done)
  }

  /**
   Opening the database: an index cell found missing is created as "0"; false when that write
   fails. A look-up that fails in another way leaves the cell as it is.
   */
  function OpenStep<T>(records: map<Bytes, Value<T>>, fault: Fault): (map<Bytes, Value<T>>, bool) {
    if INDEX_KEY in records || fault == GetFails then (records, true)
    else if fault == IndexPutFails then (records, false)
    else (records[INDEX_KEY := Text([ZERO])], true)
  }

  class LevelDBQueue<T> {
    const db: Database<Value<T>>
    var closed: bool

    function View(): Store<T>
      reads this, db
    {
      Store(db.records, closed)
    }

    constructor (db: Database<Value<T>>)
      ensures this.db == db && !closed
    {
      this.db := db;
      closed := false;
    }

    static method Create(db: Database<Value<T>>, fault: Fault) returns (q: LevelDBQueue?<T>)
      modifies db
      ensures (db.records, q != null) == OpenStep(old(db.records), fault)
      ensures q != null ==> fresh(q) && q.db == db && q.View() == Store(db.records, false)
    {
      var index := db.Get(INDEX_KEY);
      if fault != GetFails && index.None? {
        db.Put(INDEX_KEY, Text([ZERO]), fault != IndexPutFails);
        if fault == IndexPutFails {
          return null;
        }
      }
      q := new LevelDBQueue(db);
    }

    method GetMessageKeys() returns (keys: seq<Bytes>)
      ensures keys == MessageKeys(db.records)
    {
      hide Sorted, SortStrings, Leq;
      keys := [];
      var iter := db.Iterate();
      var i := 0;
      while i < |iter|
        invariant i <= |iter|
        invariant keys == OnlyMessageKeys(iter[..i])
      {
        var key := iter[i];
        assert iter[..i + 1] == iter[..i] + [key];
        if key != INDEX_KEY && |key| > 4 && key[..4] == MSG_PREFIX {
          keys := keys + [key];
        }
        i := i + 1;
      }
      assert iter[..|iter|] == iter;
      keys := SortStrings(keys);
      ListedKeys(db.records);
    }

    method Push(msg: T, fault: Fault) returns (r: Reply<T>)
      modifies db
      ensures View() == PushStep(old(View()), msg, fault).0
      ensures r == PushStep(old(View()), msg, fault).1
    {
      hide ParseInt, FormatInt, Wrap64;
      if closed {
        return Failed(QueueClosed);
      }
      var cell := db.Get(INDEX_KEY);
      if fault == GetFails || cell.None? {
        return Failed(StorageFailure);
      }
      var parsed := if cell.value.Text? then ParseInt(cell.value.bytes) else None;
      if parsed.None? || fault == EncodeFails {
        return Failed(StorageFailure);
      }
      var index := parsed.value;
      db.Put(MessageKey(index), Json(msg), fault != MessagePutFails);
      if fault == MessagePutFails {
        return Failed(StorageFailure);
      }
      db.Put(INDEX_KEY, Text(FormatInt(Wrap64(index + 1))), fault != IndexPutFails);
      if fault == IndexPutFails {
        return Failed(StorageFailure);
      }
      return Done;
    }

    method Pop(fault: Fault) returns (r: Reply<T>)
      modifies db
      ensures View() == PopStep(old(View()), fault).0
      ensures r == PopStep(old(View()), fault).1
    {
      hide Sorted;
      if closed {
        return Failed(QueueClosed);
      }
      if fault == IterateFails {
        return Failed(StorageFailure);
      }
      var keys := GetMessageKeys();
      if |keys| == 0 {
        return Failed(QueueEmpty);
      }
      assert keys[0] in keys;
      var value := db.Get(keys[0]);
      if fault == GetFails || value.value.Text? {
        return Failed(StorageFailure);
      }
      db.Delete(keys[0], fault != DeleteFails);
      if fault == DeleteFails {
        return Failed(StorageFailure);
      }
      return Item(value.value.msg);
    }

    method Peek(fault: Fault) returns (r: Reply<T>)
      ensures r == FirstStep(View(), fault)
    {
      if closed {
        return Failed(QueueClosed);
      }
      if fault == IterateFails {
        return Failed(StorageFailure);
      }
      var keys := GetMessageKeys();
      if |keys| == 0 {
        return Failed(QueueEmpty);
      }
      assert keys[0] in keys;
      var value := db.Get(keys[0]);
      if fault == GetFails || value.value.Text? {
        return Failed(StorageFailure);
      }
      return Item(value.value.msg);
    }

    method Size(fault: Fault) returns (r: Reply<T>)
      ensures r == SizeStep(View(), fault)
    {
      if closed {
        return Failed(QueueClosed);
      }
      if fault == IterateFails {
        return Failed(StorageFailure);
      }
      var keys := GetMessageKeys();
      return Count(|keys|);
    }

    method Close(fault: Fault) returns (r: Reply<T>)
      modifies this
      ensures (View(), r) == Step(old(View()), Op.Close, fault)
    {
      if closed {
        return Done;
      }
      closed := true;
      return if fault == CloseFails then Failed(StorageFailure) else Done;
    }
  }

  // ---- errors ---------------------------------------------------------------------------

  /** A push reports every error, and only the one of its second write leaves something behind. */
  lemma PushErrors<T>(s: Store<T>, msg: T, fault: Fault)
    requires !s.closed
    ensures var (s', r) := PushStep(s, msg, fault);
            && (Counter(s.records).None? || fault in {GetFails, EncodeFails, MessagePutFails} ==>
                  r == Failed(StorageFailure) && s' == s)
            && (Counter(s.records).Some? && fault == IndexPutFails ==>
                  && r == Failed(StorageFailure)
                  && s' == s.(records := s.records[MessageKey(Counter(s.records).value) := Json(msg)]))
            && (Counter(s.records).Some? && fault in {NoFault, IterateFails, DeleteFails, CloseFails} ==> r == Done)
  {
    hide ParseInt, FormatInt, Wrap64;
  }

  /** Pop, Peek and Size report every error and then change nothing; a value that does not decode is one. */
  lemma ReadErrors<T>(s: Store<T>, fault: Fault)
    requires !s.closed
    ensures var keys := MessageKeys(s.records);
            var (s', r) := PopStep(s, fault);
            && (fault == IterateFails ==>
                  s' == s && r == FirstStep(s, fault) == SizeStep(s, fault) == Failed(StorageFailure))
            && (fault != IterateFails ==> SizeStep(s, fault) == Count(|keys|))
            && (fault != IterateFails && keys == [] ==> s' == s && r == FirstStep(s, fault) == Failed(QueueEmpty))
            && (fault != IterateFails && keys != [] && (fault == GetFails || s.records[keys[0]].Text?) ==>
                  s' == s && r == FirstStep(s, fault) == Failed(StorageFailure))
            && (fault !in {IterateFails, GetFails} && keys != [] && s.records[keys[0]].Json? ==>
                  && FirstStep(s, fault) == Item(s.records[keys[0]].msg)
                  && if fault == DeleteFails then s' == s && r == Failed(StorageFailure)
                     else s'.records == s.records - {keys[0]} && r == FirstStep(s, fault))
  {
    hide Sorted;
  }

  /** Closing reports an error once; opening fails only when a missing index cell cannot be written. */
  lemma CloseAndOpenErrors<T>(s: Store<T>, fault: Fault)
    ensures Step(s, Op<T>.Close, fault).0 == s.(closed := true)
    ensures Step(s, Op<T>.Close, fault).1 == if !s.closed && fault == CloseFails then Failed(StorageFailure) else Done
    ensures OpenStep(s.records, fault).1 <==> !(INDEX_KEY !in s.records && fault == IndexPutFails)
    ensures OpenStep(s.records, fault).0
         == if INDEX_KEY !in s.records && fault !in {GetFails, IndexPutFails} then
              s.records[INDEX_KEY := Text([48])]
            else s.records
  {
  }

  // ---- the iterator filter -----------------------------------------------------------

  function OnlyMessageKeys(iter: seq<Bytes>): seq<Bytes> {
    if iter == [] then []
    else
      var key := iter[|iter| - 1];
      OnlyMessageKeys(iter[..|iter| - 1]) + if IsMessageKey(key) then [key] else []
  }

  lemma {:induction false} OnlyMessageKeysAscending(iter: seq<Bytes>)
    requires Ascending(iter)
    ensures Ascending(OnlyMessageKeys(iter))
    ensures forall k :: k in OnlyMessageKeys(iter) <==> k in iter && IsMessageKey(k)
  {
    hide Leq, IsMessageKey;
    if iter != [] {
      var front, key := iter[..|iter| - 1], iter[|iter| - 1];
      OnlyMessageKeysAscending(front);
      assert iter == front + [key];
      var kept := OnlyMessageKeys(front);
      forall j | 0 <= j < |kept| ensures Less(kept[j], key) {
        assert kept[j] in kept;
        var i :| 0 <= i < |front| && front[i] == kept[j];
        assert iter[i] == kept[j];
      }
    }
  }

  /** Filtering and sorting what the iterator yields lists exactly the message keys, in order. */
  lemma ListedKeys<T>(records: map<Bytes, Value<T>>)
    ensures SortStrings(OnlyMessageKeys(Sorted(records.Keys))) == MessageKeys(records)
    ensures Ascending(MessageKeys(records))
    ensures forall k :: k in MessageKeys(records) <==> k in records && IsMessageKey(k)
  {
    SortedIsAscending(records.Keys);
    SortedIsAscending(MessageKeySet(records));
    OnlyMessageKeysAscending(Sorted(records.Keys));
    SortStringsOfAscending(OnlyMessageKeys(Sorted(records.Keys)));
    AscendingUnique(OnlyMessageKeys(Sorted(records.Keys)), MessageKeys(records));
  }

  // ---- keys ------------------------------------------------------------------------

  /** Message keys are recognised as such, never clash with the index cell, and name one index each. */
  lemma MessageKeyFacts(i: int)
    ensures IsMessageKey(MessageKey(i)) && MessageKey(i) != INDEX_KEY
    ensures forall j :: MessageKey(j) == MessageKey(i) ==> j == i
  {
    assert MessageKey(i)[0] == 109 && INDEX_KEY[0] == 113;
    assert MessageKey(i)[..4] == MSG_PREFIX;
    forall j | MessageKey(j) == MessageKey(i) ensures j == i {
      assert MessageKey(i)[4..] == FormatInt(i) && MessageKey(j)[4..] == FormatInt(j);
      FormatInjective(i, j);
    }
  }

  function KeysFrom(lo: int, hi: int): set<Bytes> {
    set i | lo <= i < hi :: MessageKey(i)
  }

  lemma {:induction false} KeysFromSize(lo: int, hi: int)
    requires lo <= hi
    ensures |KeysFrom(lo, hi)| == hi - lo
    decreases hi - lo
  {
    if lo < hi {
      KeysFromSize(lo, hi - 1);
      KeysFromSnoc(lo, hi);
      MessageKeyFacts(hi - 1);
    }
  }

  lemma KeysFromSnoc(lo: int, hi: int)
    requires lo < hi
    ensures KeysFrom(lo, hi) == KeysFrom(lo, hi - 1) + {MessageKey(hi - 1)}
  {
    forall k | k in KeysFrom(lo, hi) ensures k in KeysFrom(lo, hi - 1) + {MessageKey(hi - 1)} {
      var i :| lo <= i < hi && k == MessageKey(i);
      if i < hi - 1 { assert lo <= i < hi - 1 && k == MessageKey(i); }
    }
  }

  /** The text order of two non-negative indices in the key space. */
  lemma MessageKeyOrder(a: nat, b: nat)
    requires a <= b
    ensures Digits(a) <= Digits(b)
    ensures Leq(MessageKey(a), MessageKey(b)) <==> a <= Leading(b, Digits(b) - Digits(a))
  {
    DigitsMonotone(a, b);
    LeqCommonPrefix(MSG_PREFIX, FormatNat(a), FormatNat(b));
    DecimalOrder(a, b);
  }
}
