/**
 When the durable queue behaves like the in-memory one. Its order is the text order of decimal
 indices, so "msg:10" comes before "msg:9": first-in first-out holds exactly as long as the
 oldest live index is not overtaken by a longer one.
 */
module FifoRefinement {
  import opened ByteOrder
  import opened Decimal
  import opened Queue
  import opened LevelDbQueue

  /**
   The live indices are lo..counter: either the newest is no longer than the oldest, or the
   oldest is no larger than the leading digits any longer index can have.
   */
  predicate InOrder(lo: nat, counter: nat) {
    counter <= Pow10(Digits(lo)) || lo <= Pow10(Digits(lo) - 1)
  }

  /** The store holds the messages of q, in order, at the last |q| indices below the counter. */
  ghost predicate Mirrors<T>(s: Store<T>, q: Fifo<T>) {
    && s.closed == q.closed
    && Counter(s.records).Some?
    && var c := Counter(s.records).value;
    && |q.messages| <= c
    && MessageKeySet(s.records) == KeysFrom(c - |q.messages|, c)
    && forall k | 0 <= k < |q.messages| :: Holds(s.records, MessageKey(c - |q.messages| + k), q.messages[k])
  }

  ghost predicate Holds<T>(records: map<Bytes, Value<T>>, key: Bytes, msg: T) {
    key in records && records[key] == Json(msg)
  }

  lemma NoneBeforeOldest(lo: nat, c: nat, i: nat)
    requires InOrder(lo, c) && lo <= i < c
    ensures Leq(MessageKey(lo), MessageKey(i))
  {
    hide Leq, MessageKey, Leading;
    MessageKeyOrder(lo, i);
    DigitsRange(i);
    var d := Digits(lo);
    var e := Digits(i) - d;
    LeadingAtLeast(i, e, lo);
    if e > 0 {
      Pow10Monotone(d, Digits(i) - 1);
      Pow10Sum(d - 1, e);
      MulMonotone(lo, Pow10(d - 1), Pow10(e));
    }
  }

  /** In a contiguous range of indices the oldest key sorts first exactly when InOrder holds. */
  lemma OldestFirst(lo: nat, c: nat)
    requires lo < c
    ensures InOrder(lo, c) <==> forall i :: lo <= i < c ==> Leq(MessageKey(lo), MessageKey(i))
  {
    hide Leq, MessageKey;
    DigitsRange(lo);
    if InOrder(lo, c) {
      forall i | lo <= i < c ensures Leq(MessageKey(lo), MessageKey(i)) {
        NoneBeforeOldest(lo, c, i);
      }
    } else {
      var i := Pow10(Digits(lo));
      DigitsOfPow10(Digits(lo));
      assert Leading(i, 1) == i / 10 == Pow10(Digits(lo) - 1);
      MessageKeyOrder(lo, i);
      assert !Leq(MessageKey(lo), MessageKey(i));
    }
  }

  lemma MulMonotone(a: nat, b: nat, p: nat)
    requires a <= b
    ensures a * p <= b * p
  {
    assert b * p == a * p + (b - a) * p;
  }

  lemma {:induction false} Pow10Monotone(a: nat, b: nat)
    requires a <= b
    ensures Pow10(a) <= Pow10(b)
    decreases b
  {
    if a < b { Pow10Monotone(a, b - 1); }
  }

  lemma {:induction false} Pow10Sum(a: nat, b: nat)
    ensures Pow10(a + b) == Pow10(a) * Pow10(b)
  {
    if a > 0 {
      Pow10Sum(a - 1, b);
      var p, q := Pow10(a - 1), Pow10(b);
      assert 10 * (p * q) == (10 * p) * q;
    }
  }

  /** Indices of one width are in order, whatever the width. */
  lemma SameWidthInOrder(lo: nat, c: nat)
    requires lo < c && Digits(lo) == Digits(c - 1)
    ensures InOrder(lo, c)
  {
    DigitsRange(c - 1);
  }

  /** The message a Pop or Peek selects. */
  lemma FirstMessage<T>(s: Store<T>, q: Fifo<T>)
    requires Mirrors(s, q) && !s.closed && q.messages != []
    ensures var c := Counter(s.records).value; var lo := c - |q.messages|;
            exists k :: 0 <= k < |q.messages|
                     && MessageKeys(s.records) != [] && MessageKeys(s.records)[0] == MessageKey(lo + k)
                     && FirstStep(s, NoFault) == Item(q.messages[k])
                     && (k == 0 <==> InOrder(lo, c))
  {
    hide ParseInt, FormatInt, Sorted, Leq, InOrder, IsMessageKey;
    var c := Counter(s.records).value;
    var lo := c - |q.messages|;
    var keys := MessageKeys(s.records);
    ListedKeys(s.records);
    SortedIsAscending(MessageKeySet(s.records));
    KeysFromSize(lo, c);
    assert keys[0] in KeysFrom(lo, c);
    var i :| lo <= i < c && keys[0] == MessageKey(i);
    assert Holds(s.records, MessageKey(lo + (i - lo)), q.messages[i - lo]);
    OldestFirst(lo, c);
    if i == lo {
      forall j | lo <= j < c ensures Leq(MessageKey(lo), MessageKey(j)) {
        FirstIsLeast(keys, MessageKey(j));
      }
    } else if InOrder(lo, c) {
      FirstIsLeast(keys, MessageKey(lo));
      LeqAntisymmetric(MessageKey(lo), keys[0]);
      MessageKeyFacts(lo);
    }
  }

  lemma FirstIsLeast(keys: seq<Bytes>, k: Bytes)
    requires Ascending(keys) && k in keys
    ensures Leq(keys[0], k)
  {
    var j :| 0 <= j < |keys| && keys[j] == k;
    LeqReflexive(k);
    assert j > 0 ==> Less(keys[0], keys[j]);
  }

  lemma PushMirrors<T>(s: Store<T>, q: Fifo<T>, msg: T)
    requires Mirrors(s, q) && Counter(s.records).value < MAX_INT64
    ensures var (s', r) := PushStep(s, msg, NoFault); var (q', r') := FifoStep(q, Op.Push(msg));
            && r == r' && Mirrors(s', q')
            && Counter(s'.records).value == Counter(s.records).value + if s.closed then 0 else 1
  {
    hide ParseInt, FormatInt;
    if !s.closed {
      var c := Counter(s.records).value;
      var lo := c - |q.messages|;
      var (s', _) := PushStep(s, msg, NoFault);
      MessageKeyFacts(c);
      ParseFormat(c + 1);
      assert Counter(s'.records) == Some(c + 1);
      KeysFromSnoc(lo, c + 1);
      assert MessageKeySet(s'.records) == MessageKeySet(s.records) + {MessageKey(c)};
      var longer := q.messages + [msg];
      forall k | 0 <= k < |longer|
        ensures Holds(s'.records, MessageKey(lo + k), longer[k])
      {
        MessageKeyFacts(lo + k);
        if k < |q.messages| { assert q.messages[k] == longer[k]; }
      }
      var q' := FifoStep(q, Op.Push(msg)).0;
      assert q'.messages == longer;
      assert MessageKeySet(s'.records) == KeysFrom(c + 1 - |q'.messages|, c + 1);
      assert c + 1 - |q'.messages| == lo;
    }
  }

  lemma PopMirrors<T>(s: Store<T>, q: Fifo<T>)
    requires Mirrors(s, q)
    requires s.closed || q.messages == []
          || InOrder(Counter(s.records).value - |q.messages|, Counter(s.records).value)
    ensures var (s', r) := PopStep(s, NoFault); var (q', r') := FifoStep(q, Op.Pop);
            r == r' && Mirrors(s', q') && Counter(s'.records) == Counter(s.records)
    ensures FirstStep(s, NoFault) == FifoStep(q, Op.Peek).1
  {
    hide ParseInt, FormatInt, Sorted, InOrder;
    if !s.closed {
      var c := Counter(s.records).value;
      var lo := c - |q.messages|;
      if q.messages == [] {
        assert MessageKeySet(s.records) == {};
        ListedKeys(s.records);
      } else {
        FirstMessage(s, q);
        MessageKeyFacts(lo);
        var s' := PopStep(s, NoFault).0;
        assert s'.records == s.records - {MessageKey(lo)};
        KeysFromHead(lo, c);
        assert MessageKeySet(s'.records) == MessageKeySet(s.records) - {MessageKey(lo)};
        assert Counter(s'.records) == Counter(s.records);
        var rest := q.messages[1..];
        forall k | 0 <= k < |rest|
          ensures Holds(s'.records, MessageKey(lo + 1 + k), rest[k])
        {
          MessageKeyFacts(lo);
          assert rest[k] == q.messages[k + 1];
        }
        var q' := FifoStep(q, Op.Pop).0;
        assert q'.messages == rest;
        assert c - |q'.messages| == lo + 1;
        assert MessageKeySet(s'.records) == KeysFrom(lo + 1, c);
      }
    }
  }

  lemma KeysFromHead(lo: int, c: int)
    requires lo < c
    ensures KeysFrom(lo + 1, c) == KeysFrom(lo, c) - {MessageKey(lo)}
  {
    MessageKeyFacts(lo);
    forall k | k in KeysFrom(lo, c) - {MessageKey(lo)} ensures k in KeysFrom(lo + 1, c) {
      var i :| lo <= i < c && k == MessageKey(i);
    }
  }

  lemma SizeOfMirror<T>(s: Store<T>, q: Fifo<T>)
    requires Mirrors(s, q)
    ensures |MessageKeys(s.records)| == |q.messages| <= Counter(s.records).value
  {
    hide Counter, KeysFrom, MessageKeySet, Holds;
    KeysFromSize(Counter(s.records).value - |q.messages|, Counter(s.records).value);
  }

  lemma SizeMirrors<T>(s: Store<T>, q: Fifo<T>)
    requires Mirrors(s, q)
    ensures SizeStep(s, NoFault) == FifoStep(q, Op.Size).1
  {
    hide Sorted;
    KeysFromSize(Counter(s.records).value - |q.messages|, Counter(s.records).value);
  }

  // ---- whole runs --------------------------------------------------------------------

  function Replies<T>(s: Store<T>, ops: seq<Op<T>>): seq<Reply<T>>
    decreases |ops|
  {
    if ops == [] then []
    else
      var (s', r) := Step(s, ops[0], NoFault);
      [r] + Replies(s', ops[1..])
  }

  function FifoReplies<T>(q: Fifo<T>, ops: seq<Op<T>>): seq<Reply<T>>
    decreases |ops|
  {
    if ops == [] then []
    else
      var (q', r) := FifoStep(q, ops[0]);
      [r] + FifoReplies(q', ops[1..])
  }

  /**
   Whether every Pop and Peek of a run meets an ordered range, told from the queue's size, its
   counter and the kinds of the operations alone.
   */
  predicate OrderedRun<T>(size: nat, counter: nat, closed: bool, ops: seq<Op<T>>)
    requires size <= counter
    decreases |ops|
  {
    if ops == [] then true
    else
      var rest := ops[1..];
      match ops[0]
      case Push(_) =>
        if closed then OrderedRun(size, counter, closed, rest)
        else OrderedRun(size + 1, counter + 1, closed, rest)
      case Pop =>
        if closed || size == 0 then OrderedRun(size, counter, closed, rest)
        else InOrder(counter - size, counter) && OrderedRun(size - 1, counter, closed, rest)
      case Peek =>
        (closed || size == 0 || InOrder(counter - size, counter)) && OrderedRun(size, counter, closed, rest)
      case Size => OrderedRun(size, counter, closed, rest)
      case Close => OrderedRun(size, counter, true, rest)
  }

  function Pushed<T>(ops: seq<Op<T>>): seq<T> {
    if ops == [] then []
    else (if ops[0].Push? then [ops[0].msg] else []) + Pushed(ops[1..])
  }

  ghost predicate Distinct<T>(s: seq<T>) {
    forall i, j :: 0 <= i < j < |s| ==> s[i] != s[j]
  }

  lemma StepMirrors<T>(s: Store<T>, q: Fifo<T>, op: Op<T>)
    requires Mirrors(s, q) && Counter(s.records).value < MAX_INT64
    requires (op.Pop? || op.Peek?) && !s.closed && q.messages != [] ==>
               InOrder(Counter(s.records).value - |q.messages|, Counter(s.records).value)
    ensures var (s', r) := Step(s, op, NoFault); var (q', r') := FifoStep(q, op);
            && r == r' && Mirrors(s', q')
            && Counter(s'.records).value == Counter(s.records).value + if op.Push? && !s.closed then 1 else 0
  {
    hide ParseInt, FormatInt, Sorted, InOrder, IsMessageKey, MessageKey;
    match op
    case Push(msg) => PushMirrors(s, q, msg);
    case Pop => PopMirrors(s, q);
    case Peek => PopMirrors(s, q);
    case Size => SizeMirrors(s, q);
    case Close =>
      var s', q' := Step(s, Op.Close, NoFault).0, FifoStep(q, Op.Close).0;
      assert s'.records == s.records;
      assert q'.messages == q.messages;
      assert Mirrors(s', q');
  }

  /** Over an ordered run the durable queue answers exactly as the in-memory queue does. */
  lemma {:induction false} OrderedRunRefines<T>(s: Store<T>, q: Fifo<T>, ops: seq<Op<T>>)
    requires Mirrors(s, q) && Counter(s.records).value + |ops| <= MAX_INT64
    requires OrderedRun(|q.messages|, Counter(s.records).value, s.closed, ops)
    ensures Replies(s, ops) == FifoReplies(q, ops)
    decreases |ops|
  {
    hide Mirrors, Step, InOrder, Counter;
    if ops != [] {
      MirrorsMeaning(s, q);
      StepMirrors(s, q, ops[0]);
      MirrorsMeaning(Step(s, ops[0], NoFault).0, FifoStep(q, ops[0]).0);
      OrderedRunRefines(Step(s, ops[0], NoFault).0, FifoStep(q, ops[0]).0, ops[1..]);
    }
  }

  lemma MirrorsMeaning<T>(s: Store<T>, q: Fifo<T>)
    requires Mirrors(s, q)
    ensures s.closed == q.closed && Counter(s.records).Some? && |q.messages| <= Counter(s.records).value
  {
  }

  /** A Pop or Peek that meets a disordered range hands out a younger message. */
  lemma DisorderedStep<T>(s: Store<T>, q: Fifo<T>)
    requires Mirrors(s, q) && !s.closed && q.messages != [] && Distinct(q.messages)
    requires !InOrder(Counter(s.records).value - |q.messages|, Counter(s.records).value)
    ensures FirstStep(s, NoFault).Item? && FirstStep(s, NoFault).msg != q.messages[0]
  {
    hide Mirrors, InOrder, Counter, FirstStep;
    FirstMessage(s, q);
  }

  lemma DistinctWithout<T>(a: seq<T>, b: seq<T>, c: seq<T>)
    requires Distinct(a + b + c)
    ensures Distinct(a + c) && Distinct(a)
  {
    var all, some := a + b + c, a + c;
    forall i, j | 0 <= i < j < |some| ensures some[i] != some[j] {
      var i', j' := if i < |a| then i else i + |b|, if j < |a| then j else j + |b|;
      assert some[i] == all[i'] && some[j] == all[j'];
    }
    forall i, j | 0 <= i < j < |a| ensures a[i] != a[j] {
      assert a[i] == all[i] && a[j] == all[j];
    }
  }

  lemma DistinctAfterStep<T>(q: Fifo<T>, op: Op<T>, rest: seq<Op<T>>)
    requires Distinct(q.messages + Pushed([op] + rest))
    ensures Distinct(q.messages) && Distinct(FifoStep(q, op).0.messages + Pushed(rest))
  {
    hide Distinct;
    assert ([op] + rest)[1..] == rest;
    var ms, tail := q.messages, Pushed(rest);
    var added := if op.Push? then [op.msg] else [];
    assert ms + Pushed([op] + rest) == ms + added + tail;
    DistinctWithout(ms, added, tail);
    assert !op.Push? ==> ms + added + tail == ms + tail;
    if op.Pop? && !q.closed && ms != [] {
      assert [] + ms[..1] + (ms[1..] + tail) == ms + tail;
      DistinctWithout([], ms[..1], ms[1..] + tail);
      assert [] + (ms[1..] + tail) == ms[1..] + tail;
    }
  }

  lemma {:induction false} DisorderedRunDiverges<T>(s: Store<T>, q: Fifo<T>, ops: seq<Op<T>>)
    requires Mirrors(s, q) && Counter(s.records).value + |ops| <= MAX_INT64
    requires Distinct(q.messages + Pushed(ops))
    requires !OrderedRun(|q.messages|, Counter(s.records).value, s.closed, ops)
    ensures Replies(s, ops) != FifoReplies(q, ops)
    decreases |ops|
  {
    hide Mirrors, InOrder, Counter, Distinct, Pushed, FirstStep, PushStep, SizeStep;
    MirrorsMeaning(s, q);
    var op, rest := ops[0], ops[1..];
    assert ops == [op] + rest;
    DistinctAfterStep(q, op, rest);
    var s', q' := Step(s, op, NoFault).0, FifoStep(q, op).0;
    var c := Counter(s.records).value;
    if (op.Pop? || op.Peek?) && !s.closed && q.messages != [] && !InOrder(c - |q.messages|, c) {
      DisorderedStep(s, q);
      assert Replies(s, ops)[0] != FifoReplies(q, ops)[0];
    } else {
      StepMirrors(s, q, op);
      MirrorsMeaning(s', q');
      DisorderedRunDiverges(s', q', rest);
      assert Replies(s, ops)[1..] == Replies(s', rest) && FifoReplies(q, ops)[1..] == FifoReplies(q', rest);
    }
  }

  /** With distinct messages the durable queue agrees with the in-memory one exactly on ordered runs. */
  lemma RefinesExactlyWhenOrdered<T>(s: Store<T>, q: Fifo<T>, ops: seq<Op<T>>)
    requires Mirrors(s, q) && Counter(s.records).value + |ops| <= MAX_INT64
    requires Distinct(q.messages + Pushed(ops))
    ensures Replies(s, ops) == FifoReplies(q, ops)
       <==> OrderedRun(|q.messages|, Counter(s.records).value, s.closed, ops)
  {
    var ordered := OrderedRun(|q.messages|, Counter(s.records).value, s.closed, ops);
    hide Mirrors, Counter, Replies, FifoReplies, OrderedRun, Distinct;
    if ordered {
      OrderedRunRefines(s, q, ops);
    } else {
      DisorderedRunDiverges(s, q, ops);
    }
  }

  /** A new directory mirrors the empty in-memory queue. */
  lemma CreatedMirrorsEmpty<T>()
    ensures Mirrors(Store(OpenStep<T>(map[], NoFault).0, false), Fifo([], false))
  {
    ParseFormat(0);
    assert FormatInt(0) == [ZERO];
    assert MessageKeySet(OpenStep<T>(map[], NoFault).0) == {};
  }

  /**
   At counter 10 with two messages waiting, a message popped and requeued takes index 10 and is
   handed out again before the message that was waiting at index 9.
   */
  lemma RequeuedMessageOvertakes<T>(s: Store<T>, waiting: T, first: T, again: T)
    requires Mirrors(s, Fifo([first, waiting], false)) && Counter(s.records) == Some(10)
    ensures Replies(s, [Op.Pop, Op.Push(again), Op.Pop]) == [Item(first), Done, Item(again)]
  {
    hide Mirrors, Counter, Replies;
    var q0, q1, q2 := Fifo([first, waiting], false), Fifo([waiting], false), Fifo([waiting, again], false);
    assert Pow10(1) == 10 * Pow10(0) == 10;
    assert Digits(8) == Digits(9) == 1;
    MirrorsMeaning(s, q0);
    PopMirrors(s, q0);
    assert FifoStep(q0, Op.Pop).0 == q1;
    var s1 := PopStep(s, NoFault).0;
    MirrorsMeaning(s1, q1);
    PushMirrors(s1, q1, again);
    assert FifoStep(q1, Op.Push(again)).0 == q2;
    var s2 := PushStep(s1, again, NoFault).0;
    MirrorsMeaning(s2, q2);
    assert !InOrder(9, 11);
    FirstMessage(s2, q2);
    assert PopStep(s2, NoFault).1 == Item(again);
    hide PopStep, PushStep;
    RepliesOfThree(s, Op.Pop, Op.Push(again), Op.Pop);
  }

  lemma RepliesOfThree<T>(s: Store<T>, a: Op<T>, b: Op<T>, c: Op<T>)
    ensures var (s1, r1) := Step(s, a, NoFault);
            var (s2, r2) := Step(s1, b, NoFault);
            Replies(s, [a, b, c]) == [r1, r2, Step(s2, c, NoFault).1]
  {
    hide Step;
    var s1 := Step(s, a, NoFault).0;
    var s2 := Step(s1, b, NoFault).0;
    assert [a, b, c][1..] == [b, c] && [b, c][1..] == [c];
    assert Replies(s2, [c]) == [Step(s2, c, NoFault).1];
    assert Replies(s1, [b, c]) == [Step(s1, b, NoFault).1] + Replies(s2, [c]);
  }

  // ---- from a new directory ---------------------------------------------------------------------------

  function After<T>(s: Store<T>, ops: seq<Op<T>>): Store<T> {
    if ops == [] then s else Step(After(s, ops[..|ops| - 1]), ops[|ops| - 1], NoFault).0
  }

  function NewStore<T>(): Store<T> {
    Store(OpenStep(map[], NoFault).0, false)
  }

  /** A message pushed and popped, k times. */
  function Churn<T>(k: nat, m: T): seq<Op<T>> {
    if k == 0 then [] else Churn(k - 1, m) + [Op.Push(m)] + [Op.Pop]
  }

  function Pushes<T>(ms: seq<T>): seq<Op<T>> {
    if ms == [] then [] else Pushes(ms[..|ms| - 1]) + [Op.Push(ms[|ms| - 1])]
  }

  lemma AfterAdd<T>(s: Store<T>, ops: seq<Op<T>>, op: Op<T>)
    ensures After(s, ops + [op]) == Step(After(s, ops), op, NoFault).0
  {
    hide Step;
    assert (ops + [op])[..|ops|] == ops;
  }

  lemma OneInOrder(lo: nat)
    ensures InOrder(lo, lo + 1)
  {
    DigitsRange(lo);
  }

  lemma PushLengthens<T>(s: Store<T>, ms: seq<T>, m: T)
    requires Mirrors(s, Fifo(ms, false)) && Counter(s.records).value < MAX_INT64
    ensures var s' := Step(s, Op.Push(m), NoFault).0;
            Mirrors(s', Fifo(ms + [m], false)) && Counter(s'.records) == Some(Counter(s.records).value + 1)
  {
    hide Mirrors, Counter, PushStep;
    PushMirrors(s, Fifo(ms, false), m);
    MirrorsMeaning(s, Fifo(ms, false));
    MirrorsMeaning(Step(s, Op.Push(m), NoFault).0, Fifo(ms + [m], false));
  }

  lemma {:induction false} ChurnMirrors<T>(k: nat, m: T)
    requires k <= MAX_INT64
    ensures var s := After(NewStore(), Churn(k, m));
            Mirrors(s, Fifo([], false)) && Counter(s.records) == Some(k)
  {
    hide Mirrors, Counter, Step, InOrder;
    if k == 0 {
      CreatedMirrorsEmpty<T>();
      CreatedCounter<T>();
    } else {
      ChurnMirrors(k - 1, m);
      var ops := Churn(k - 1, m);
      assert Churn(k, m) == ops + [Op.Push(m)] + [Op.Pop];
      hide Churn, After;
      var s0 := After(NewStore(), ops);
      AfterAdd(NewStore(), ops, Op.Push(m));
      AfterAdd(NewStore(), ops + [Op.Push(m)], Op.Pop);
      PushLengthens(s0, [], m);
      assert [] + [m] == [m];
      OneInOrder(k - 1);
      StepMirrorsPop(Step(s0, Op.Push(m), NoFault).0, m);
    }
  }

  lemma CreatedCounter<T>()
    ensures Counter(NewStore<T>().records) == Some(0)
  {
    ParseFormat(0);
    assert FormatInt(0) == [ZERO];
  }

  lemma StepMirrorsPop<T>(s: Store<T>, m: T)
    requires Mirrors(s, Fifo([m], false)) && |[m]| <= Counter(s.records).value
    requires InOrder(Counter(s.records).value - 1, Counter(s.records).value)
    ensures var s' := Step(s, Op<T>.Pop, NoFault).0;
            Mirrors(s', Fifo([], false)) && Counter(s'.records) == Counter(s.records)
  {
    hide Mirrors, Counter, InOrder, FirstStep, PopStep;
    PopMirrors(s, Fifo([m], false));
    assert FifoStep(Fifo([m], false), Op<T>.Pop).0 == Fifo([], false);
  }

  lemma OnePushMore<T>(ops: seq<Op<T>>, front: seq<T>, last: T)
    ensures ops + Pushes(front + [last]) == (ops + Pushes(front)) + [Op.Push(last)]
  {
    assert (front + [last])[..|front|] == front;
  }

  /** Every list of waiting messages occurs at every index, in a directory used without any fault. */
  lemma {:induction false} ReachableQueue<T>(lo: nat, m: T, ms: seq<T>)
    requires lo + |ms| <= MAX_INT64
    ensures var s := After(NewStore(), Churn(lo, m) + Pushes(ms));
            Mirrors(s, Fifo(ms, false)) && Counter(s.records) == Some(lo + |ms|)
  {
    hide Mirrors, Counter, Step, Churn, After;
    if ms == [] {
      ChurnMirrors(lo, m);
      assert Churn(lo, m) + [] == Churn(lo, m);
    } else {
      hide Pushes;
      var front, last := ms[..|ms| - 1], ms[|ms| - 1];
      ReachableQueue(lo, m, front);
      var ops := Churn(lo, m) + Pushes(front);
      OnePushMore(Churn(lo, m), front, last);
      AfterAdd(NewStore(), ops, Op.Push(last));
      PushLengthens(After(NewStore(), ops), front, last);
      assert front + [last] == ms;
    }
  }
}
