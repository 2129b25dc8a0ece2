/**
 Rounds over a durable queue whose live indices are contiguous: each message is popped once exactly
 when size and counter keep every pop of the round on an ordered range; and what goes wrong else.
 */
module RoundExactness {
  import opened ByteOrder
  import opened Decimal
  import opened Delivery
  import opened Conservation
  import opened Queue
  import opened LevelDbQueue
  import opened FifoRefinement
  import opened BagRefinement
  import opened DurableRounds
  import opened ListedRounds

  // ---- a round that is not ordered ------------------------------------------------------------------

  /** Every index of lo..c sorts before every index of c..hi. */
  ghost predicate Outrank(lo: nat, c: nat, hi: nat) {
    forall i: nat, j: nat | lo <= i < c <= j < hi :: Leq(MessageKey(i), MessageKey(j))
  }

  /** All nines is the largest number of its width. */
  lemma NinesDigits(n: nat, d: nat)
    requires Digits(n) == d
    ensures Digits(Pow10(d) - 1) == d && n <= Pow10(d) - 1
  {
    DigitsRange(n);
    var m := Pow10(d) - 1;
    DigitsMonotone(n, m);
    DigitsRange(m);
    if Digits(m) > d { Pow10Monotone(d, Digits(m) - 1); }
  }

  /** A number above the smallest of its width sorts after the next power of ten. */
  lemma OvertakenByPower(n: nat, d: nat)
    requires Digits(n) == d && n > Pow10(d - 1)
    ensures !Leq(MessageKey(n), MessageKey(Pow10(d)))
  {
    DigitsRange(n);
    DigitsOfPow10(d);
    MessageKeyOrder(n, Pow10(d));
    assert Leading(Pow10(d), 1) == Pow10(d) / 10 == Pow10(d - 1);
  }

  lemma Products(m: int, p: int)
    requires m >= 9 && p >= 10
    ensures (m + 1) * p + m + 2 <= 2 * (m * p)
    ensures m * (10 * p) > (m + 1) * p
  {
    assert (m - 2) * (p - 2) >= 7 * 8;
    assert (m - 2) * (p - 2) == m * p - 2 * m - 2 * p + 4;
  }

  /** From the largest number of d digits followed by k zeros it is not far to the next power of ten. */
  lemma NextPower(d: nat, k: nat)
    requires d >= 1 && k >= 1
    ensures var m, p := Pow10(d) - 1, Pow10(k);
            && m >= 9 && p >= 10 && Pow10(d + k) == (m + 1) * p && Pow10(k + 1) == 10 * p
            && Pow10(d + k) + m + 2 <= 2 * (m * p) && m * Pow10(k + 1) > Pow10(d + k)
  {
    var m, p := Pow10(d) - 1, Pow10(k);
    assert p == 10 * Pow10(k - 1) && m + 1 == 10 * Pow10(d - 1);
    Pow10Sum(d, k);
    Products(m, p);
  }

  /** All nines against a number with k more digits. */
  lemma NinesAgainst(d: nat, j: nat, k: nat)
    requires d >= 1 && Digits(Pow10(d) - 1) == d && Digits(j) == d + k
    requires Pow10(d) - 1 <= j
    ensures Leq(MessageKey(Pow10(d) - 1), MessageKey(j)) <==> (Pow10(d) - 1) * Pow10(k) <= j
  {
    MessageKeyOrder(Pow10(d) - 1, j);
    LeadingAtLeast(j, k, Pow10(d) - 1);
  }

  /**
   The widths differ before c already: then c itself, or the next power of ten after it, is an
   index below c + (c - lo) - 1 that sorts before the largest number of the shorter width.
   */
  lemma OvertakenAcrossWidths(lo: nat, c: nat, n: nat, d: nat) returns (j: nat)
    requires lo <= n && Digits(n) == d && Pow10(d) < c
    ensures c <= j < c + (c - lo) - 1 && !Leq(MessageKey(Pow10(d) - 1), MessageKey(j))
    ensures lo <= Pow10(d) - 1 < c
  {
    hide Leading, Leq, MessageKey, Pow10, Digits;
    var m := Pow10(d) - 1;
    NinesDigits(n, d);
    DigitsOfPow10(d);
    DigitsMonotone(Pow10(d), c);
    DigitsRange(c);
    var k := Digits(c) - d;
    NinesAgainst(d, c, k);
    if m * Pow10(k) > c {
      j := c;
    } else {
      j := Pow10(Digits(c));
      NextPower(d, k);
      DigitsOfPow10(Digits(c));
      NinesAgainst(d, j, k + 1);
    }
  }

  /** If no later index sorts before an earlier one, every pop meets an ordered range. */
  lemma OutrankOrdered(lo: nat, c: nat, a: nat)
    requires lo < c && Outrank(lo, c, c + a + (c - lo) - 1)
    ensures OrderedRound(c - lo, c, a)
  {
    hide Leq, MessageKey, Pow10, Digits;
    var size := c - lo;
    forall t: nat | t < size ensures OrderedAt(size, c, a, t) {
      if !OrderedAt(size, c, a, t) {
        var n := lo + t;
        var d := Digits(n);
        OvertakenByPower(n, d);
        if Pow10(d) < c {
          var j := OvertakenAcrossWidths(lo, c, n, d);
          assert false;
        }
      }
    }
  }

  // ---- exactly when ---------------------------------------------------------------------------------

  /** Messages below the retry limit, and arrivals that are none of them. */
  ghost predicate CanSpoil(s: Store<Tracked>, ms: seq<Tracked>, maxAttempts: int, arrivals: seq<Tracked>) {
    && Mirrors(s, Fifo(ms, false)) && DistinctIds(ms)
    && Counter(s.records).value + |arrivals| + |ms| <= MAX_INT64
    && (forall m | m in ms :: m.attempts < maxAttempts)
    && (forall m | m in arrivals :: m !in ms)
  }

  lemma {:induction false} AllReturning(maxAttempts: int, ms: seq<Tracked>)
    requires forall m | m in ms :: m.attempts < maxAttempts
    ensures Returning(maxAttempts, ms) == |ms|
  {
    if ms != [] {
      var front := ms[..|ms| - 1];
      assert ms[|ms| - 1] in ms && forall m | m in front :: m in ms;
      AllReturning(maxAttempts, front);
    }
  }

  lemma MirrorsParts(s: Store<Tracked>, ms: seq<Tracked>)
    requires Mirrors(s, Fifo(ms, false))
    ensures !s.closed && Counter(s.records).Some? && |ms| <= Counter(s.records).value
    ensures MessageKeySet(s.records) == KeysFrom(Counter(s.records).value - |ms|, Counter(s.records).value)
  {
  }

  /** The greatest listed key is the greatest of a contiguous range. */
  lemma LastKeyOutranks(s: Store<Tracked>, lo: nat, c: nat, hi: nat)
    requires MessageKeySet(s.records) == KeysFrom(lo, c) && lo < c
    ensures |MessageKeys(s.records)| == c - lo
    ensures SortsBefore(MessageKeys(s.records)[c - lo - 1], c, hi) ==> Outrank(lo, c, hi)
  {
    hide Leq, IsMessageKey, Sorted, MessageKey;
    var keys := MessageKeys(s.records);
    ListedKeys(s.records);
    KeysFromSize(lo, c);
    var last := keys[|keys| - 1];
    if SortsBefore(last, c, hi) {
      forall i: nat, j: nat | lo <= i < c <= j < hi ensures Leq(MessageKey(i), MessageKey(j)) {
        assert MessageKey(i) in MessageKeySet(s.records);
        assert MessageKey(i) in keys;
        var k :| 0 <= k < |keys| && keys[k] == MessageKey(i);
        SortedSoFar(keys, k, |keys| - 1);
        LeqTransitive(MessageKey(i), last, MessageKey(j));
      }
    }
  }

  /** If the worst round pops each message once, no index of the later messages sorts before one of theirs. */
  lemma WorstRoundOutranks(s: Store<Tracked>, ms: seq<Tracked>, maxAttempts: int, arrivals: seq<Tracked>)
    requires CanSpoil(s, ms, maxAttempts, arrivals) && ms != []
    requires PopsEachOnce(s, ms, maxAttempts, Worst(arrivals))
    ensures var c := Counter(s.records).value;
            |ms| <= c && Outrank(c - |ms|, c, c + |arrivals| + |ms| - 1)
  {
    hide Mirrors, Counter, DistinctIds, Bag, Listed, RoundOver, MessageKeys, MessageKeySet, KeysFrom, Outrank;
    MirrorsParts(s, ms);
    MirrorsBag(s, Fifo(ms, false));
    var c, n := Counter(s.records).value, |ms|;
    var listed := BagIsListed(s, ms);
    ListedOpen(s, MessageKeys(s.records), listed);
    assert PopsEachOnce(s, listed, maxAttempts, Worst(arrivals));
    forall m | m in arrivals ensures m !in listed {
      assert m !in multiset(listed) by { assert m !in multiset(ms); }
    }
    WorstRoundKeysFirst(s, MessageKeys(s.records), listed, maxAttempts, arrivals);
    forall m | m in listed[..n - 1] ensures m.attempts < maxAttempts {
      assert m in multiset(listed);
      assert m in multiset(ms);
    }
    AllReturning(maxAttempts, listed[..n - 1]);
    LastKeyOutranks(s, c - n, c, c + |arrivals| + n - 1);
  }

  /**
   A round over messages below the retry limit pops each of them exactly once, for every pattern of
   failures and every pattern of at most a messages queued meanwhile, if and only if the round is
   ordered.
   */
  lemma OnceExactlyWhenOrdered(s: Store<Tracked>, ms: seq<Tracked>, maxAttempts: int, a: nat)
    requires Mirrors(s, Fifo(ms, false)) && ms != [] && DistinctIds(ms)
    requires Counter(s.records).value + a + |ms| <= MAX_INT64
    requires forall m | m in ms :: m.attempts < maxAttempts
    ensures |ms| <= Counter(s.records).value
    ensures (forall turns: nat -> Turn | Arriving(turns, |ms|) <= a :: PopsEachOnce(s, ms, maxAttempts, turns))
       <==> OrderedRound(|ms|, Counter(s.records).value, a)
  {
    hide Mirrors, Counter, PopsEachOnce, OrderedRound, DistinctIds, RoundOver;
    MirrorsParts(s, ms);
    var c := Counter(s.records).value;
    if OrderedRound(|ms|, c, a) {
      forall turns: nat -> Turn | Arriving(turns, |ms|) <= a ensures PopsEachOnce(s, ms, maxAttempts, turns) {
        OrderedRoundPopsAll(s, ms, maxAttempts, turns, a);
      }
    } else {
      var arrivals := NewMessages(ms, a);
      ArrivingAtWorst(arrivals, |ms|);
      NewMessagesAreOther(ms, a);
      if PopsEachOnce(s, ms, maxAttempts, Worst(arrivals)) {
        WorstRoundOutranks(s, ms, maxAttempts, arrivals);
        OutrankOrdered(c - |ms|, c, a);
      }
    }
  }

  // ---- by size and counter ----------------------------------------------------------------------------

  /** A queue of n different messages at the indices below c. */
  ghost predicate Queued(s: Store<Tracked>, ms: seq<Tracked>, n: nat, c: nat) {
    Mirrors(s, Fifo(ms, false)) && DistinctIds(ms) && |ms| == n && Counter(s.records) == Some(c)
  }

  /**
   The sizes and counters with which a round is safe: it pops the n messages it met, each once,
   whatever these are, whatever the retry limit, whatever fails and whatever up to a messages are
   queued meanwhile, if and only if the round is ordered.
   */
  lemma OncePerRoundExactly(n: nat, c: nat, a: nat)
    requires 0 < n <= c && c + a + n <= MAX_INT64
    ensures (forall s, ms, maxAttempts, turns: nat -> Turn | Queued(s, ms, n, c) && Arriving(turns, n) <= a ::
               PopsEachOnce(s, ms, maxAttempts, turns))
       <==> OrderedRound(n, c, a)
  {
    hide Mirrors, Counter, PopsEachOnce, OrderedRound, After, NewMessages, Arriving;
    if OrderedRound(n, c, a) {
      forall s, ms, maxAttempts, turns: nat -> Turn | Queued(s, ms, n, c) && Arriving(turns, n) <= a
        ensures PopsEachOnce(s, ms, maxAttempts, turns)
      {
        OrderedRoundPopsAll(s, ms, maxAttempts, turns, a);
      }
    } else {
      var ms := NewMessages([], n);
      NewMessagesDistinct([], n);
      ReachableQueue(c - n, Tracked(0, 1, 1), ms);
      var s := After(NewStore(), Churn(c - n, Tracked(0, 1, 1)) + Pushes(ms));
      OnceExactlyWhenOrdered(s, ms, 2, a);
      assert Queued(s, ms, n, c);
    }
  }

  lemma NewMessagesDistinct(ms: seq<Tracked>, a: nat)
    ensures |NewMessages(ms, a)| == a && DistinctIds(NewMessages(ms, a))
    ensures forall m | m in NewMessages(ms, a) :: m.attempts == 1
  {
    forall i | 0 <= i < a ensures NewMessages(ms, a)[i].id == NewId(ms) + i {}
  }

  // ---- what goes wrong ------------------------------------------------------------------------------------

  /** Two live indices below the counter, with their messages. */
  ghost predicate Pair(s: Store<Tracked>, i: nat, m: Tracked, j: nat, w: Tracked, c: nat) {
    && !s.closed && Counter(s.records) == Some(c) && i < c && j < c && i != j
    && MessageKeySet(s.records) == {MessageKey(i), MessageKey(j)}
    && Holds(s.records, MessageKey(i), m) && Holds(s.records, MessageKey(j), w)
  }

  lemma PopOfPair(s: Store<Tracked>, i: nat, m: Tracked, j: nat, w: Tracked, c: nat)
    requires Pair(s, i, m, j, w, c) && Leq(MessageKey(i), MessageKey(j))
    ensures PopStep(s, NoFault) == (s.(records := s.records - {MessageKey(i)}), Item(m))
  {
    hide Counter, Leq, MessageKey, MessageKeySet, PopStep;
    LeqReflexive(MessageKey(i));
    PopOfLeast(s, MessageKey(i), m);
  }

  lemma PushAfterPop(s: Store<Tracked>, i: nat, m: Tracked, j: nat, w: Tracked, c: nat, y: Tracked)
    requires Pair(s, i, m, j, w, c) && c < MAX_INT64
    ensures Pair(PushStep(s.(records := s.records - {MessageKey(i)}), y, NoFault).0, c, y, j, w, c + 1)
  {
    hide Leq, ParseInt, FormatInt, PushStep, IsMessageKey, MessageKey;
    MessageKeyFacts(i);
    MessageKeyFacts(j);
    MessageKeyFacts(c);
    var rest := s.(records := s.records - {MessageKey(i)});
    assert Counter(rest.records) == Some(c);
    assert MessageKeySet(rest.records) == MessageKeySet(s.records) - {MessageKey(i)} == {MessageKey(j)};
    PushRecords(rest, c, y);
  }

  /** A turn over a pair in which one message, this one or another, follows the one that is popped. */
  lemma PairTurn(p: Pass, i: nat, m: Tracked, j: nat, w: Tracked, c: nat, maxAttempts: int, turn: Turn, y: Tracked)
    requires !p.over && Pair(p.store, i, m, j, w, c) && Leq(MessageKey(i), MessageKey(j)) && c < MAX_INT64
    requires m.attempts < maxAttempts
    requires (turn == Turn([], [], false) && y == FailedOnce(m)) || turn == Turn([], [y], true)
    ensures var p' := Iterate(p, maxAttempts, turn);
            !p'.over && p'.popped == p.popped + [m] && Pair(p'.store, c, y, j, w, c + 1)
  {
    hide Counter, Leq, MessageKey, MessageKeySet, PopStep, PushStep, PushAll, Holds;
    PushNone(p.store);
    PopOfPair(p.store, i, m, j, w, c);
    var rest := PopStep(p.store, NoFault).0;
    PushAfterPop(p.store, i, m, j, w, c, y);
    PushNone(rest);
    PushOne(rest, y);
    PushNone(PushAll(rest, [y]));
  }

  lemma PushOne(s: Store<Tracked>, y: Tracked)
    ensures PushAll(s, [y]) == PushStep(s, y, NoFault).0
  {
    hide PushStep;
    PushAllAdd(s, [], y);
    assert [] + [y] == [y];
  }

  lemma MirrorsPair(s: Store<Tracked>, first: Tracked, waiting: Tracked, c: nat)
    requires Mirrors(s, Fifo([first, waiting], false)) && Counter(s.records) == Some(c) && c >= 2
    ensures Pair(s, c - 2, first, c - 1, waiting, c)
  {
    hide Counter, MessageKeySet, MessageKey;
    assert Holds(s.records, MessageKey(c - 2 + 0), [first, waiting][0]);
    assert Holds(s.records, MessageKey(c - 2 + 1), [first, waiting][1]);
    KeysFromSnoc(c - 2, c);
    KeysFromSnoc(c - 2, c - 1);
    assert KeysFrom(c - 2, c - 2) == {};
    assert KeysFrom(c - 2, c) == {MessageKey(c - 2), MessageKey(c - 1)};
  }

  /** The indices ten to nineteen come before nine, and eight does. */
  lemma BeforeNine(j: nat)
    requires j == 8 || 10 <= j < 20
    ensures Leq(MessageKey(j), MessageKey(9))
  {
    assert Digits(8) == Digits(9) == 1;
    if j == 8 {
      MessageKeyOrder(8, 9);
    } else {
      assert Digits(j) == 2 && Leading(j, 1) == j / 10 == 1;
      MessageKeyOrder(9, j);
      LeqTotal(MessageKey(9), MessageKey(j));
    }
  }

  /** Two turns, the first of which leaves a pair that begins with y. */
  lemma TwoTurns(
    s: Store<Tracked>, i: nat, m: Tracked, w: Tracked, c: nat, maxAttempts: int, turns: nat -> Turn, y: Tracked)
    requires Pair(s, i, m, 9, w, c) && (i == 8 || 10 <= i < 20) && 10 <= c < 20 && m.attempts < maxAttempts
    requires turns(0) == Turn([], [], false) && y == FailedOnce(m) && turns(1).before == []
    ensures RoundOver(s, maxAttempts, turns, 2).popped == [m, y]
    ensures Pair(RoundOver(s, maxAttempts, turns, 1).store, c, y, 9, w, c + 1)
    ensures forall z | y.attempts < maxAttempts && turns(1) == Turn([], [z], true) ::
              Pair(RoundOver(s, maxAttempts, turns, 2).store, c + 1, z, 9, w, c + 2)
  {
    hide Iterate, Pair, RoundOver, Leq, MessageKey;
    RoundNext(s, maxAttempts, turns, 0);
    RoundNext(s, maxAttempts, turns, 1);
    BeforeNine(i);
    BeforeNine(c);
    PairTurn(Pass(s, [], false), i, m, 9, w, c, maxAttempts, turns(0), y);
    var p := RoundOver(s, maxAttempts, turns, 1);
    assert p.popped == [m];
    PairPopsNext(p, c, y, 9, w, c + 1, maxAttempts, turns(1));
    forall z | y.attempts < maxAttempts && turns(1) == Turn([], [z], true)
      ensures Pair(RoundOver(s, maxAttempts, turns, 2).store, c + 1, z, 9, w, c + 2)
    {
      PairTurn(p, c, y, 9, w, c + 1, maxAttempts, turns(1), z);
    }
  }

  lemma PairPopsNext(p: Pass, i: nat, m: Tracked, j: nat, w: Tracked, c: nat, maxAttempts: int, turn: Turn)
    requires !p.over && Pair(p.store, i, m, j, w, c) && Leq(MessageKey(i), MessageKey(j)) && turn.before == []
    ensures Iterate(p, maxAttempts, turn).popped == p.popped + [m]
  {
    hide Counter, Leq, MessageKey, MessageKeySet, PopStep, PushStep, PushAll, Holds;
    PushNone(p.store);
    PopOfPair(p.store, i, m, j, w, c);
  }

  /** A queue with two messages waiting at the indices 8 and 9, from a new directory. */
  function EightAndNine(first: Tracked, waiting: Tracked): Store<Tracked> {
    After(NewStore(), Churn(8, first) + Pushes([first, waiting]))
  }

  /**
   A round that fails this, after ten pushes and eight pops in a new directory: its range is in
   order when it starts, the first message fails and comes back at index 10, and is taken again
   instead of the one waiting at index 9, which this round does not try.
   */
  lemma RoundRetriesTwice(first: Tracked, waiting: Tracked, maxAttempts: int)
    requires first.attempts < maxAttempts
    ensures var s := EightAndNine(first, waiting);
            && Mirrors(s, Fifo([first, waiting], false)) && Counter(s.records) == Some(10) && InOrder(8, 10)
            && RoundOver(s, maxAttempts, Worst([]), 2).popped == [first, FailedOnce(first)]
  {
    hide Mirrors, Counter, After, RoundOver, Pair;
    ReachableQueue(8, first, [first, waiting]);
    assert Pow10(1) == 10 * Pow10(0) == 10;
    assert Digits(8) == 1;
    MirrorsPair(EightAndNine(first, waiting), first, waiting, 10);
    TwoTurns(EightAndNine(first, waiting), 8, first, waiting, 10, maxAttempts, Worst([]), FailedOnce(first));
  }

  /** A failure, and then a success during which the first worker queues young. */
  function FailThenDeliver(young: Tracked): nat -> Turn {
    (i: nat) => if i == 0 then Turn([], [], false) else Turn([], [young], true)
  }

  /**
   Size and counter do not tell after such a round. It leaves the indices 9 and 11 below the counter
   12: by these two numbers every pop of the next round would meet an ordered range, but that round
   takes the young message at 11, takes it again at 12 when it has failed, and again not the one
   waiting at 9.
   */
  lemma GapSpoilsOrderedRound(first: Tracked, waiting: Tracked, young: Tracked, maxAttempts: int)
    requires first.attempts + 1 < maxAttempts && young.attempts < maxAttempts
    ensures var s := RoundOver(EightAndNine(first, waiting), maxAttempts, FailThenDeliver(young), 2).store;
            && Counter(s.records) == Some(12)
            && MessageKeySet(s.records) == {MessageKey(9), MessageKey(11)} && |MessageKeySet(s.records)| == 2
            && Holds(s.records, MessageKey(9), waiting)
            && InOrder(10, 12) && OrderedRound(2, 12, 0)
            && PopStep(s, NoFault).1 == Item(young)
            && RoundOver(s, maxAttempts, Worst([]), 2).popped == [young, FailedOnce(young)]
  {
    hide Mirrors, Counter, After, RoundOver, Pair, MessageKeySet, PopStep, OrderedRound, InOrder, Holds;
    var s0 := EightAndNine(first, waiting);
    ReachableQueue(8, first, [first, waiting]);
    MirrorsPair(s0, first, waiting, 10);
    TwoTurns(s0, 8, first, waiting, 10, maxAttempts, FailThenDeliver(young), FailedOnce(first));
    var s := RoundOver(s0, maxAttempts, FailThenDeliver(young), 2).store;
    assert Pair(s, 11, young, 9, waiting, 12);
    TwoTurns(s, 11, young, waiting, 12, maxAttempts, Worst([]), FailedOnce(young));
    BeforeNine(11);
    PopOfPair(s, 11, young, 9, waiting, 12);
    PairParts(s, 11, young, 9, waiting, 12);
    TwelveInOrder();
  }

  lemma PairParts(s: Store<Tracked>, i: nat, m: Tracked, j: nat, w: Tracked, c: nat)
    requires Pair(s, i, m, j, w, c)
    ensures Counter(s.records) == Some(c) && Holds(s.records, MessageKey(j), w)
    ensures MessageKeySet(s.records) == {MessageKey(i), MessageKey(j)} && |MessageKeySet(s.records)| == 2
  {
    MessageKeyFacts(i);
  }

  lemma TwelveInOrder()
    ensures InOrder(10, 12) && OrderedRound(2, 12, 0)
  {
    assert Pow10(2) == 10 * Pow10(1) == 100 by { assert Pow10(1) == 10 * Pow10(0); }
    assert Digits(10) == Digits(11) == 2;
  }
}
