/**
 Exactly when a retry round over the durable queue pops each message it met once, told from the
 listed keys, the counter and the number of messages that may arrive meanwhile.
 */
module ListedRounds {
  import opened ByteOrder
  import opened Decimal
  import opened Delivery
  import opened Conservation
  import opened Queue
  import opened LevelDbQueue
  import opened FifoRefinement
  import opened BagRefinement
  import opened DurableRounds

  /** The message keys of an open store, in order, and the messages under them, which are all different. */
  ghost predicate Listed(s: Store<Tracked>, keys: seq<Bytes>, ms: seq<Tracked>) {
    && !s.closed
    && keys == MessageKeys(s.records)
    && Carries(s.records, keys, ms)
    && DistinctIds(ms)
  }

  /** How many of the messages are below the retry limit and so may come back. */
  function Returning(maxAttempts: int, ms: seq<Tracked>): (n: nat)
    ensures n <= |ms|
  {
    if ms == [] then 0
    else Returning(maxAttempts, ms[..|ms| - 1]) + if ms[|ms| - 1].attempts < maxAttempts then 1 else 0
  }

  /** No index of c..hi has a key before this one. */
  ghost predicate SortsBefore(key: Bytes, c: int, hi: int) {
    forall j | c <= j < hi :: Leq(key, MessageKey(j))
  }

  /**
   A round that met the keys at counter c and has popped the first t of them: the others are live,
   with their messages, and besides them exactly the indices given out since.
   */
  ghost predicate Midway(s: Store<Tracked>, keys: seq<Bytes>, ms: seq<Tracked>, t: nat, c: nat, hi: nat) {
    && Counter(s.records) == Some(hi) && c <= hi && t <= |keys| == |ms|
    && Ascending(keys)
    && (forall k :: k in keys ==> k in KeysFrom(0, c))
    && MessageKeySet(s.records) == Elements(keys[t..]) + KeysFrom(c, hi)
    && (forall i | t <= i < |keys| :: Holds(s.records, keys[i], ms[i]))
  }

  function Elements(keys: seq<Bytes>): set<Bytes> {
    set k | k in keys
  }

  /** The indices given out since hold messages that are not of the round. */
  ghost predicate Others(s: Store<Tracked>, ms: seq<Tracked>, c: nat, hi: nat) {
    forall j | c <= j < hi :: HoldsOther(s.records, MessageKey(j), ms)
  }

  ghost predicate HoldsOther(records: map<Bytes, Value<Tracked>>, key: Bytes, ms: seq<Tracked>) {
    key in records && records[key].Json? && records[key].msg !in ms
  }

  lemma OldAndNewKeys(k: Bytes, c: int, j: int)
    requires k in KeysFrom(0, c) && c <= j
    ensures k != MessageKey(j) && k != INDEX_KEY
  {
    MessageKeyFacts(j);
    var i :| 0 <= i < c && k == MessageKey(i);
    MessageKeyFacts(i);
  }

  lemma ListedMidway(s: Store<Tracked>, keys: seq<Bytes>, ms: seq<Tracked>)
    requires Listed(s, keys, ms)
    ensures Counter(s.records).Some? && Counter(s.records).value >= 0
    ensures Midway(s, keys, ms, 0, Counter(s.records).value, Counter(s.records).value)
    ensures Others(s, ms, Counter(s.records).value, Counter(s.records).value)
  {
    hide Counter, DistinctIds, Sorted, IsMessageKey, Leq, MessageKey;
    ListedKeys(s.records);
    assert keys[0..] == keys;
    assert MessageKeySet(s.records) == Elements(keys);
    assert KeysFrom(Counter(s.records).value, Counter(s.records).value) == {};
  }

  // ---- what the calls of a round do -----------------------------------------------------------------

  lemma PushRecords(s: Store<Tracked>, c: int, m: Tracked)
    requires !s.closed && Counter(s.records) == Some(c) && 0 <= c < MAX_INT64
    ensures var records := s.records[MessageKey(c) := Json(m)][INDEX_KEY := Text(FormatInt(c + 1))];
            && PushStep(s, m, NoFault) == (s.(records := records), Done)
            && Counter(records) == Some(c + 1)
            && MessageKeySet(records) == MessageKeySet(s.records) + {MessageKey(c)}
  {
    ParseFormat(c + 1);
    MessageKeyFacts(c);
    assert !IsMessageKey(INDEX_KEY);
    hide FormatInt, ParseInt, IsMessageKey;
  }

  /** A Push, of whatever message, goes to the next index and leaves the rest of the round alone. */
  lemma PushMidway(s: Store<Tracked>, keys: seq<Bytes>, ms: seq<Tracked>, t: nat, c: nat, hi: nat, m: Tracked)
    requires Midway(s, keys, ms, t, c, hi) && !s.closed && hi < MAX_INT64
    ensures var s' := PushStep(s, m, NoFault).0;
            && !s'.closed && Midway(s', keys, ms, t, c, hi + 1)
            && (Others(s, ms, c, hi) && m !in ms ==> Others(s', ms, c, hi + 1))
  {
    hide Counter, PushStep, FormatInt, MessageKey, MessageKeySet, KeysFrom, Elements, Ascending;
    var s' := PushStep(s, m, NoFault).0;
    PushRecords(s, hi, m);
    KeysFromSnoc(c, hi + 1);
    forall i | t <= i < |keys| ensures Holds(s'.records, keys[i], ms[i]) {
      assert keys[i] in keys;
      OldAndNewKeys(keys[i], c, hi);
      assert Holds(s.records, keys[i], ms[i]);
    }
    if Others(s, ms, c, hi) && m !in ms {
      MessageKeyFacts(hi);
      forall j | c <= j < hi + 1 ensures HoldsOther(s'.records, MessageKey(j), ms) {
        MessageKeyFacts(j);
        assert j < hi ==> HoldsOther(s.records, MessageKey(j), ms);
      }
    }
  }

  lemma {:induction false} PushAllMidway(
    s: Store<Tracked>, keys: seq<Bytes>, ms: seq<Tracked>, t: nat, c: nat, hi: nat, pushed: seq<Tracked>)
    requires Midway(s, keys, ms, t, c, hi) && !s.closed && hi + |pushed| <= MAX_INT64
    ensures var s' := PushAll(s, pushed);
            && !s'.closed && Midway(s', keys, ms, t, c, hi + |pushed|)
            && (Others(s, ms, c, hi) && (forall m | m in pushed :: m !in ms) ==> Others(s', ms, c, hi + |pushed|))
  {
    hide Midway, PushStep, Others;
    if pushed != [] {
      var front, last := pushed[..|pushed| - 1], pushed[|pushed| - 1];
      assert last in pushed && forall m | m in front :: m in pushed;
      PushAllMidway(s, keys, ms, t, c, hi, front);
      PushMidway(PushAll(s, front), keys, ms, t, c, hi + |front|, last);
    }
  }

  /** Deleting the next key of the round. */
  lemma RemoveMidway(s: Store<Tracked>, keys: seq<Bytes>, ms: seq<Tracked>, t: nat, c: nat, hi: nat)
    requires Midway(s, keys, ms, t, c, hi) && t < |keys|
    ensures var s' := s.(records := s.records - {keys[t]});
            && Midway(s', keys, ms, t + 1, c, hi)
            && (Others(s, ms, c, hi) ==> Others(s', ms, c, hi))
  {
    hide ParseInt, FormatInt, Leq, MessageKey, KeysFrom;
    var records := s.records - {keys[t]};
    assert keys[t] in keys;
    OldAndNewKeys(keys[t], c, c);
    assert MessageKeySet(records) == MessageKeySet(s.records) - {keys[t]};
    assert keys[t] !in KeysFrom(c, hi) by { NotAmongNew(keys[t], c, hi); }
    RestOfKeys(keys, t);
    forall i | t + 1 <= i < |keys| ensures Holds(records, keys[i], ms[i]) {
      assert Holds(s.records, keys[i], ms[i]) && Less(keys[t], keys[i]);
    }
    if Others(s, ms, c, hi) {
      forall j | c <= j < hi ensures HoldsOther(records, MessageKey(j), ms) {
        assert HoldsOther(s.records, MessageKey(j), ms);
        OldAndNewKeys(keys[t], c, j);
      }
    }
  }

  lemma NotAmongNew(k: Bytes, c: int, hi: int)
    requires k in KeysFrom(0, c)
    ensures k !in KeysFrom(c, hi)
  {
    forall j | c <= j < hi ensures k != MessageKey(j) {
      OldAndNewKeys(k, c, j);
    }
  }

  lemma RestOfKeys(keys: seq<Bytes>, t: nat)
    requires Ascending(keys) && t < |keys|
    ensures Elements(keys[t + 1..]) == Elements(keys[t..]) - {keys[t]}
  {
    hide Leq;
    var rest := keys[t..];
    assert keys[t + 1..] == rest[1..];
    forall k ensures k in rest[1..] <==> k in rest && k != rest[0] {
      AscendingRest(keys, t);
      AscendingTail(rest, k);
    }
  }

  lemma AscendingRest(keys: seq<Bytes>, t: nat)
    requires Ascending(keys) && t <= |keys|
    ensures Ascending(keys[t..])
  {
  }

  lemma SortedSoFar(keys: seq<Bytes>, t: nat, i: nat)
    requires Ascending(keys) && t <= i < |keys|
    ensures Leq(keys[t], keys[i])
  {
    LeqReflexive(keys[t]);
    assert t < i ==> Less(keys[t], keys[i]);
  }

  /** While no new index sorts before the round's last key, a Pop takes the next key of the listing. */
  lemma PopNext(s: Store<Tracked>, keys: seq<Bytes>, ms: seq<Tracked>, t: nat, c: nat, hi: nat)
    requires Midway(s, keys, ms, t, c, hi) && !s.closed && t < |keys|
    requires SortsBefore(keys[|keys| - 1], c, hi)
    ensures PopStep(s, NoFault) == (s.(records := s.records - {keys[t]}), Item(ms[t]))
  {
    hide Counter, PopStep, MessageKey, MessageKeySet, Leq, Ascending;
    assert keys[t] == keys[t..][0] && keys[t] in Elements(keys[t..]);
    assert Holds(s.records, keys[t], ms[t]);
    forall k | k in MessageKeySet(s.records) ensures Leq(keys[t], k) {
      if k in Elements(keys[t..]) {
        var i :| 0 <= i < |keys[t..]| && keys[t..][i] == k;
        SortedSoFar(keys, t, t + i);
      } else {
        var j :| c <= j < hi && k == MessageKey(j);
        SortedSoFar(keys, t, |keys| - 1);
        LeqTransitive(keys[t], keys[|keys| - 1], k);
      }
    }
    PopOfLeast(s, keys[t], ms[t]);
  }

  /** A Pop that takes a message of the round takes the next key, and no new index sorts before it. */
  lemma PopOwn(s: Store<Tracked>, keys: seq<Bytes>, ms: seq<Tracked>, t: nat, c: nat, hi: nat)
    requires Midway(s, keys, ms, t, c, hi) && Others(s, ms, c, hi)
    requires PopStep(s, NoFault).1.Item? && PopStep(s, NoFault).1.msg in ms
    ensures t < |keys| && PopStep(s, NoFault) == (s.(records := s.records - {keys[t]}), Item(ms[t]))
    ensures SortsBefore(keys[t], c, hi)
  {
    hide Counter, PopStep, MessageKey, MessageKeySet, Leq;
    var key := PopTakesLeast(s);
    forall j | c <= j < hi ensures key != MessageKey(j) {
      assert HoldsOther(s.records, MessageKey(j), ms);
    }
    assert key in Elements(keys[t..]);
    var i :| 0 <= i < |keys[t..]| && keys[t..][i] == key;
    assert keys[t] == keys[t..][0] && keys[t] in Elements(keys[t..]);
    assert Leq(key, keys[t]);
    SortedSoFar(keys, t, t + i);
    LeqAntisymmetric(key, keys[t]);
    assert Holds(s.records, keys[t], ms[t]);
    forall j | c <= j < hi ensures Leq(keys[t], MessageKey(j)) {
      assert MessageKey(j) in KeysFrom(c, hi);
    }
  }

  // ---- a round that keeps to its listing ------------------------------------------------------------

  /** The index after an iteration that pops m. */
  function IndexAfter(hi: nat, m: Tracked, maxAttempts: int, turn: Turn): nat {
    hi + |turn.before| + if m.attempts >= maxAttempts then 0 else |turn.during| + if turn.ok then 0 else 1
  }

  /** An iteration whose Pop takes the next key of the listing. */
  lemma MidwayIteration(
    p: Pass, keys: seq<Bytes>, ms: seq<Tracked>, t: nat, c: nat, hi: nat, maxAttempts: int, turn: Turn)
    requires !p.over && !p.store.closed && Midway(p.store, keys, ms, t, c, hi) && t < |keys|
    requires hi + |turn.before| + |turn.during| + 1 <= MAX_INT64
    requires var met := PushAll(p.store, turn.before);
             PopStep(met, NoFault) == (met.(records := met.records - {keys[t]}), Item(ms[t]))
    ensures var p' := Iterate(p, maxAttempts, turn);
            && !p'.over && !p'.store.closed && p'.popped == p.popped + [ms[t]]
            && Midway(p'.store, keys, ms, t + 1, c, IndexAfter(hi, ms[t], maxAttempts, turn))
  {
    hide Midway, PushStep, PopStep, PushAll, Others;
    assert t < |ms| by { MidwaySizes(p.store, keys, ms, t, c, hi); }
    var met := PushAll(p.store, turn.before);
    var h := hi + |turn.before|;
    PushAllMidway(p.store, keys, ms, t, c, hi, turn.before);
    RemoveMidway(met, keys, ms, t, c, h);
    if ms[t].attempts < maxAttempts {
      var rest := met.(records := met.records - {keys[t]});
      PushAllMidway(rest, keys, ms, t + 1, c, h, turn.during);
      PushMidway(PushAll(rest, turn.during), keys, ms, t + 1, c, h + |turn.during|, FailedOnce(ms[t]));
    }
  }

  lemma MidwaySizes(s: Store<Tracked>, keys: seq<Bytes>, ms: seq<Tracked>, t: nat, c: nat, hi: nat)
    requires Midway(s, keys, ms, t, c, hi)
    ensures |keys| == |ms| && t <= |ms| && c <= hi
  {
  }

  lemma ReturningNext(maxAttempts: int, ms: seq<Tracked>, t: nat)
    requires t < |ms|
    ensures Returning(maxAttempts, ms[..t + 1])
         == Returning(maxAttempts, ms[..t]) + if ms[t].attempts < maxAttempts then 1 else 0
  {
    assert ms[..t + 1][..t] == ms[..t];
  }

  lemma {:induction false} ReturningMonotone(maxAttempts: int, ms: seq<Tracked>, t: nat, n: nat)
    requires t <= n <= |ms|
    ensures Returning(maxAttempts, ms[..t]) <= Returning(maxAttempts, ms[..n])
  {
    if t < n {
      ReturningMonotone(maxAttempts, ms, t, n - 1);
      ReturningNext(maxAttempts, ms, n - 1);
    }
  }

  /** The greatest listed key sorts before every index that a round with a arrivals can still give out. */
  ghost predicate KeysFirst(keys: seq<Bytes>, ms: seq<Tracked>, maxAttempts: int, c: nat, a: nat)
    requires |keys| == |ms| > 0
  {
    SortsBefore(keys[|keys| - 1], c, c + a + Returning(maxAttempts, ms[..|ms| - 1]))
  }

  lemma SortsBeforeFewer(key: Bytes, c: int, hi: int, hi': int)
    requires SortsBefore(key, c, hi) && hi' <= hi
    ensures SortsBefore(key, c, hi')
  {
  }

  /** Then the round pops its messages in the order of the listing, whatever fails and arrives. */
  lemma {:induction false} ListedRoundPops(
    s: Store<Tracked>, keys: seq<Bytes>, ms: seq<Tracked>, maxAttempts: int, turns: nat -> Turn, a: nat, t: nat)
    returns (hi: nat)
    requires Listed(s, keys, ms) && ms != [] && |keys| == |ms| && t <= |ms|
    requires Counter(s.records).Some? && Counter(s.records).value >= 0
    requires Arriving(turns, |ms|) <= a && Counter(s.records).value + a + |ms| <= MAX_INT64
    requires KeysFirst(keys, ms, maxAttempts, Counter(s.records).value, a)
    ensures hi <= Counter(s.records).value + Arriving(turns, t) + Returning(maxAttempts, ms[..t])
    ensures var p := RoundOver(s, maxAttempts, turns, t);
            && !p.over && !p.store.closed && p.popped == ms[..t]
            && Midway(p.store, keys, ms, t, Counter(s.records).value, hi)
  {
    hide Counter, Iterate, Midway, SortsBefore, Listed, PopStep, PushAll, RoundOver, Returning;
    var c := Counter(s.records).value;
    ListedOpen(s, keys, ms);
    if t == 0 {
      RoundNext(s, maxAttempts, turns, 0);
      ListedMidway(s, keys, ms);
      hi := c;
    } else {
      RoundNext(s, maxAttempts, turns, t - 1);
      var before := ListedRoundPops(s, keys, ms, maxAttempts, turns, a, t - 1);
      var p, turn := RoundOver(s, maxAttempts, turns, t - 1), turns(t - 1);
      ArrivingMonotone(turns, t, |ms|);
      ReturningNext(maxAttempts, ms, t - 1);
      ReturningMonotone(maxAttempts, ms, t - 1, |ms| - 1);
      var met := PushAll(p.store, turn.before);
      var h := before + |turn.before|;
      PushAllMidway(p.store, keys, ms, t - 1, c, before, turn.before);
      SortsBeforeFewer(keys[|keys| - 1], c, c + a + Returning(maxAttempts, ms[..|ms| - 1]), h);
      PopNext(met, keys, ms, t - 1, c, h);
      MidwayIteration(p, keys, ms, t - 1, c, before, maxAttempts, turn);
      hi := IndexAfter(before, ms[t - 1], maxAttempts, turn);
      assert ms[..t - 1] + [ms[t - 1]] == ms[..t];
    }
  }

  lemma ListedOpen(s: Store<Tracked>, keys: seq<Bytes>, ms: seq<Tracked>)
    requires Listed(s, keys, ms)
    ensures !s.closed && |keys| == |ms| && Counter(s.records).Some? && Counter(s.records).value >= 0
    ensures DistinctIds(ms)
  {
  }

  lemma RoundNext(s: Store<Tracked>, maxAttempts: int, turns: nat -> Turn, t: nat)
    ensures RoundOver(s, maxAttempts, turns, 0) == Pass(s, [], false)
    ensures RoundOver(s, maxAttempts, turns, t + 1)
         == Iterate(RoundOver(s, maxAttempts, turns, t), maxAttempts, turns(t))
  {
    hide Iterate;
  }

  // ---- a round that pops each message once ------------------------------------------------------------

  /** The most a round can suffer: all the arrivals before its first pop, and every attempt failing. */
  function Worst(arrivals: seq<Tracked>): nat -> Turn {
    (i: nat) => Turn(if i == 0 then arrivals else [], [], false)
  }

  lemma {:induction false} ArrivingAtWorst(arrivals: seq<Tracked>, n: nat)
    ensures Arriving(Worst(arrivals), n) == if n == 0 then 0 else |arrivals|
  {
    if n > 0 { ArrivingAtWorst(arrivals, n - 1); }
  }

  lemma FailedOnceIsOther(ms: seq<Tracked>, m: Tracked)
    requires DistinctIds(ms) && m in ms
    ensures FailedOnce(m) !in ms
  {
    var i :| 0 <= i < |ms| && ms[i] == m;
    forall j | 0 <= j < |ms| ensures ms[j] != FailedOnce(m) {
      if j < i { assert ms[j].id != ms[i].id; }
      if i < j { assert ms[i].id != ms[j].id; }
    }
  }

  /** The store a turn's pop meets. */
  function Met(s: Store<Tracked>, maxAttempts: int, turns: nat -> Turn, t: nat): Store<Tracked> {
    PushAll(RoundOver(s, maxAttempts, turns, t).store, turns(t).before)
  }

  /** A round with as many pops as turns has made one in each. */
  lemma PopInEachTurn(s: Store<Tracked>, maxAttempts: int, turns: nat -> Turn, t: nat, n: nat)
    requires t <= n && |RoundOver(s, maxAttempts, turns, n).popped| == n
    ensures var p, q := RoundOver(s, maxAttempts, turns, t), RoundOver(s, maxAttempts, turns, n);
            && |p.popped| == t && p.popped <= q.popped && (t < n ==> !p.over)
  {
    hide Iterate;
    NeverLeft(s, maxAttempts, turns, t, n);
    NeverLeft(s, maxAttempts, turns, 0, t);
  }

  lemma IteratePops(p: Pass, maxAttempts: int, turn: Turn)
    ensures var r := PopStep(PushAll(p.store, turn.before), NoFault).1;
            |Iterate(p, maxAttempts, turn).popped| == |p.popped| + 1 ==>
              !p.over && r.Item? && Iterate(p, maxAttempts, turn).popped == p.popped + [r.msg]
  {
    hide PushAll, PopStep, PushStep;
  }

  /** What popping each message once means for each turn. */
  lemma PoppedSoFar(s: Store<Tracked>, ms: seq<Tracked>, maxAttempts: int, turns: nat -> Turn, t: nat)
    requires PopsEachOnce(s, ms, maxAttempts, turns) && t < |ms|
    ensures !RoundOver(s, maxAttempts, turns, t).over
    ensures var r := PopStep(Met(s, maxAttempts, turns, t), NoFault).1; r.Item? && r.msg in ms
  {
    hide Iterate, PushAll, PopStep;
    var all := RoundOver(s, maxAttempts, turns, |ms|).popped;
    assert |all| == |multiset(all)| == |multiset(ms)| == |ms|;
    PopInEachTurn(s, maxAttempts, turns, t, |ms|);
    PopInEachTurn(s, maxAttempts, turns, t + 1, |ms|);
    var q := RoundOver(s, maxAttempts, turns, t + 1);
    IteratePops(RoundOver(s, maxAttempts, turns, t), maxAttempts, turns(t));
    assert all[t] == q.popped[t] && all[t] in multiset(all);
  }

  lemma WorstIteration(
    p: Pass, keys: seq<Bytes>, ms: seq<Tracked>, t: nat, c: nat, hi: nat, maxAttempts: int, turn: Turn)
    requires !p.over && turn.during == [] && !turn.ok
    requires var met := PushAll(p.store, turn.before);
             && Midway(met, keys, ms, t, c, hi) && Others(met, ms, c, hi) && !met.closed && hi < MAX_INT64
             && PopStep(met, NoFault).1.Item? && PopStep(met, NoFault).1.msg in ms
    requires DistinctIds(ms)
    ensures t < |ms|
    ensures var s' := Iterate(p, maxAttempts, turn).store;
            var hi' := hi + if ms[t].attempts < maxAttempts then 1 else 0;
            && !s'.closed && Midway(s', keys, ms, t + 1, c, hi') && Others(s', ms, c, hi')
  {
    hide Midway, Others, PopStep, PushStep, DistinctIds;
    var met := PushAll(p.store, turn.before);
    MidwaySizes(met, keys, ms, t, c, hi);
    PopOwn(met, keys, ms, t, c, hi);
    RemoveMidway(met, keys, ms, t, c, hi);
    var rest := met.(records := met.records - {keys[t]});
    PushNone(rest);
    hide PushAll;
    if ms[t].attempts < maxAttempts {
      FailedOnceIsOther(ms, ms[t]);
      PushMidway(rest, keys, ms, t + 1, c, hi, FailedOnce(ms[t]));
    }
  }

  /** If the worst round pops each message once, it does so in the order of the listing. */
  lemma {:induction false} WorstRoundMidway(
    s: Store<Tracked>, keys: seq<Bytes>, ms: seq<Tracked>, maxAttempts: int, arrivals: seq<Tracked>, t: nat)
    requires Listed(s, keys, ms) && t < |ms| && PopsEachOnce(s, ms, maxAttempts, Worst(arrivals))
    requires Counter(s.records).Some? && Counter(s.records).value >= 0
    requires Counter(s.records).value + |arrivals| + |ms| <= MAX_INT64
    requires forall m | m in arrivals :: m !in ms
    ensures var c := Counter(s.records).value;
            var met, hi := Met(s, maxAttempts, Worst(arrivals), t), c + |arrivals| + Returning(maxAttempts, ms[..t]);
            !met.closed && Midway(met, keys, ms, t, c, hi) && Others(met, ms, c, hi)
  {
    hide Midway, Others, PopStep, PushAll, Counter, PopsEachOnce, DistinctIds, Iterate, Listed, RoundOver;
    var c, turns := Counter(s.records).value, Worst(arrivals);
    ListedOpen(s, keys, ms);
    if t == 0 {
      RoundNext(s, maxAttempts, turns, 0);
      ListedMidway(s, keys, ms);
      PushAllMidway(s, keys, ms, 0, c, c, arrivals);
    } else {
      WorstRoundMidway(s, keys, ms, maxAttempts, arrivals, t - 1);
      var hi := c + |arrivals| + Returning(maxAttempts, ms[..t - 1]);
      RoundNext(s, maxAttempts, turns, t - 1);
      PoppedSoFar(s, ms, maxAttempts, turns, t - 1);
      ReturningMonotone(maxAttempts, ms, t - 1, |ms| - 1);
      WorstIteration(RoundOver(s, maxAttempts, turns, t - 1), keys, ms, t - 1, c, hi, maxAttempts, turns(t - 1));
      ReturningNext(maxAttempts, ms, t - 1);
      PushNone(RoundOver(s, maxAttempts, turns, t).store);
    }
  }

  /** If the worst round pops each message once, no index it gives out before its last pop sorts before its keys. */
  lemma WorstRoundKeysFirst(
    s: Store<Tracked>, keys: seq<Bytes>, ms: seq<Tracked>, maxAttempts: int, arrivals: seq<Tracked>)
    requires Listed(s, keys, ms) && |keys| == |ms| > 0 && PopsEachOnce(s, ms, maxAttempts, Worst(arrivals))
    requires Counter(s.records).Some? && Counter(s.records).value >= 0
    requires Counter(s.records).value + |arrivals| + |ms| <= MAX_INT64
    requires forall m | m in arrivals :: m !in ms
    ensures KeysFirst(keys, ms, maxAttempts, Counter(s.records).value, |arrivals|)
  {
    hide Midway, Others, PopStep, PushAll, Counter, PopsEachOnce, Listed, SortsBefore;
    var c, n := Counter(s.records).value, |ms|;
    var hi := c + |arrivals| + Returning(maxAttempts, ms[..n - 1]);
    WorstRoundMidway(s, keys, ms, maxAttempts, arrivals, n - 1);
    PoppedSoFar(s, ms, maxAttempts, Worst(arrivals), n - 1);
    PopOwn(Met(s, maxAttempts, Worst(arrivals), n - 1), keys, ms, n - 1, c, hi);
  }

  // ---- exactly when ---------------------------------------------------------------------------------

  /** An identity none of the messages has. */
  function NewId(ms: seq<Tracked>): (id: nat)
    ensures forall m | m in ms :: m.id < id
  {
    if ms == [] then 0
    else
      var rest := NewId(ms[1..]);
      if ms[0].id < rest then rest else ms[0].id + 1
  }

  function NewMessages(ms: seq<Tracked>, a: nat): seq<Tracked> {
    seq(a, i requires 0 <= i => Tracked(NewId(ms) + i, 1, 1))
  }

  lemma NewMessagesAreOther(ms: seq<Tracked>, a: nat)
    ensures forall m | m in NewMessages(ms, a) :: m !in ms
  {
    forall m | m in NewMessages(ms, a) ensures m !in ms {
      var i :| 0 <= i < a && m == NewMessages(ms, a)[i];
      assert m.id == NewId(ms) + i;
    }
  }

  /** With its keys first, a round pops exactly the messages it met, in the order of the listing. */
  lemma ListedRoundPopsAll(
    s: Store<Tracked>, keys: seq<Bytes>, ms: seq<Tracked>, maxAttempts: int, turns: nat -> Turn, a: nat)
    requires Listed(s, keys, ms) && |keys| == |ms| > 0
    requires Counter(s.records).Some? && Counter(s.records).value >= 0
    requires Arriving(turns, |ms|) <= a && Counter(s.records).value + a + |ms| <= MAX_INT64
    requires KeysFirst(keys, ms, maxAttempts, Counter(s.records).value, a)
    ensures RoundOver(s, maxAttempts, turns, |ms|).popped == ms
    ensures PopsEachOnce(s, ms, maxAttempts, turns)
  {
    hide Listed, Counter, RoundOver, KeysFirst, Midway;
    var _ := ListedRoundPops(s, keys, ms, maxAttempts, turns, a, |ms|);
    assert ms[..|ms|] == ms;
  }

  /**
   Over any store, however its live indices lie: a round pops each message it met exactly once, for
   every pattern of failures and every pattern of at most a messages queued meanwhile, if and only
   if the greatest listed key sorts before each of the next a + b indices, b being how many of the
   other listed messages are below the retry limit.
   */
  lemma OnceExactlyWhenKeysFirst(
    s: Store<Tracked>, keys: seq<Bytes>, ms: seq<Tracked>, maxAttempts: int, a: nat)
    requires Listed(s, keys, ms) && ms != []
    requires Counter(s.records).value + a + |ms| <= MAX_INT64
    ensures |keys| == |ms| && Counter(s.records).Some? && Counter(s.records).value >= 0
    ensures (forall turns: nat -> Turn | Arriving(turns, |ms|) <= a :: PopsEachOnce(s, ms, maxAttempts, turns))
       <==> KeysFirst(keys, ms, maxAttempts, Counter(s.records).value, a)
  {
    hide Counter, Listed, PopsEachOnce, KeysFirst, RoundOver;
    ListedOpen(s, keys, ms);
    var c := Counter(s.records).value;
    if KeysFirst(keys, ms, maxAttempts, c, a) {
      forall turns: nat -> Turn | Arriving(turns, |ms|) <= a ensures PopsEachOnce(s, ms, maxAttempts, turns) {
        ListedRoundPopsAll(s, keys, ms, maxAttempts, turns, a);
      }
    } else {
      var arrivals := NewMessages(ms, a);
      ArrivingAtWorst(arrivals, |ms|);
      NewMessagesAreOther(ms, a);
      if PopsEachOnce(s, ms, maxAttempts, Worst(arrivals)) {
        WorstRoundKeysFirst(s, keys, ms, maxAttempts, arrivals);
      }
    }
  }

  // ---- which stores are listed --------------------------------------------------------------------------

  lemma DistinctPermuted(q: seq<Tracked>, ms: seq<Tracked>)
    requires DistinctIds(q) && multiset(q) == multiset(ms)
    ensures DistinctIds(ms)
  {
    forall i, j | 0 <= i < j < |ms| ensures ms[i].id != ms[j].id {
      assert ms[i] in multiset(ms) && ms[j] in multiset(ms);
      var p :| 0 <= p < |q| && q[p] == ms[i];
      var r :| 0 <= r < |q| && q[r] == ms[j];
      if p == r {
        OnceInDistinct(q, p);
        TwiceInSeq(ms, i, j);
      }
    }
  }

  lemma TwiceInSeq(ms: seq<Tracked>, i: nat, j: nat)
    requires i < j < |ms| && ms[i] == ms[j]
    ensures multiset(ms)[ms[i]] >= 2
  {
    assert ms == ms[..j] + [ms[j]] + ms[j + 1..];
    assert ms[..j][i] == ms[i];
  }

  lemma OnceInDistinct(q: seq<Tracked>, p: nat)
    requires DistinctIds(q) && p < |q|
    ensures multiset(q)[q[p]] == 1
  {
    assert q == q[..p] + [q[p]] + q[p + 1..];
    assert q[p] !in q[..p] && q[p] !in q[p + 1..];
  }

  /**
   Every store that runs over a new directory can leave is listed, whatever gaps there are between
   its live indices.
   */
  lemma BagIsListed(s: Store<Tracked>, q: seq<Tracked>) returns (ms: seq<Tracked>)
    requires Bag(s, Fifo(q, false)) && DistinctIds(q)
    ensures Listed(s, MessageKeys(s.records), ms) && |ms| == |q| && multiset(ms) == multiset(q)
  {
    hide Carries, MessageKeys, Counter;
    ms := BagInKeyOrder(s, Fifo(q, false));
    DistinctPermuted(q, ms);
  }
}
