/** Queries of the chat history against the plain list of what was saved. */
module HistoryProofs {
  import opened ByteOrder
  import opened LevelDb
  import opened ChatHistory

  function Sanitized(r: Record): Record {
    r.(text := Sanitize(r.text))
  }

  function KeyOf(r: Record): Bytes {
    MakeKey(r.chatID, r.timestamp)
  }

  /** The database after a list of successful saves. */
  function Stored(log: seq<Record>): map<Bytes, Value> {
    if log == [] then map[]
    else
      var r := log[|log| - 1];
      Stored(log[..|log| - 1])[KeyOf(r) := Json(Sanitized(r))]
  }

  predicate SameSlot(r: Record, s: Record) {
    r.chatID == s.chatID && r.timestamp == s.timestamp
  }

  /** Saves for the same chat and time overwrite each other; i is the last of its kind. */
  ghost predicate IsLast(log: seq<Record>, i: int) {
    0 <= i < |log| && forall j :: i < j < |log| ==> !SameSlot(log[j], log[i])
  }

  ghost predicate SavedLast(log: seq<Record>, r: Record) {
    exists i :: 0 <= i < |log| && IsLast(log, i) && r == Sanitized(log[i])
  }

  /** Every value decodes and sits under the key of its own record. */
  ghost predicate WellKeyed(records: map<Bytes, Value>) {
    forall k :: k in records ==> records[k].Json? && k == KeyOf(records[k].record)
  }

  ghost predicate Holds(records: map<Bytes, Value>, r: Record) {
    KeyOf(r) in records && records[KeyOf(r)] == Json(r)
  }

  ghost predicate AscendingInTime(rs: seq<Record>) {
    forall i, j :: 0 <= i < j < |rs| ==> rs[i].timestamp < rs[j].timestamp
  }

  predicate InKeyRange(t: int64, start: int64, end: int64) {
    Unsigned(start) <= Unsigned(t) < Unsigned(end)
  }

  // ---- saves -----------------------------------------------------------------------------------

  lemma {:induction false} StoredLastSaves(log: seq<Record>)
    ensures WellKeyed(Stored(log))
    ensures forall r :: Holds(Stored(log), r) <==> SavedLast(log, r)
  {
    hide MakeKey;
    if log == [] {
      forall r ensures !SavedLast(log, r) {}
    } else {
      var front, last := log[..|log| - 1], log[|log| - 1];
      StoredLastSaves(front);
      forall r ensures Holds(Stored(log), r) <==> SavedLast(log, r) {
        SavedLastOfLonger(log, r);
        KeyOrder(r.chatID, r.timestamp, last.chatID, last.timestamp);
      }
    }
  }

  /**
   What a save leaves in the store until the next one for its chat and time: the record with its
   text, or, when that has a replacement character, with the notice of a parse failure.
   */
  lemma SavedRecord(log: seq<Record>, i: nat)
    requires i < |log| && IsLast(log, i)
    ensures var r, key := log[i], MakeKey(log[i].chatID, log[i].timestamp);
            && key in Stored(log)
            && Stored(log)[key]
               == Json(if '\U{FFFD}' in r.text then r.(text := "Emoji 解析失败") else r)
  {
    hide MakeKey, IsLast;
    StoredLastSaves(log);
    assert SavedLast(log, Sanitized(log[i]));
    assert Holds(Stored(log), Sanitized(log[i]));
  }

  /** No stored text has a replacement character, whatever was saved. */
  lemma StoredTextsAreClean(log: seq<Record>, key: Bytes)
    requires key in Stored(log)
    ensures Stored(log)[key].Json? && '\U{FFFD}' !in Stored(log)[key].record.text
  {
    hide MakeKey, IsLast;
    StoredLastSaves(log);
    var r := Stored(log)[key].record;
    assert Holds(Stored(log), r);
    var i :| 0 <= i < |log| && IsLast(log, i) && r == Sanitized(log[i]);
    NoticeIsClean();
  }

  lemma NoticeIsClean()
    ensures '\U{FFFD}' !in PARSE_FAILURE
  {
    assert forall i | 0 <= i < |PARSE_FAILURE| :: PARSE_FAILURE[i] != '\U{FFFD}';
  }

  lemma IsLastOfLonger(log: seq<Record>, i: int)
    requires log != []
    ensures var front, last := log[..|log| - 1], log[|log| - 1];
            IsLast(log, i) <==> i == |front| || (IsLast(front, i) && !SameSlot(last, front[i]))
  {
    hide SameSlot;
    var front := log[..|log| - 1];
    assert forall j | 0 <= j < |front| :: front[j] == log[j];
  }

  lemma SavedLastOfLonger(log: seq<Record>, r: Record)
    requires log != []
    ensures var front, last := log[..|log| - 1], log[|log| - 1];
            SavedLast(log, r) <==> if SameSlot(last, r) then r == Sanitized(last) else SavedLast(front, r)
  {
    hide IsLast;
    var front, last := log[..|log| - 1], log[|log| - 1];
    IsLastOfLonger(log, |front|);
    assert log[|front|] == last;
    if SavedLast(log, r) {
      var i :| 0 <= i < |log| && IsLast(log, i) && r == Sanitized(log[i]);
      IsLastOfLonger(log, i);
    }
    if SavedLast(front, r) {
      var i :| 0 <= i < |front| && IsLast(front, i) && r == Sanitized(front[i]);
      IsLastOfLonger(log, i);
      assert log[i] == front[i];
    }
  }

  // ---- what a range holds --------------------------------------------------------------------------

  lemma {:induction false} DecodeAt(records: map<Bytes, Value>, keys: seq<Bytes>)
    requires forall k :: k in keys ==> k in records && records[k].Json?
    ensures Decode(records, keys).Some? && |Decode(records, keys).value| == |keys|
    ensures forall i :: 0 <= i < |keys| ==> Decode(records, keys).value[i] == records[keys[i]].record
  {
    if keys != [] {
      assert keys[|keys| - 1] in keys;
      DecodeAt(records, keys[..|keys| - 1]);
    }
  }

  lemma {:induction false} DecodeConcat(records: map<Bytes, Value>, a: seq<Bytes>, b: seq<Bytes>)
    requires forall k :: k in a || k in b ==> k in records
    ensures var x, y := Decode(records, a), Decode(records, b);
            Decode(records, a + b) == if x.None? || y.None? then None else Some(x.value + y.value)
  {
    if b == [] {
      assert a + b == a;
      assert Decode(records, a).Some? ==> Decode(records, a).value + [] == Decode(records, a).value;
    } else {
      assert (a + b)[..|a + b| - 1] == a + b[..|b| - 1];
      DecodeConcat(records, a, b[..|b| - 1]);
      var x, y := Decode(records, a), Decode(records, b[..|b| - 1]);
      var last := records[b[|b| - 1]];
      if x.Some? && y.Some? && last.Json? {
        assert (x.value + y.value) + [last.record] == x.value + (y.value + [last.record]);
      }
    }
  }

  lemma KeyInRange(chatID: int64, start: int64, end: int64, r: Record)
    ensures Leq(MakeKey(chatID, start), KeyOf(r)) && Less(KeyOf(r), MakeKey(chatID, end))
       <==> r.chatID == chatID && InKeyRange(r.timestamp, start, end)
  {
    KeyOrder(chatID, start, r.chatID, r.timestamp);
    KeyOrder(r.chatID, r.timestamp, chatID, end);
  }

  /**
   A range query returns exactly the records of its chat whose time, as an unsigned number, is
   in the range, in ascending unsigned order; no other chat's record, whatever the sign of its id.
   */
  lemma QueryByUnsignedTime(records: map<Bytes, Value>, chatID: int64, start: int64, end: int64)
    requires WellKeyed(records)
    ensures Query(records, chatID, start, end).Some?
    ensures var rs := Query(records, chatID, start, end).value;
            && (forall i, j :: 0 <= i < j < |rs| ==> Unsigned(rs[i].timestamp) < Unsigned(rs[j].timestamp))
            && (forall r :: r in rs <==> Holds(records, r) && r.chatID == chatID && InKeyRange(r.timestamp, start, end))
  {
    hide Leq, Sorted, MakeKey;
    var keySet := KeysBetween(records, MakeKey(chatID, start), MakeKey(chatID, end));
    var keys := Sorted(keySet);
    SortedIsAscending(keySet);
    DecodeAt(records, keys);
    var rs := Query(records, chatID, start, end).value;
    forall i | 0 <= i < |rs|
      ensures keys[i] == KeyOf(rs[i]) && Holds(records, rs[i])
      ensures rs[i].chatID == chatID && InKeyRange(rs[i].timestamp, start, end)
    {
      assert keys[i] in keys;
      KeyInRange(chatID, start, end, rs[i]);
    }
    forall i, j | 0 <= i < j < |rs| ensures Unsigned(rs[i].timestamp) < Unsigned(rs[j].timestamp) {
      assert Less(keys[i], keys[j]);
      KeyOrder(chatID, rs[i].timestamp, chatID, rs[j].timestamp);
      KeyOrder(chatID, rs[j].timestamp, chatID, rs[i].timestamp);
    }
    forall r | Holds(records, r) && r.chatID == chatID && InKeyRange(r.timestamp, start, end) ensures r in rs {
      KeyInRange(chatID, start, end, r);
      assert KeyOf(r) in keys;
      var i :| 0 <= i < |keys| && keys[i] == KeyOf(r);
      assert rs[i] == r;
    }
  }

  /** A query fails exactly when one of the values in its range does not decode. */
  lemma QueryFailsExactly(records: map<Bytes, Value>, chatID: int64, start: int64, end: int64)
    ensures Query(records, chatID, start, end).None?
       <==> exists k :: k in KeysBetween(records, MakeKey(chatID, start), MakeKey(chatID, end))
                     && records[k].Undecodable?
  {
    hide Sorted, MakeKey, Decode, Leq;
    var keySet := KeysBetween(records, MakeKey(chatID, start), MakeKey(chatID, end));
    DecodeFailsExactly(records, Sorted(keySet));
  }

  lemma {:induction false} DecodeFailsExactly(records: map<Bytes, Value>, keys: seq<Bytes>)
    requires forall k :: k in keys ==> k in records
    ensures Decode(records, keys).None? <==> exists k :: k in keys && records[k].Undecodable?
  {
    if keys != [] {
      var front, last := keys[..|keys| - 1], keys[|keys| - 1];
      assert keys == front + [last];
      DecodeFailsExactly(records, front);
      assert forall k :: k in keys <==> k in front || k == last;
    }
  }

  // ---- against the log --------------------------------------------------------------------------

  /** The answer a plain filter of the log gives: the last saves of the chat in the range, by time. */
  ghost predicate AnswersLikeFilter(log: seq<Record>, chatID: int64, start: int64, end: int64) {
    var answer := Query(Stored(log), chatID, start, end);
    && answer.Some?
    && AscendingInTime(answer.value)
    && (forall r :: r in answer.value <==> SavedLast(log, r) && r.chatID == chatID && start <= r.timestamp < end)
  }

  /** For times on one side of the epoch a query is the filter, whatever was saved. */
  lemma QueryIsFilter(log: seq<Record>, chatID: int64, start: int64, end: int64)
    requires (start < 0) == (end < 0)
    ensures AnswersLikeFilter(log, chatID, start, end)
  {
    hide Stored, Query, Sorted;
    StoredLastSaves(log);
    QueryByUnsignedTime(Stored(log), chatID, start, end);
  }

  /**
   Across the epoch the record at the start of the range is returned exactly when it should not be:
   missed in a range from before the epoch to after it, and returned in one from after to before.
   */
  lemma EpochStraddlingQuery(r: Record, end: int64)
    requires (r.timestamp < 0) != (end < 0)
    ensures var answer := Query(Stored([r]), r.chatID, r.timestamp, end);
            answer.Some? && (Sanitized(r) in answer.value <==> !(r.timestamp < end))
    ensures !AnswersLikeFilter([r], r.chatID, r.timestamp, end)
  {
    hide Stored, Query, Sorted;
    StoredLastSaves([r]);
    QueryByUnsignedTime(Stored([r]), r.chatID, r.timestamp, end);
    var s := Sanitized(r);
    assert IsLast([r], 0) && s == Sanitized([r][0]);
    assert SavedLast([r], s);
    assert Holds(Stored([r]), s);
  }

  /** A query is right for every history exactly when its range does not straddle the epoch. */
  lemma QueryRightExactlyOnOneSide(chatID: int64, start: int64, end: int64)
    ensures (forall log :: AnswersLikeFilter(log, chatID, start, end)) <==> (start < 0) == (end < 0)
  {
    if (start < 0) == (end < 0) {
      forall log ensures AnswersLikeFilter(log, chatID, start, end) {
        QueryIsFilter(log, chatID, start, end);
      }
    } else {
      var r := Record(0, chatID, "", "", "", start);
      EpochStraddlingQuery(r, end);
    }
  }

  /** The answers for two adjacent ranges, one after the other, are the answer for the joint range. */
  predicate Adjoin(records: map<Bytes, Value>, chatID: int64, a: int64, b: int64, c: int64) {
    var x, y := Query(records, chatID, a, b), Query(records, chatID, b, c);
    Query(records, chatID, a, c) == if x.None? || y.None? then None else Some(x.value + y.value)
  }

  /** Adjacent ranges on one side of the epoch adjoin in every store, undecodable values included. */
  lemma AdjacentQueries(records: map<Bytes, Value>, chatID: int64, a: int64, b: int64, c: int64)
    requires a <= b <= c && (a < 0) == (c < 0)
    ensures Adjoin(records, chatID, a, b, c)
  {
    hide Leq, Sorted, MakeKey;
    var ka, kb, kc := MakeKey(chatID, a), MakeKey(chatID, b), MakeKey(chatID, c);
    KeyOrder(chatID, a, chatID, b);
    KeyOrder(chatID, b, chatID, c);
    var low, high := KeysBetween(records, ka, kb), KeysBetween(records, kb, kc);
    forall x, y | x in low && y in high ensures Less(x, y) {
      LeqTransitive(x, kb, y);
      if x == y { LeqAntisymmetric(x, kb); }
    }
    SplitRange(records, ka, kb, kc);
    SortedConcat(low, high);
    DecodeConcat(records, Sorted(low), Sorted(high));
  }

  lemma EmptyRange(records: map<Bytes, Value>, chatID: int64, a: int64)
    ensures Query(records, chatID, a, a) == Some([])
  {
    hide MakeKey, Leq;
    var k := MakeKey(chatID, a);
    forall x | x in KeysBetween(records, k, k) ensures false {
      LeqAntisymmetric(x, k);
    }
    assert KeysBetween(records, k, k) == {};
  }

  lemma EmptyRangeAdjoins(records: map<Bytes, Value>, chatID: int64, a: int64, b: int64, c: int64)
    requires a == b || b == c
    ensures Adjoin(records, chatID, a, b, c)
  {
    hide Query;
    EmptyRange(records, chatID, b);
    var all := Query(records, chatID, a, c);
    assert all.Some? ==> [] + all.value == all.value && all.value + [] == all.value;
  }

  /** Ranges that meet across the epoch: a record at the start of the proper one is in one answer only. */
  lemma StraddlingDoNotAdjoin(chatID: int64, a: int64, b: int64, c: int64)
    requires a < b < c && a < 0 <= c
    ensures !Adjoin(Stored([Record(0, chatID, "", "", "", if b < 0 then a else b)]), chatID, a, b, c)
  {
    hide Query, Stored, Sorted;
    var r := Record(0, chatID, "", "", "", if b < 0 then a else b);
    var records := Stored([r]);
    StoredLastSaves([r]);
    assert IsLast([r], 0) && Sanitized(r) == Sanitized([r][0]);
    assert SavedLast([r], Sanitized(r));
    assert Holds(records, Sanitized(r));
    QueryByUnsignedTime(records, chatID, a, b);
    QueryByUnsignedTime(records, chatID, b, c);
    QueryByUnsignedTime(records, chatID, a, c);
    var x, y := Query(records, chatID, a, b).value, Query(records, chatID, b, c).value;
    assert Sanitized(r) in x || Sanitized(r) in y;
    assert Sanitized(r) in x + y && Sanitized(r) !in Query(records, chatID, a, c).value;
  }

  /** Adjacent ranges adjoin in every store exactly when they are on one side of the epoch, or one is empty. */
  lemma AdjacentExactlyOnOneSide(chatID: int64, a: int64, b: int64, c: int64)
    requires a <= b <= c
    ensures (forall records :: Adjoin(records, chatID, a, b, c)) <==> (a < 0) == (c < 0) || a == b || b == c
  {
    hide Adjoin;
    if (a < 0) == (c < 0) || a == b || b == c {
      forall records ensures Adjoin(records, chatID, a, b, c) {
        if a == b || b == c {
          EmptyRangeAdjoins(records, chatID, a, b, c);
        } else {
          AdjacentQueries(records, chatID, a, b, c);
        }
      }
    } else {
      StraddlingDoNotAdjoin(chatID, a, b, c);
    }
  }

  lemma SplitRange(records: map<Bytes, Value>, ka: Bytes, kb: Bytes, kc: Bytes)
    requires Leq(ka, kb) && Leq(kb, kc)
    ensures KeysBetween(records, ka, kc) == KeysBetween(records, ka, kb) + KeysBetween(records, kb, kc)
  {
    hide Leq;
    forall k | k in records
      ensures Leq(ka, k) && Less(k, kc) <==> (Leq(ka, k) && Less(k, kb)) || (Leq(kb, k) && Less(k, kc))
    {
      LeqTotal(k, kb);
      LeqReflexive(kb);
      if Leq(kb, k) { LeqTransitive(ka, kb, k); }
      if Leq(k, kb) {
        LeqTransitive(k, kb, kc);
        if k == kc { LeqAntisymmetric(kb, kc); }
      }
    }
  }

  // ---- by user -------------------------------------------------------------------------------------

  lemma {:induction false} OfUserFilters(rs: seq<Record>, user: string)
    requires AscendingInTime(rs)
    ensures AscendingInTime(OfUser(rs, user))
    ensures forall r :: r in OfUser(rs, user) <==> r in rs && r.fromUser == user
  {
    if rs != [] {
      var front, last := rs[..|rs| - 1], rs[|rs| - 1];
      assert rs == front + [last];
      assert forall i | 0 <= i < |front| :: front[i] == rs[i];
      OfUserFilters(front, user);
      var kept := OfUser(front, user);
      forall i | 0 <= i < |kept| ensures kept[i].timestamp < last.timestamp {
        assert kept[i] in front;
        var j :| 0 <= j < |front| && front[j] == kept[i];
        assert rs[j].timestamp < rs[|front|].timestamp;
      }
    }
  }

  /** The per-user query keeps that user's records of the full answer, in order, and drops the others. */
  lemma UserQueryIsFilter(log: seq<Record>, chatID: int64, user: string, start: int64, end: int64)
    requires (start < 0) == (end < 0)
    ensures Query(Stored(log), chatID, start, end).Some?
    ensures var answer := OfUser(Query(Stored(log), chatID, start, end).value, user);
            && AscendingInTime(answer)
            && (forall r :: r in answer <==>
                  SavedLast(log, r) && r.chatID == chatID && start <= r.timestamp < end && r.fromUser == user)
  {
    hide Query, Stored, SavedLast;
    QueryIsFilter(log, chatID, start, end);
    OfUserFilters(Query(Stored(log), chatID, start, end).value, user);
  }
}
