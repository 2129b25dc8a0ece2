/** The one-off repair of stored chat records: missing group names and undecodable emoji. */
module Migration {
  import opened ByteOrder
  import opened LevelDb
  import opened ChatHistory

  const BATCH := 1000

  type Records = map<Bytes, Value>
  /** The configured group names. */
  type Names = map<int64, string>

  predicate NeedsUpdate(r: Record) {
    r.groupName == "" || Sanitize(r.text) != r.text
  }

  /** Go's map lookup: the empty name for a chat that is not configured. */
  function NameOf(names: Names, chatID: int64): string {
    if chatID in names then names[chatID] else ""
  }

  function Repaired(names: Names, r: Record): Record {
    r.(groupName := if r.groupName == "" then NameOf(names, r.chatID) else r.groupName, text := Sanitize(r.text))
  }

  /** The per-record repair; what does not decode stays as it is. */
  function RepairedValue(names: Names, v: Value): Value {
    if v.Json? then Json(Repaired(names, v.record)) else v
  }

  /** The repair of a whole database, record by record. */
  function Migrated(names: Names, records: Records): Records {
    map k | k in records :: RepairedValue(names, records[k])
  }

  predicate IsUpdate(v: Value) {
    v.Json? && NeedsUpdate(v.record)
  }

  /** The run so far: the database, the puts not yet written, the two statistics, and the writes made. */
  datatype Progress = Progress(records: Records, batch: seq<Put<Value>>, total: nat, updated: nat, writes: nat)

  /** Which batch writes succeed, by number, and which records encode, by key. */
  datatype Faults = Faults(writeOk: nat -> bool, encodeOk: Bytes -> bool)

  ghost predicate Faultless(faults: Faults) {
    (forall w :: faults.writeOk(w)) && (forall k :: faults.encodeOk(k))
  }

  function Flush(p: Progress, faults: Faults): Progress {
    p.(records := if faults.writeOk(p.writes) then ApplyBatch(p.records, p.batch) else p.records,
       batch := [], writes := p.writes + 1)
  }

  function OneRecord(names: Names, key: Bytes, v: Value, dryRun: bool, faults: Faults, p: Progress)
    : Progress
  {
    var p1 := p.(total := p.total + 1);
    if !IsUpdate(v) then p1
    else if dryRun || !faults.encodeOk(key) then p1.(updated := p.updated + 1)
    else
      var p2 := p1.(updated := p.updated + 1, batch := p.batch + [Put(key, Json(Repaired(names, v.record)))]);
      if p2.updated % BATCH == 0 then Flush(p2, faults) else p2
  }

  /** The loop over a snapshot after its first n keys; a process killed there leaves its records behind. */
  function Loop(names: Names, snapshot: Records, keys: seq<Bytes>, dryRun: bool, faults: Faults, n: nat)
    : Progress
    requires n <= |keys| && forall k :: k in keys ==> k in snapshot
  {
    if n == 0 then Progress(snapshot, [], 0, 0, 0)
    else
      OneRecord(names, keys[n - 1], snapshot[keys[n - 1]], dryRun, faults,
                Loop(names, snapshot, keys, dryRun, faults, n - 1))
  }

  /** A run whose iterator ends or fails after n records, with the last flush. */
  function Ended(names: Names, snapshot: Records, dryRun: bool, faults: Faults, n: nat): Progress {
    var p := Loop(names, snapshot, Sorted(snapshot.Keys), dryRun, faults, Min(n, |snapshot|));
    if !dryRun && p.batch != [] then Flush(p, faults) else p
  }

  function Min(m: nat, n: nat): nat {
    if m <= n then m else n
  }

  /** A run that reaches the last record. */
  function Complete(names: Names, snapshot: Records, dryRun: bool, faults: Faults): Progress {
    Ended(names, snapshot, dryRun, faults, |snapshot|)
  }

  /**
   What the migration is for. Every record that decodes keeps its identity, chat, user and time, and
   its group name if it has one; an empty name becomes that of the chat, if it is configured; a text
   with a replacement character becomes the notice of a parse failure.
   */
  predicate NamedAndClean(names: Names, before: Records, after: Records) {
    && after.Keys == before.Keys
    && forall k | k in before ::
         if before[k].Undecodable? then after[k] == before[k]
         else
           && after[k].Json?
           && var r, t := before[k].record, after[k].record;
              && t.id == r.id && t.chatID == r.chatID && t.fromUser == r.fromUser && t.timestamp == r.timestamp
              && t.groupName == (if r.groupName != "" then r.groupName
                                 else if r.chatID in names then names[r.chatID]
                                 else "")
              && t.text == if '\U{FFFD}' in r.text then "Emoji 解析失败" else r.text
  }

  /** The keys of the records that lack a group name or have a replacement character. */
  function NeedyKeys(records: Records): set<Bytes> {
    set k | k in records && records[k].Json?
            && (records[k].record.groupName == "" || '\U{FFFD}' in records[k].record.text)
  }

  /** The migration as main runs it, over an iterator that yields at most the first readable records. */
  method Migrate(db: Database<Value>, groupNames: Names, dryRun: bool, faults: Faults, readable: nat)
    returns (total: nat, updated: nat)
    modifies db
    ensures var p := Ended(groupNames, old(db.records), dryRun, faults, readable);
            db.records == p.records && total == p.total && updated == p.updated
    ensures dryRun ==> db.records == old(db.records)
    ensures !dryRun && Faultless(faults) && readable >= |old(db.records)| ==>
              NamedAndClean(groupNames, old(db.records), db.records)
    ensures readable >= |old(db.records)| ==>
              total == |old(db.records)| && updated == |NeedyKeys(old(db.records))|
  {
    hide Sorted, ApplyBatch, Sanitize, NamedAndClean, NeedyKeys, Faultless;
    total, updated := 0, 0;
    ghost var snapshot := db.records;
    var values := db.records;
    var iter := db.Iterate();
    assert |iter| == |snapshot.Keys| == |snapshot|;
    var batch: seq<Put<Value>> := [];
    var writes := 0;
    var i := 0;
    while i < |iter| && i < readable
      invariant i <= Min(readable, |iter|) && values == snapshot
      invariant forall k :: k in iter ==> k in snapshot
      invariant Progress(db.records, batch, total, updated, writes)
             == Loop(groupNames, snapshot, iter, dryRun, faults, i)
    {
      assert iter[i] in iter;
      total := total + 1;
      var key, value := iter[i], values[iter[i]];
      i := i + 1;
      if value.Undecodable? {
        continue;
      }
      var message := value.record;
      var needsUpdate := false;
      if message.groupName == "" {
        message := message.(groupName := NameOf(groupNames, message.chatID));
        needsUpdate := true;
      }
      var sanitizedText := Sanitize(message.text);
      if sanitizedText != message.text {
        message := message.(text := sanitizedText);
        needsUpdate := true;
      }
      assert needsUpdate == NeedsUpdate(value.record);
      assert needsUpdate ==> message == Repaired(groupNames, value.record);
      hide NeedsUpdate, Repaired;
      if needsUpdate {
        updated := updated + 1;
        if !faults.encodeOk(key) {
          continue;
        }
        if !dryRun {
          batch := batch + [Put(key, Json(message))];
          if updated % BATCH == 0 {
            db.Write(batch, faults.writeOk(writes));
            writes := writes + 1;
            batch := [];
          }
        }
      }
    }
    if !dryRun && |batch| > 0 {
      db.Write(batch, faults.writeOk(writes));
    }
    MigrateOutcome(groupNames, snapshot, dryRun, faults, readable);
  }

  // ---- the batched loop as a map ----------------------------------------------------------------

  lemma SanitizeIdempotent(text: string)
    ensures Sanitize(Sanitize(text)) == Sanitize(text)
  {
    assert forall i | 0 <= i < |PARSE_FAILURE| :: PARSE_FAILURE[i] != '\U{FFFD}';
  }

  /** What needs no update is what the repair leaves alone, up to names of unconfigured chats. */
  lemma RepairedUnchanged(names: Names, v: Value)
    ensures !IsUpdate(v) ==> RepairedValue(names, v) == v
    ensures RepairedValue(names, RepairedValue(names, v)) == RepairedValue(names, v)
  {
    if v.Json? { SanitizeIdempotent(v.record.text); }
  }

  /** The database once the first n keys are repaired. */
  function MigratedPrefix(names: Names, snapshot: Records, keys: seq<Bytes>, n: nat): Records
    requires n <= |keys|
  {
    map k | k in snapshot :: if k in keys[..n] then RepairedValue(names, snapshot[k]) else snapshot[k]
  }

  lemma ApplyOneMore<V>(records: map<Bytes, V>, batch: seq<Put<V>>, p: Put<V>)
    ensures ApplyBatch(records, batch + [p]) == ApplyBatch(records, batch)[p.key := p.value]
  {
    assert (batch + [p])[..|batch|] == batch;
  }

  lemma PrefixNext(names: Names, snapshot: Records, keys: seq<Bytes>, n: nat)
    requires n < |keys| && keys[n] in snapshot
    ensures MigratedPrefix(names, snapshot, keys, n + 1)
         == MigratedPrefix(names, snapshot, keys, n)[keys[n] := RepairedValue(names, snapshot[keys[n]])]
    ensures !IsUpdate(snapshot[keys[n]]) ==>
              MigratedPrefix(names, snapshot, keys, n + 1) == MigratedPrefix(names, snapshot, keys, n)
  {
    hide RepairedValue, IsUpdate;
    RepairedUnchanged(names, snapshot[keys[n]]);
    assert keys[..n + 1] == keys[..n] + [keys[n]];
  }

  lemma {:induction false} LoopMigratesPrefix(
    names: Names, snapshot: Records, keys: seq<Bytes>, faults: Faults, n: nat)
    requires n <= |keys| && forall k :: k in keys ==> k in snapshot
    requires Faultless(faults)
    ensures var p := Loop(names, snapshot, keys, false, faults, n);
            ApplyBatch(p.records, p.batch) == MigratedPrefix(names, snapshot, keys, n)
  {
    hide ApplyBatch, OneRecord, IsUpdate, RepairedValue;
    if n == 0 {
      NothingToApply(snapshot);
      assert MigratedPrefix(names, snapshot, keys, 0) == snapshot;
    } else {
      hide MigratedPrefix;
      LoopMigratesPrefix(names, snapshot, keys, faults, n - 1);
      PrefixNext(names, snapshot, keys, n - 1);
      OneRecordApplied(names, keys[n - 1], snapshot[keys[n - 1]], faults,
                       Loop(names, snapshot, keys, false, faults, n - 1));
    }
  }

  lemma NothingToApply(records: Records)
    ensures ApplyBatch(records, []) == records
  {
  }

  /** Written and pending puts together gain the repair of the record, whether or not a batch filled up. */
  lemma OneRecordApplied(names: Names, key: Bytes, v: Value, faults: Faults, p: Progress)
    requires Faultless(faults)
    ensures var q := OneRecord(names, key, v, false, faults, p);
            var applied := ApplyBatch(p.records, p.batch);
            ApplyBatch(q.records, q.batch) == if IsUpdate(v) then applied[key := RepairedValue(names, v)] else applied
  {
    hide ApplyBatch;
    if IsUpdate(v) {
      var put := Put(key, Json(Repaired(names, v.record)));
      ApplyOneMore(p.records, p.batch, put);
      NothingToApply(ApplyBatch(p.records, p.batch + [put]));
    }
  }

  /** With successful writes the batched migration is the per-record map over the whole database. */
  lemma MigrationIsRecordMap(names: Names, snapshot: Records, faults: Faults)
    requires Faultless(faults)
    ensures Complete(names, snapshot, false, faults).records == Migrated(names, snapshot)
  {
    hide Sorted, Loop, ApplyBatch, RepairedValue;
    var keys := Sorted(snapshot.Keys);
    assert |keys| == |snapshot.Keys| == |snapshot|;
    LoopMigratesPrefix(names, snapshot, keys, faults, |snapshot|);
    NothingToApply(Loop(names, snapshot, keys, false, faults, |snapshot|).records);
    assert keys[..|snapshot|] == keys;
  }

  /** Said of the records themselves. */
  lemma MigratedIsNamedAndClean(names: Names, snapshot: Records)
    ensures NamedAndClean(names, snapshot, Migrated(names, snapshot))
  {
  }

  lemma UpdateIsNeedy(v: Value)
    ensures IsUpdate(v) <==> v.Json? && (v.record.groupName == "" || '\U{FFFD}' in v.record.text)
  {
    assert forall i | 0 <= i < |PARSE_FAILURE| :: PARSE_FAILURE[i] != '\U{FFFD}';
  }

  lemma {:induction false} UpdatesCountNeedy(names: Names, snapshot: Records, keys: seq<Bytes>, n: nat)
    requires n <= |keys| && Ascending(keys) && forall k :: k in keys ==> k in snapshot
    ensures |Updates(names, snapshot, keys, n)| == |set k | k in keys[..n] && IsUpdate(snapshot[k])|
  {
    hide IsUpdate, RepairedValue, Leq;
    var needy := set k | k in keys[..n] && IsUpdate(snapshot[k]);
    if n == 0 {
      assert needy == {};
    } else {
      UpdatesCountNeedy(names, snapshot, keys, n - 1);
      OneMoreKey(snapshot, keys, n);
    }
  }

  lemma OneMoreKey(snapshot: Records, keys: seq<Bytes>, n: nat)
    requires 0 < n <= |keys| && Ascending(keys) && forall k :: k in keys ==> k in snapshot
    ensures |set k | k in keys[..n] && IsUpdate(snapshot[k])|
         == |set k | k in keys[..n - 1] && IsUpdate(snapshot[k])| + if IsUpdate(snapshot[keys[n - 1]]) then 1 else 0
  {
    hide IsUpdate, Leq;
    var front := set k | k in keys[..n - 1] && IsUpdate(snapshot[k]);
    var last := keys[n - 1];
    assert keys[..n] == keys[..n - 1] + [last];
    assert (set k | k in keys[..n] && IsUpdate(snapshot[k])) == front + if IsUpdate(snapshot[last]) then {last} else {};
    forall i | 0 <= i < n - 1 ensures keys[i] != last { assert Less(keys[i], keys[n - 1]); }
  }

  /** The numbers and the database that a run leaves, without the functions that compute them. */
  lemma MigrateOutcome(names: Names, snapshot: Records, dryRun: bool, faults: Faults, readable: nat)
    ensures var p := Ended(names, snapshot, dryRun, faults, readable);
            && (dryRun ==> p.records == snapshot)
            && (!dryRun && Faultless(faults) && readable >= |snapshot| ==>
                  NamedAndClean(names, snapshot, p.records))
            && (readable >= |snapshot| ==> p.total == |snapshot| && p.updated == |NeedyKeys(snapshot)|)
  {
    hide Sorted, Loop, Leq, ApplyBatch, Updates, IsUpdate, RepairedValue, NamedAndClean, Migrated, Faultless;
    var keys, n := Sorted(snapshot.Keys), Min(readable, |snapshot|);
    if dryRun { DryRunWritesNothing(names, snapshot, keys, faults, n); }
    LoopCounts(names, snapshot, keys, dryRun, faults, n);
    if readable >= |snapshot| {
      AllNeedy(names, snapshot);
      if !dryRun && Faultless(faults) {
        MigrationIsRecordMap(names, snapshot, faults);
        MigratedIsNamedAndClean(names, snapshot);
      }
    }
  }

  lemma AllNeedy(names: Names, snapshot: Records)
    ensures var keys := Sorted(snapshot.Keys);
            |Updates(names, snapshot, keys, |snapshot|)| == |NeedyKeys(snapshot)|
  {
    hide Sorted, Leq, Updates, IsUpdate;
    var keys := Sorted(snapshot.Keys);
    SortedIsAscending(snapshot.Keys);
    UpdatesCountNeedy(names, snapshot, keys, |snapshot|);
    assert keys[..|snapshot|] == keys;
    forall k | k in snapshot
      ensures IsUpdate(snapshot[k]) <==> k in NeedyKeys(snapshot)
    {
      UpdateIsNeedy(snapshot[k]);
    }
    assert (set k | k in keys && IsUpdate(snapshot[k])) == NeedyKeys(snapshot);
  }

  /** All the puts the first n keys call for. */
  function Updates(names: Names, snapshot: Records, keys: seq<Bytes>, n: nat): seq<Put<Value>>
    requires n <= |keys| && forall k :: k in keys ==> k in snapshot
  {
    if n == 0 then []
    else
      var key := keys[n - 1];
      Updates(names, snapshot, keys, n - 1) +
      (if IsUpdate(snapshot[key]) then [Put(key, RepairedValue(names, snapshot[key]))] else [])
  }

  /** Whatever fails, and in a dry run as well, the statistics count the records and the updates. */
  lemma {:induction false} LoopCounts(
    names: Names, snapshot: Records, keys: seq<Bytes>, dryRun: bool, faults: Faults, n: nat)
    requires n <= |keys| && forall k :: k in keys ==> k in snapshot
    ensures var p := Loop(names, snapshot, keys, dryRun, faults, n);
            p.total == n && p.updated == |Updates(names, snapshot, keys, n)|
  {
    hide IsUpdate, RepairedValue, ApplyBatch, Repaired;
    if n > 0 {
      LoopCounts(names, snapshot, keys, dryRun, faults, n - 1);
    }
  }

  /**
   The pending batch is the updates since the last full thousand, whether or not writes succeeded.
   Every record has to encode: one that does not is counted, and when it is the thousandth the batch
   waits for the next thousand.
   */
  lemma {:induction false} PendingBatch(names: Names, snapshot: Records, keys: seq<Bytes>, faults: Faults, n: nat)
    requires n <= |keys| && forall k :: k in keys ==> k in snapshot
    requires forall k :: faults.encodeOk(k)
    ensures var p, all := Loop(names, snapshot, keys, false, faults, n), Updates(names, snapshot, keys, n);
            && p.total == n && p.updated == |all| && p.writes == |all| / 1000
            && p.batch == all[|all| - |all| % 1000..]
  {
    hide OneRecord, IsUpdate, RepairedValue;
    if n > 0 {
      PendingBatch(names, snapshot, keys, faults, n - 1);
      var key := keys[n - 1];
      var p, all := Loop(names, snapshot, keys, false, faults, n - 1), Updates(names, snapshot, keys, n - 1);
      assert Loop(names, snapshot, keys, false, faults, n) == OneRecord(names, key, snapshot[key], false, faults, p);
      assert Updates(names, snapshot, keys, n)
          == all + if IsUpdate(snapshot[key]) then [Put(key, RepairedValue(names, snapshot[key]))] else [];
      hide Loop, Updates;
      OneRecordPends(names, key, snapshot[key], faults, p, all);
    }
  }

  lemma OneRecordPends(names: Names, key: Bytes, v: Value, faults: Faults, p: Progress, all: seq<Put<Value>>)
    requires p.updated == |all| && p.writes == |all| / BATCH && p.batch == all[|all| - |all| % BATCH..]
    requires faults.encodeOk(key)
    ensures var q := OneRecord(names, key, v, false, faults, p);
            var longer := all + if IsUpdate(v) then [Put(key, RepairedValue(names, v))] else [];
            && q.total == p.total + 1 && q.updated == |longer| && q.writes == |longer| / BATCH
            && q.batch == longer[|longer| - |longer| % BATCH..]
  {
    if IsUpdate(v) {
      hide ApplyBatch, Sanitize, Repaired;
      SinceLastThousand(all, Put(key, RepairedValue(names, v)));
    } else {
      assert all + [] == all;
    }
  }

  lemma SinceLastThousand<T>(all: seq<T>, x: T)
    ensures var m, longer := |all|, all + [x];
            && ((m + 1) % BATCH == 0 ==> (m + 1) / BATCH == m / BATCH + 1)
            && ((m + 1) % BATCH != 0 ==>
                  (m + 1) / BATCH == m / BATCH && longer[m + 1 - (m + 1) % BATCH..] == all[m - m % BATCH..] + [x])
  {
    var m := |all|;
    if (m + 1) % BATCH != 0 {
      assert (m + 1) % BATCH == m % BATCH + 1;
    }
  }

  lemma {:induction false} DryRunWritesNothing(
    names: Names, snapshot: Records, keys: seq<Bytes>, faults: Faults, n: nat)
    requires n <= |keys| && forall k :: k in keys ==> k in snapshot
    ensures var dry := Loop(names, snapshot, keys, true, faults, n); dry.records == snapshot && dry.batch == []
  {
    if n > 0 {
      DryRunWritesNothing(names, snapshot, keys, faults, n - 1);
    }
  }

  /** A dry run writes nothing and reports the numbers of a real run, whatever fails in that one. */
  lemma DryRunChangesNothing(names: Names, snapshot: Records, faults: Faults, actually: Faults, n: nat)
    ensures var dry, actual := Ended(names, snapshot, true, faults, n), Ended(names, snapshot, false, actually, n);
            && dry.records == snapshot && dry.updated == actual.updated
            && dry.total == actual.total == Min(n, |snapshot|)
  {
    hide Loop, Sorted;
    var keys, m := Sorted(snapshot.Keys), Min(n, |snapshot|);
    DryRunWritesNothing(names, snapshot, keys, faults, m);
    LoopCounts(names, snapshot, keys, true, faults, m);
    LoopCounts(names, snapshot, keys, false, actually, m);
  }

  // ---- interruptions --------------------------------------------------------------------------------

  /** Each record is as it was, or repaired. */
  ghost predicate PartlyMigrated(names: Names, before: Records, after: Records) {
    && after.Keys == before.Keys
    && forall k :: k in before ==> after[k] == before[k] || after[k] == RepairedValue(names, before[k])
  }

  ghost predicate OnlyRepairs(names: Names, snapshot: Records, batch: seq<Put<Value>>) {
    forall i :: 0 <= i < |batch| ==>
      batch[i].key in snapshot && batch[i].value == RepairedValue(names, snapshot[batch[i].key])
  }

  lemma {:induction false} ApplyRepairs(names: Names, snapshot: Records, records: Records, batch: seq<Put<Value>>)
    requires PartlyMigrated(names, snapshot, records) && OnlyRepairs(names, snapshot, batch)
    ensures PartlyMigrated(names, snapshot, ApplyBatch(records, batch))
  {
    if batch != [] {
      var front := batch[..|batch| - 1];
      assert forall i | 0 <= i < |front| :: front[i] == batch[i];
      ApplyRepairs(names, snapshot, records, front);
    }
  }

  lemma {:induction false} LoopRepairsPartly(
    names: Names, snapshot: Records, keys: seq<Bytes>, faults: Faults, n: nat)
    requires n <= |keys| && forall k :: k in keys ==> k in snapshot
    ensures var p := Loop(names, snapshot, keys, false, faults, n);
            PartlyMigrated(names, snapshot, p.records) && OnlyRepairs(names, snapshot, p.batch)
  {
    if n > 0 {
      LoopRepairsPartly(names, snapshot, keys, faults, n - 1);
      var before := Loop(names, snapshot, keys, false, faults, n - 1);
      var v := snapshot[keys[n - 1]];
      if IsUpdate(v) {
        ApplyRepairs(names, snapshot, before.records, before.batch + [Put(keys[n - 1], RepairedValue(names, v))]);
      }
    }
  }

  /**
   A run that need not do all its work: killed after n records, or ended after n because there are
   no more or the iterator failed; with some writes and encodings failed in either case.
   */
  datatype Attempt = Killed(n: nat, faults: Faults) | Stopped(n: nat, faults: Faults)

  function AfterAttempt(names: Names, records: Records, a: Attempt): Records {
    match a
    case Killed(n, faults) =>
      Loop(names, records, Sorted(records.Keys), false, faults, Min(n, |records|)).records
    case Stopped(n, faults) => Ended(names, records, false, faults, n).records
  }

  function AfterAttempts(names: Names, records: Records, attempts: seq<Attempt>): Records
    decreases |attempts|
  {
    if attempts == [] then records else AfterAttempts(names, AfterAttempt(names, records, attempts[0]), attempts[1..])
  }

  lemma AttemptRepairsPartly(names: Names, records: Records, a: Attempt)
    ensures PartlyMigrated(names, records, AfterAttempt(names, records, a))
  {
    hide PartlyMigrated, OnlyRepairs, Loop, Sorted;
    var keys, n := Sorted(records.Keys), Min(a.n, |records|);
    LoopRepairsPartly(names, records, keys, a.faults, n);
    var p := Loop(names, records, keys, false, a.faults, n);
    ApplyRepairs(names, records, p.records, p.batch);
  }

  lemma PartlyMigratedConverges(names: Names, before: Records, after: Records)
    requires PartlyMigrated(names, before, after)
    ensures Migrated(names, after) == Migrated(names, before)
  {
    hide RepairedValue;
    forall k | k in before ensures RepairedValue(names, after[k]) == RepairedValue(names, before[k]) {
      RepairedUnchanged(names, before[k]);
    }
  }

  /**
   After any number of runs that were killed anywhere or lost any of their writes, one complete
   successful run leaves the database a single undisturbed run would have left.
   */
  lemma {:induction false} InterruptedMigrationConverges(
    names: Names, records: Records, attempts: seq<Attempt>, faults: Faults)
    requires Faultless(faults)
    ensures Complete(names, AfterAttempts(names, records, attempts), false, faults).records
         == Complete(names, records, false, faults).records == Migrated(names, records)
    decreases |attempts|
  {
    hide Complete, AfterAttempt, Migrated, PartlyMigrated;
    MigrationIsRecordMap(names, records, faults);
    if attempts != [] {
      var next := AfterAttempt(names, records, attempts[0]);
      AttemptRepairsPartly(names, records, attempts[0]);
      PartlyMigratedConverges(names, records, next);
      InterruptedMigrationConverges(names, next, attempts[1..], faults);
    }
  }

  /** A repaired record is counted again by the next run exactly when its chat has no configured name. */
  lemma CountedAgain(names: Names, r: Record)
    ensures NeedsUpdate(Repaired(names, r)) <==> r.groupName == "" && NameOf(names, r.chatID) == ""
  {
    SanitizeIdempotent(r.text);
  }

  lemma {:induction false} UpdatesNone(names: Names, snapshot: Records, keys: seq<Bytes>, n: nat)
    requires n <= |keys| && forall k :: k in keys ==> k in snapshot
    ensures Updates(names, snapshot, keys, n) == [] <==> forall i :: 0 <= i < n ==> !IsUpdate(snapshot[keys[i]])
  {
    hide IsUpdate, RepairedValue;
    if n > 0 {
      UpdatesNone(names, snapshot, keys, n - 1);
    }
  }

  /**
   A run over an already migrated database updates nothing exactly when every record that lacked a
   name belongs to a chat with a configured one.
   */
  lemma RerunUpdatesNothing(names: Names, records: Records, faults: Faults)
    ensures Complete(names, Migrated(names, records), false, faults).updated == 0
       <==> forall k | k in records && records[k].Json? && records[k].record.groupName == "" ::
              NameOf(names, records[k].record.chatID) != ""
  {
    hide Sorted, Updates, Loop, OneRecord, Repaired;
    var again := Migrated(names, records);
    var keys := Sorted(again.Keys);
    LoopCounts(names, again, keys, false, faults, |again|);
    UpdatesNone(names, again, keys, |again|);
    forall k | k in records
      ensures IsUpdate(again[k]) <==>
                records[k].Json? && records[k].record.groupName == "" && NameOf(names, records[k].record.chatID) == ""
    {
      if records[k].Json? { CountedAgain(names, records[k].record); }
    }
    forall k | k in records ensures exists i :: 0 <= i < |keys| && keys[i] == k {
      assert k in keys;
    }
    forall i | 0 <= i < |keys| ensures keys[i] in records {
      assert keys[i] in keys;
    }
  }

  function RepairAll(names: Names, rs: seq<Record>): seq<Record> {
    if rs == [] then [] else RepairAll(names, rs[..|rs| - 1]) + [Repaired(names, rs[|rs| - 1])]
  }

  lemma {:induction false} DecodeMigrated(names: Names, records: Records, keys: seq<Bytes>)
    requires forall k :: k in keys ==> k in records
    ensures var rs := Decode(records, keys);
            Decode(Migrated(names, records), keys) == if rs.None? then None else Some(RepairAll(names, rs.value))
  {
    hide Repaired;
    if keys != [] {
      var front, last := keys[..|keys| - 1], keys[|keys| - 1];
      DecodeMigrated(names, records, front);
      var rs := Decode(records, front);
      if rs.Some? && records[last].Json? {
        assert (rs.value + [records[last].record])[..|rs.value|] == rs.value;
      }
    }
  }

  /** A query of the migrated store answers the same records, in the same order, repaired. */
  lemma QueryAfterMigration(names: Names, records: Records, chatID: int64, start: int64, end: int64)
    ensures var before := Query(records, chatID, start, end);
            Query(Migrated(names, records), chatID, start, end)
            == if before.None? then None else Some(RepairAll(names, before.value))
  {
    hide Sorted, MakeKey, Decode, RepairedValue, Leq;
    var a, b := MakeKey(chatID, start), MakeKey(chatID, end);
    assert KeysBetween(Migrated(names, records), a, b) == KeysBetween(records, a, b);
    DecodeMigrated(names, records, Sorted(KeysBetween(records, a, b)));
  }
}
