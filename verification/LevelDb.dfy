/** The key-value store under both the retry queue and the chat history: goleveldb with atomic writes. */
module LevelDb {
  import opened ByteOrder

  datatype Put<V> = Put(key: Bytes, value: V)

  /** The effect of an atomic batch: its puts in order. */
  function ApplyBatch<V>(records: map<Bytes, V>, batch: seq<Put<V>>): map<Bytes, V> {
    if batch == [] then records
    else ApplyBatch(records, batch[..|batch| - 1])[batch[|batch| - 1].key := batch[|batch| - 1].value]
  }

  /** The keys start <= k < limit. */
  function KeysBetween<V>(records: map<Bytes, V>, start: Bytes, limit: Bytes): set<Bytes> {
    set k | k in records && Leq(start, k) && Less(k, limit)
  }

  /**
   An open database. Every operation that reaches the disk takes the outcome the disk gives it;
   a write that fails stores nothing.
   */
  class Database<V> {
    var records: map<Bytes, V>

    constructor (records: map<Bytes, V>)
      ensures this.records == records
    {
      this.records := records;
    }

    method Get(key: Bytes) returns (r: Option<V>)
      ensures r == if key in records then Some(records[key]) else None
    {
      r := if key in records then Some(records[key]) else None;
    }

    method Put(key: Bytes, value: V, succeeds: bool)
      modifies this
      ensures records == if succeeds then old(records)[key := value] else old(records)
    {
      if succeeds {
        records := records[key := value];
      }
    }

    method Delete(key: Bytes, succeeds: bool)
      modifies this
      ensures records == if succeeds then old(records) - {key} else old(records)
    {
      if succeeds {
        records := records - {key};
      }
    }

    method Write(batch: seq<Put<V>>, succeeds: bool)
      modifies this
      ensures records == if succeeds then ApplyBatch(old(records), batch) else old(records)
    {
      if succeeds {
        var i := 0;
        while i < |batch|
          invariant i <= |batch|
          invariant records == ApplyBatch(old(records), batch[..i])
        {
          assert batch[..i + 1][..i] == batch[..i];
          records := records[batch[i].key := batch[i].value];
          i := i + 1;
        }
        assert batch[..|batch|] == batch;
      }
    }

    /** A snapshot iterator over all keys, in byte order. */
    method Iterate() returns (keys: seq<Bytes>)
      ensures keys == Sorted(records.Keys)
    {
      keys := Sorted(records.Keys);
    }

    /** A snapshot iterator over the keys from start up to but excluding limit. */
    method IterateRange(start: Bytes, limit: Bytes) returns (keys: seq<Bytes>)
      ensures keys == Sorted(KeysBetween(records, start, limit))
    {
      keys := Sorted(KeysBetween(records, start, limit));
    }
  }
}
