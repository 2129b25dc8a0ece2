/** The chat history store: one record per chat and nanosecond, found by ranges of composite keys. */
module ChatHistory {
  import opened ByteOrder
  import opened LevelDb

  const TWO64 := 0x1_0000_0000_0000_0000
  const TWO63 := 0x8000_0000_0000_0000

  type int64 = n: int | -TWO63 <= n < TWO63

  /** A record with its timestamp as Unix nanoseconds; texts are sequences of Unicode characters. */
  datatype Record = Record(
    id: int64, chatID: int64, text: string, fromUser: string, groupName: string, timestamp: int64)

  /** A stored value: the JSON of a record, which decodes to that record, or bytes that do not decode. */
  datatype Value = Json(record: Record) | Undecodable(bytes: Bytes)

  const PARSE_FAILURE := "Emoji 解析失败"

  /** utils.SanitizeMessage: a text with a replacement character is replaced as a whole. */
  function Sanitize(text: string): string {
    if '\U{FFFD}' in text then PARSE_FAILURE else text
  }

  // ---- keys ----------------------------------------------------------------------------------

  /** The conversion uint64(n) of a signed integer. */
  function Unsigned(n: int64): (u: nat)
    ensures u < TWO64
  {
    if n < 0 then n + TWO64 else n
  }

  function Pow256(n: nat): (p: nat)
    ensures p >= 1
  {
    if n == 0 then 1 else 256 * Pow256(n - 1)
  }

  /** The last n bytes of v, most significant first. */
  function BigEndian(v: nat, n: nat): (s: Bytes)
    ensures |s| == n
  {
    if n == 0 then [] else BigEndian(v / 256, n - 1) + [v % 256]
  }

  function MakeKey(chatID: int64, timestamp: int64): (key: Bytes)
    ensures |key| == 16
  {
    BigEndian(Unsigned(chatID), 8) + BigEndian(Unsigned(timestamp), 8)
  }

  /** binary.BigEndian.PutUint64 into eight bytes of a buffer. */
  method PutUint64(buffer: array<byte>, offset: nat, v: nat)
    requires offset + 8 <= buffer.Length
    modifies buffer
    ensures buffer[offset..offset + 8] == BigEndian(v, 8)
    ensures buffer[..offset] == old(buffer[..offset]) && buffer[offset + 8..] == old(buffer[offset + 8..])
  {
    var rest := v;
    var i := 8;
    assert buffer[offset + 8..offset + 8] == [];
    while i > 0
      invariant 0 <= i <= 8
      invariant BigEndian(v, 8) == BigEndian(rest, i) + buffer[offset + i..offset + 8]
      invariant buffer[..offset] == old(buffer[..offset]) && buffer[offset + 8..] == old(buffer[offset + 8..])
    {
      ghost var done := buffer[offset + i..offset + 8];
      i := i - 1;
      buffer[offset + i] := rest % 256;
      assert buffer[offset + i..offset + 8] == [rest % 256] + done;
      rest := rest / 256;
    }
  }

  method MakeKeyBuffer(chatID: int64, timestamp: int64) returns (key: array<byte>)
    ensures fresh(key) && key[..] == MakeKey(chatID, timestamp)
  {
    key := new byte[16];
    PutUint64(key, 0, Unsigned(chatID));
    assert key[0..8] == key[..8];
    PutUint64(key, 8, Unsigned(timestamp));
    assert key[..] == key[..8] + key[8..16];
  }

  /** Big-endian texts of a fixed width sort as the numbers they hold. */
  lemma {:induction false} BigEndianOrder(a: nat, b: nat, n: nat)
    requires a < Pow256(n) && b < Pow256(n)
    ensures Leq(BigEndian(a, n), BigEndian(b, n)) <==> a <= b
    ensures BigEndian(a, n) == BigEndian(b, n) <==> a == b
  {
    if n > 0 {
      BigEndianOrder(a / 256, b / 256, n - 1);
      var p, q := BigEndian(a / 256, n - 1), BigEndian(b / 256, n - 1);
      LeqLastByte(p, q, a % 256, b % 256);
      assert (p + [a % 256])[..n - 1] == p && (q + [b % 256])[..n - 1] == q;
      assert (p + [a % 256])[n - 1] == a % 256 && (q + [b % 256])[n - 1] == b % 256;
    }
  }

  lemma Pow256Of8()
    ensures Pow256(8) == TWO64
  {
    assert Pow256(4) == 0x1_0000_0000;
    assert Pow256(8) == 256 * (256 * (256 * (256 * Pow256(4))));
  }

  /** Strings that start with parts of equal length compare by those parts first. */
  lemma {:induction false} LeqByParts(a: Bytes, b: Bytes, c: Bytes, d: Bytes)
    requires |a| == |c|
    ensures Leq(a + b, c + d) <==> Less(a, c) || (a == c && Leq(b, d))
  {
    if a == [] {
      assert a + b == b && c + d == d;
    } else {
      assert (a + b)[1..] == a[1..] + b && (c + d)[1..] == c[1..] + d;
      LeqByParts(a[1..], b, c[1..], d);
      assert a == [a[0]] + a[1..] && c == [c[0]] + c[1..];
    }
  }

  /** Keys sort by chat and then by time, both as unsigned numbers, and no two share a key. */
  lemma KeyOrder(chat: int64, t: int64, chat': int64, t': int64)
    ensures Leq(MakeKey(chat, t), MakeKey(chat', t'))
       <==> Unsigned(chat) < Unsigned(chat') || (chat == chat' && Unsigned(t) <= Unsigned(t'))
    ensures MakeKey(chat, t) == MakeKey(chat', t') <==> chat == chat' && t == t'
  {
    Pow256Of8();
    var a, c := BigEndian(Unsigned(chat), 8), BigEndian(Unsigned(chat'), 8);
    var b, d := BigEndian(Unsigned(t), 8), BigEndian(Unsigned(t'), 8);
    BigEndianOrder(Unsigned(chat), Unsigned(chat'), 8);
    BigEndianOrder(Unsigned(t), Unsigned(t'), 8);
    LeqByParts(a, b, c, d);
    assert (a + b)[..8] == a && (c + d)[..8] == c && (a + b)[8..] == b && (c + d)[8..] == d;
  }

  // ---- the store -------------------------------------------------------------------------------

  /** The records at the given keys, in order; nothing as soon as one does not decode. */
  function Decode(records: map<Bytes, Value>, keys: seq<Bytes>): Option<seq<Record>>
    requires forall k :: k in keys ==> k in records
  {
    if keys == [] then Some([])
    else
      var front := keys[..|keys| - 1];
      var last := keys[|keys| - 1];
      var before := Decode(records, front);
      if before.None? || records[last].Undecodable? then None else Some(before.value + [records[last].record])
  }

  /** What QueryMessages answers for an arbitrary key range. */
  function RangeQuery(records: map<Bytes, Value>, start: Bytes, limit: Bytes): Option<seq<Record>> {
    Decode(records, Sorted(KeysBetween(records, start, limit)))
  }

  function Query(records: map<Bytes, Value>, chatID: int64, start: int64, end: int64): Option<seq<Record>> {
    RangeQuery(records, MakeKey(chatID, start), MakeKey(chatID, end))
  }

  function OfUser(messages: seq<Record>, username: string): seq<Record> {
    if messages == [] then []
    else
      var last := messages[|messages| - 1];
      OfUser(messages[..|messages| - 1], username) + (if last.fromUser == username then [last] else [])
  }

  /** The caller's record object, whose text SaveMessage overwrites. */
  class History {
    var value: Record

    constructor (value: Record)
      ensures this.value == value
    {
      this.value := value;
    }
  }

  class ChatHistoryStorage {
    const db: Database<Value>

    constructor (db: Database<Value>)
      ensures this.db == db
    {
      this.db := db;
    }

    /** Sanitises the record in place and stores it; false when the write fails. */
    method SaveMessage(history: History, writeOk: bool) returns (ok: bool)
      modifies history, db
      ensures ok == writeOk
      ensures history.value == old(history.value).(text :=
                if '\U{FFFD}' in old(history.value.text) then "Emoji 解析失败" else old(history.value.text))
      ensures var r := history.value;
              db.records == if ok then old(db.records)[MakeKey(r.chatID, r.timestamp) := Json(r)] else old(db.records)
    {
      history.value := history.value.(text := Sanitize(history.value.text));
      var key := MakeKeyBuffer(history.value.chatID, history.value.timestamp);
      db.Put(key[..], Json(history.value), writeOk);
      return writeOk;
    }

    /**
     The stored records of a chat in a time range, or nothing when one of them does not decode or
     the iterator fails after some of them.
     */
    method QueryMessages(chatID: int64, start: int64, end: int64, failsAfter: Option<nat>)
      returns (messages: Option<seq<Record>>)
      ensures messages == if failsAfter.Some? then None else Query(db.records, chatID, start, end)
    {
      hide Sorted, BigEndian;
      var startKey := MakeKeyBuffer(chatID, start);
      var endKey := MakeKeyBuffer(chatID, end);
      var iter := db.IterateRange(startKey[..], endKey[..]);
      assert forall k :: k in iter ==> k in db.records;
      var found: seq<Record> := [];
      var i := 0;
      while i < |iter| && (failsAfter.None? || i < failsAfter.value)
        invariant i <= |iter|
        invariant forall k :: k in iter ==> k in db.records
        invariant forall k :: k in iter[..i] ==> k in iter
        invariant Decode(db.records, iter[..i]) == Some(found)
      {
        assert iter[..i + 1][..i] == iter[..i];
        var value := db.Get(iter[i]);
        if value.value.Undecodable? {
          DecodeFails(db.records, iter, i);
          return None;
        }
        found := found + [value.value.record];
        i := i + 1;
      }
      if failsAfter.Some? {
        return None;
      }
      assert iter[..|iter|] == iter;
      return Some(found);
    }

    method QueryMessagesByUser(chatID: int64, username: string, start: int64, end: int64, failsAfter: Option<nat>)
      returns (userMessages: Option<seq<Record>>)
      ensures var all := if failsAfter.Some? then None else Query(db.records, chatID, start, end);
              userMessages == if all.None? then None else Some(OfUser(all.value, username))
    {
      hide Sorted, BigEndian;
      var messages := QueryMessages(chatID, start, end, failsAfter);
      if messages.None? {
        return None;
      }
      var found: seq<Record> := [];
      var i := 0;
      while i < |messages.value|
        invariant i <= |messages.value|
        invariant found == OfUser(messages.value[..i], username)
      {
        assert messages.value[..i + 1][..i] == messages.value[..i];
        if messages.value[i].fromUser == username {
          found := found + [messages.value[i]];
        }
        i := i + 1;
      }
      assert messages.value[..|messages.value|] == messages.value;
      return Some(found);
    }
  }

  lemma {:induction false} DecodeFails(records: map<Bytes, Value>, keys: seq<Bytes>, i: nat)
    requires forall k :: k in keys ==> k in records
    requires i < |keys| && records[keys[i]].Undecodable?
    ensures Decode(records, keys) == None
  {
    if i < |keys| - 1 {
      DecodeFails(records, keys[..|keys| - 1], i);
    }
  }
}
