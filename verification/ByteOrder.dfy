/** Byte strings and the bytewise order of LevelDB keys and of Go's sort.Strings. */
module ByteOrder {

  type byte = b: int | 0 <= b < 256
  type Bytes = seq<byte>

  datatype Option<+T> = None | Some(value: T)

  /** Lexicographic order on byte strings; a proper prefix comes first. */
  predicate Leq(a: Bytes, b: Bytes) {
    a == [] || (b != [] && (a[0] < b[0] || (a[0] == b[0] && Leq(a[1..], b[1..]))))
  }

  predicate Less(a: Bytes, b: Bytes) {
    a != b && Leq(a, b)
  }

  lemma {:induction false} LeqTotal(a: Bytes, b: Bytes)
    ensures Leq(a, b) || Leq(b, a)
  {
    if a != [] && b != [] && a[0] == b[0] {
      LeqTotal(a[1..], b[1..]);
    }
  }

  lemma {:induction false} LeqAntisymmetric(a: Bytes, b: Bytes)
    requires Leq(a, b) && Leq(b, a)
    ensures a == b
  {
    if a != [] {
      LeqAntisymmetric(a[1..], b[1..]);
      assert a == [a[0]] + a[1..] && b == [b[0]] + b[1..];
    }
  }

  lemma {:induction false} LeqTransitive(a: Bytes, b: Bytes, c: Bytes)
    requires Leq(a, b) && Leq(b, c)
    ensures Leq(a, c)
  {
    if a != [] && a[0] == b[0] == c[0] {
      LeqTransitive(a[1..], b[1..], c[1..]);
    }
  }

  lemma LeqReflexive(a: Bytes)
    ensures Leq(a, a)
  {
    LeqTotal(a, a);
  }

  /** A common prefix does not influence the order. */
  lemma {:induction false} LeqCommonPrefix(p: Bytes, a: Bytes, b: Bytes)
    ensures Leq(p + a, p + b) == Leq(a, b)
  {
    if p == [] {
      assert p + a == a && p + b == b;
    } else {
      assert (p + a)[1..] == p[1..] + a && (p + b)[1..] == p[1..] + b;
      LeqCommonPrefix(p[1..], a, b);
    }
  }

  /** Strings of equal length compare by their heads first, then by the last byte. */
  lemma {:induction false} LeqLastByte(p: Bytes, q: Bytes, x: byte, y: byte)
    requires |p| == |q|
    ensures Leq(p + [x], q + [y]) <==> Less(p, q) || (p == q && x <= y)
  {
    if p != [] {
      assert (p + [x])[1..] == p[1..] + [x] && (q + [y])[1..] == q[1..] + [y];
      LeqLastByte(p[1..], q[1..], x, y);
      assert p == [p[0]] + p[1..] && q == [q[0]] + q[1..];
    }
  }

  /** Appending to a string that is already at least as long changes nothing. */
  lemma {:induction false} LeqExtend(p: Bytes, q: Bytes, y: byte)
    requires |p| <= |q|
    ensures Leq(p, q + [y]) <==> Leq(p, q)
  {
    if p != [] {
      assert (q + [y])[1..] == q[1..] + [y];
      LeqExtend(p[1..], q[1..], y);
    }
  }

  // ---- listing a set of keys in order --------------------------------------

  ghost predicate Ascending(keys: seq<Bytes>) {
    forall i, j :: 0 <= i < j < |keys| ==> Less(keys[i], keys[j])
  }

  ghost predicate IsLeast(s: set<Bytes>, k: Bytes) {
    k in s && forall j :: j in s ==> Leq(k, j)
  }

  lemma {:induction false} LeastExists(s: set<Bytes>)
    requires s != {}
    ensures exists k :: IsLeast(s, k)
    decreases |s|
  {
    var x :| x in s;
    LeqReflexive(x);
    if s == {x} {
      assert IsLeast(s, x);
    } else {
      LeastExists(s - {x});
      var k :| IsLeast(s - {x}, k);
      LeqTotal(x, k);
      if Leq(k, x) {
        assert IsLeast(s, k);
      } else {
        forall j | j in s ensures Leq(x, j) {
          if j != x { LeqTransitive(x, k, j); }
        }
        assert IsLeast(s, x);
      }
    }
  }

  lemma LeastUnique(s: set<Bytes>)
    ensures forall k, j | IsLeast(s, k) && IsLeast(s, j) :: k == j
  {
    forall k, j | IsLeast(s, k) && IsLeast(s, j) ensures k == j {
      LeqAntisymmetric(k, j);
    }
  }

  function Least(s: set<Bytes>): (k: Bytes)
    requires s != {}
    ensures IsLeast(s, k)
  {
    LeastExists(s);
    LeastUnique(s);
    assert forall k, j |
        && k in s && (forall i :: i in s ==> Leq(k, i))
        && j in s && (forall i :: i in s ==> Leq(j, i)) ::
        IsLeast(s, k) && IsLeast(s, j);
    assert exists k :: IsLeast(s, k);
    var k :| k in s && forall j :: j in s ==> Leq(k, j);
    k
  }

  /** The order in which a LevelDB iterator visits a set of keys. */
  function Sorted(s: set<Bytes>): (keys: seq<Bytes>)
    ensures |keys| == |s|
    ensures forall k :: k in keys <==> k in s
    decreases |s|
  {
    if s == {} then []
    else
      var k := Least(s);
      [k] + Sorted(s - {k})
  }

  lemma {:induction false} SortedIsAscending(s: set<Bytes>)
    ensures Ascending(Sorted(s))
    decreases |s|
  {
    if s != {} {
      var k := Least(s);
      var rest := Sorted(s - {k});
      SortedIsAscending(s - {k});
      forall j | 0 <= j < |rest| ensures Less(k, rest[j]) {
        assert rest[j] in rest;
      }
    }
  }

  /** An ascending listing is determined by its elements. */
  lemma {:induction false} AscendingUnique(a: seq<Bytes>, b: seq<Bytes>)
    requires Ascending(a) && Ascending(b)
    requires forall k :: k in a <==> k in b
    ensures a == b
  {
    if a == [] {
      assert forall i :: 0 <= i < |b| ==> b[i] in b;
    } else {
      assert a[0] in b;
      assert b != [] && b[0] in a;
      var i :| 0 <= i < |b| && b[i] == a[0];
      var j :| 0 <= j < |a| && a[j] == b[0];
      if a[0] != b[0] {
        assert Less(b[0], b[i]) && Less(a[0], a[j]);
        LeqAntisymmetric(a[0], b[0]);
      }
      forall k ensures k in a[1..] <==> k in b[1..] {
        AscendingTail(a, k);
        AscendingTail(b, k);
      }
      AscendingUnique(a[1..], b[1..]);
      assert a == [a[0]] + a[1..] && b == [b[0]] + b[1..];
    }
  }

  lemma AscendingTail(a: seq<Bytes>, k: Bytes)
    requires Ascending(a) && a != []
    ensures k in a[1..] <==> k in a && k != a[0]
  {
    if k in a && k != a[0] {
      var i :| 0 <= i < |a| && a[i] == k;
      assert a[1..][i - 1] == k;
    }
    if k in a[1..] {
      var i :| 0 <= i < |a[1..]| && a[1..][i] == k;
      assert a[i + 1] == k && Less(a[0], a[i + 1]);
    }
  }

  /** Listing two ranges one after the other lists their union. */
  lemma SortedConcat(s: set<Bytes>, t: set<Bytes>)
    requires forall x, y | x in s && y in t :: Less(x, y)
    ensures Sorted(s + t) == Sorted(s) + Sorted(t)
  {
    hide Sorted, Leq;
    var first, second := Sorted(s), Sorted(t);
    var both := first + second;
    SortedIsAscending(s);
    SortedIsAscending(t);
    SortedIsAscending(s + t);
    forall i, j | 0 <= i < j < |both| ensures Less(both[i], both[j]) {
      if i < |first| <= j {
        assert first[i] in s && second[j - |first|] in t;
      } else if j < |first| {
        assert Less(first[i], first[j]);
      } else {
        assert Less(second[i - |first|], second[j - |first|]);
      }
    }
    assert forall k :: k in both <==> k in first || k in second;
    AscendingUnique(Sorted(s + t), both);
  }

  // ---- sort.Strings ----------------------------------------------------------

  /** Inserts k before the first key it does not follow. */
  function Insert(k: Bytes, keys: seq<Bytes>): seq<Bytes> {
    if keys == [] || Leq(k, keys[0]) then [k] + keys else [keys[0]] + Insert(k, keys[1..])
  }

  /** sort.Strings on the list of keys. */
  function SortStrings(keys: seq<Bytes>): seq<Bytes> {
    if keys == [] then [] else Insert(keys[0], SortStrings(keys[1..]))
  }

  lemma {:induction false} SortStringsOfAscending(keys: seq<Bytes>)
    requires Ascending(keys)
    ensures SortStrings(keys) == keys
  {
    if keys != [] {
      SortStringsOfAscending(keys[1..]);
      assert keys == [keys[0]] + keys[1..];
      assert |keys| > 1 ==> Less(keys[0], keys[1]);
    }
  }
}
