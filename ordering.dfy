/**
 * How the search orders and pages its matches: the sort key of a field
 * (`sort_records`), the seeded hash key of the random order, Python's stable
 * `list.sort` with and without `reverse`, and the page slice.
 */
module Ordering {
  import opened Text
  import opened Values

  // ---------------------------------------------------------------------------
  // Sort keys

  /** The key `sort_records` sorts on: the first item of a non-empty list, `""` for `None`, else the value, as lower-case text. */
  function SortKey(record: Dict, field: string): (key: string)
    ensures Get(record, field) == Null ==> key == ""
    ensures Get(record, field).Str? ==> key == Lower(Get(record, field).s)
    ensures Get(record, field).List? && Get(record, field).items != [] ==>
      key == Lower(PyStr(Get(record, field).items[0]))
    ensures Get(record, field) != Null && !(Get(record, field).List? && Get(record, field).items != []) ==>
      key == Lower(PyStr(Get(record, field)))
  {
    var v := Get(record, field);
    if v.List? && v.items != [] then Lower(PyStr(v.items[0]))
    else if v == Null then ""
    else Lower(PyStr(v))
  }

  type Byte = x: int | 0 <= x < 256

  /** A SHA-256 digest: 32 bytes. */
  type Digest = d: seq<Byte> | |d| == 32 witness seq(32, _ => 0)

  /** The unsigned big-endian integer of a byte string (`int.from_bytes(b, "big")`). */
  function BigEndian(bytes: seq<Byte>): (n: nat)
    ensures n < Pow256(|bytes|)
  {
    if bytes == [] then 0
    else BigEndian(bytes[..|bytes| - 1]) * 256 + bytes[|bytes| - 1]
  }

  function Pow256(k: nat): (p: nat)
    ensures p >= 1
  {
    if k == 0 then 1 else 256 * Pow256(k - 1)
  }

  /** The `len` bytes of `n`, most significant first (`n.to_bytes(len, "big")`). */
  function BigEndianBytes(n: nat, len: nat): (bytes: seq<Byte>)
    requires n < Pow256(len)
    ensures |bytes| == len
  {
    if len == 0 then [] else BigEndianBytes(n / 256, len - 1) + [n % 256]
  }

  /** Reading back the bytes of a number gives the number. */
  lemma {:induction false} BigEndianRoundTrip(n: nat, len: nat)
    requires n < Pow256(len)
    ensures BigEndian(BigEndianBytes(n, len)) == n
  {
    if len > 0 {
      BigEndianRoundTrip(n / 256, len - 1);
      var bytes := BigEndianBytes(n, len);
      assert bytes[..|bytes| - 1] == BigEndianBytes(n / 256, len - 1);
    }
  }

  /**
   * The random order's key: the first 8 bytes of the SHA-256 digest of
   * `"<seed>:<id>"`, big-endian; the id is `str()` of the record's id, or
   * `""` when the record has none. The hash is a parameter.
   */
  function RandKey(sha256: string -> Digest, seed: string, record: Dict): (key: nat)
    ensures key < 0x1_0000_0000_0000_0000
  {
    var rid := if "id" in record.entries then PyStr(record.entries["id"]) else "";
    var digest := sha256(seed + ":" + rid);
    assert Pow256(8) == 0x1_0000_0000_0000_0000;
    BigEndian(digest[..8])
  }

  /** The key depends on the seed and the id alone: records with the same id get the same place. */
  lemma RandKeyById(sha256: string -> Digest, seed: string, a: Dict, b: Dict)
    requires Get(a, "id") == Get(b, "id") && Get(a, "id") != Null
    ensures RandKey(sha256, seed, a) == RandKey(sha256, seed, b)
  {
  }

  /** A sort key: text for a field, a number for the random order. */
  datatype Key = Text(s: string) | Num(n: int)

  /** Python's `<` on the keys of one sort; numbers are put before text, which no sort mixes. */
  predicate KeyLt(a: Key, b: Key) {
    match a
    case Num(m) => (match b case Num(n) => m < n case Text(_) => true)
    case Text(s) => (match b case Num(_) => false case Text(t) => StrLt(s, t))
  }

  lemma KeyLtIrreflexive(a: Key)
    ensures !KeyLt(a, a)
  {
    if a.Text? {
      StrLtIrreflexive(a.s);
    }
  }

  lemma KeyLtTransitive(a: Key, b: Key, c: Key)
    requires KeyLt(a, b) && KeyLt(b, c)
    ensures KeyLt(a, c)
  {
    if a.Text? && b.Text? && c.Text? {
      StrLtTransitive(a.s, b.s, c.s);
    }
  }

  lemma KeyLtTotal(a: Key, b: Key)
    ensures a == b || KeyLt(a, b) || KeyLt(b, a)
  {
    if a.Text? && b.Text? {
      StrLtTotal(a.s, b.s);
    }
  }

  // ---------------------------------------------------------------------------
  // The orders of a search and Python's stable sort

  /**
   * The order a search asks for: by a field, ascending or (`reverse=True`)
   * descending, or by the seeded hash key.
   */
  datatype Order = ByField(field: string, descending: bool) | ByHash(seed: string, sha256: string -> Digest)

  function KeyOf(order: Order, record: Dict): Key {
    match order
    case ByField(field, _) => Text(SortKey(record, field))
    case ByHash(seed, sha256) => Num(RandKey(sha256, seed, record))
  }

  /** The `key=` function of the sort. */
  function KeyFn(order: Order): Dict -> Key {
    record => KeyOf(order, record)
  }

  /** The `reverse=` flag of the sort. */
  function Descending(order: Order): bool {
    order.ByField? && order.descending
  }

  /** `a` goes strictly before `b`; with `reverse=True` the comparison is turned round, equal keys are not. */
  predicate Before(key: Dict -> Key, desc: bool, a: Dict, b: Dict) {
    if desc then KeyLt(key(b), key(a))
    else KeyLt(key(a), key(b))
  }

  lemma BeforeIrreflexive(key: Dict -> Key, desc: bool, a: Dict)
    ensures !Before(key, desc, a, a)
  {
    KeyLtIrreflexive(key(a));
  }

  lemma BeforeTransitive(key: Dict -> Key, desc: bool, a: Dict, b: Dict, c: Dict)
    requires Before(key, desc, a, b) && Before(key, desc, b, c)
    ensures Before(key, desc, a, c)
  {
    if desc {
      KeyLtTransitive(key(c), key(b), key(a));
    } else {
      KeyLtTransitive(key(a), key(b), key(c));
    }
  }

  /** Two records neither of which goes before the other have the same key. */
  lemma BeforeTotal(key: Dict -> Key, desc: bool, a: Dict, b: Dict)
    requires !Before(key, desc, a, b) && !Before(key, desc, b, a)
    ensures key(a) == key(b)
  {
    KeyLtTotal(key(a), key(b));
  }

  /** No record goes before one that precedes it. */
  predicate InOrder(key: Dict -> Key, desc: bool, s: seq<Dict>) {
    forall i, j :: 0 <= i < j < |s| ==> !Before(key, desc, s[j], s[i])
  }

  /** Places `x` after every record of the ordered `ys` that does not go strictly after it. */
  function Insert(key: Dict -> Key, desc: bool, x: Dict, ys: seq<Dict>): (r: seq<Dict>)
    ensures |r| == |ys| + 1
  {
    if ys == [] then [x]
    else if Before(key, desc, x, ys[0]) then [x] + ys
    else [ys[0]] + Insert(key, desc, x, ys[1..])
  }

  /** `list.sort(key=..., reverse=...)`: a stable sort, here an insertion sort from the left. */
  function SortBy(key: Dict -> Key, desc: bool, xs: seq<Dict>): (r: seq<Dict>)
    ensures |r| == |xs|
  {
    if xs == [] then [] else Insert(key, desc, xs[|xs| - 1], SortBy(key, desc, xs[..|xs| - 1]))
  }

  /** The records of `s` with key `k`, in their order in `s`. */
  function WithKey(key: Dict -> Key, s: seq<Dict>, k: Key): seq<Dict> {
    if s == [] then []
    else WithKey(key, s[..|s| - 1], k) + (if key(s[|s| - 1]) == k then [s[|s| - 1]] else [])
  }

  lemma {:induction false} InsertMultiset(key: Dict -> Key, desc: bool, x: Dict, ys: seq<Dict>)
    ensures multiset(Insert(key, desc, x, ys)) == multiset(ys) + multiset{x}
  {
    if ys != [] && !Before(key, desc, x, ys[0]) {
      InsertMultiset(key, desc, x, ys[1..]);
      assert ys == [ys[0]] + ys[1..];
    }
  }

  /** The tail of an ordered list is ordered. */
  lemma InOrderTail(key: Dict -> Key, desc: bool, ys: seq<Dict>)
    requires ys != [] && InOrder(key, desc, ys)
    ensures InOrder(key, desc, ys[1..])
  {
    var tail := ys[1..];
    forall i, j | 0 <= i < j < |tail| ensures !Before(key, desc, tail[j], tail[i]) {
      assert tail[i] == ys[i + 1] && tail[j] == ys[j + 1];
    }
  }

  /** No record of an ordered list goes before its first. */
  lemma HeadFirst(key: Dict -> Key, desc: bool, ys: seq<Dict>)
    requires ys != [] && InOrder(key, desc, ys)
    ensures forall z :: z in ys ==> !Before(key, desc, z, ys[0])
  {
    forall z | z in ys ensures !Before(key, desc, z, ys[0]) {
      var m :| 0 <= m < |ys| && ys[m] == z;
      if m == 0 {
        BeforeIrreflexive(key, desc, z);
      }
    }
  }

  /** A record that no record of an ordered list goes before can lead it. */
  lemma InOrderCons(key: Dict -> Key, desc: bool, y: Dict, rest: seq<Dict>)
    requires InOrder(key, desc, rest)
    requires forall z :: z in rest ==> !Before(key, desc, z, y)
    ensures InOrder(key, desc, [y] + rest)
  {
    var r := [y] + rest;
    forall i, j | 0 <= i < j < |r| ensures !Before(key, desc, r[j], r[i]) {
      if i == 0 {
        assert r[j] == rest[j - 1];
        assert r[j] in rest;
      } else {
        assert r[i] == rest[i - 1] && r[j] == rest[j - 1];
      }
    }
  }

  /** No record of an ordered list goes before a record that goes before its first. */
  lemma FrontFirst(key: Dict -> Key, desc: bool, x: Dict, ys: seq<Dict>)
    requires ys != [] && InOrder(key, desc, ys) && Before(key, desc, x, ys[0])
    ensures forall z :: z in ys ==> !Before(key, desc, z, x)
  {
    HeadFirst(key, desc, ys);
    forall z | z in ys ensures !Before(key, desc, z, x) {
      if Before(key, desc, z, x) {
        BeforeTransitive(key, desc, z, x, ys[0]);
      }
    }
  }

  lemma {:induction false} InsertInOrder(key: Dict -> Key, desc: bool, x: Dict, ys: seq<Dict>)
    requires InOrder(key, desc, ys)
    ensures InOrder(key, desc, Insert(key, desc, x, ys))
  {
    if ys == [] {
    } else if Before(key, desc, x, ys[0]) {
      FrontFirst(key, desc, x, ys);
      InOrderCons(key, desc, x, ys);
    } else {
      var tail := ys[1..];
      InOrderTail(key, desc, ys);
      InsertInOrder(key, desc, x, tail);
      InsertMultiset(key, desc, x, tail);
      HeadFirst(key, desc, ys);
      var rest := Insert(key, desc, x, tail);
      assert ys == [ys[0]] + tail;
      forall z | z in rest ensures !Before(key, desc, z, ys[0]) {
        assert z in multiset(rest);
      }
      InOrderCons(key, desc, ys[0], rest);
    }
  }

  /** Inserting into an ordered list puts `x` after every record that has its key. */
  lemma {:induction false} InsertWithKey(key: Dict -> Key, desc: bool, x: Dict, ys: seq<Dict>, k: Key)
    requires InOrder(key, desc, ys)
    ensures WithKey(key, Insert(key, desc, x, ys), k) ==
      WithKey(key, ys, k) + (if key(x) == k then [x] else [])
    decreases |ys|
  {
    if ys == [] {
      assert Insert(key, desc, x, ys) == [] + [x];
    } else if Before(key, desc, x, ys[0]) {
      InsertWithKeyFront(key, desc, x, ys, k);
    } else {
      var tail := ys[1..];
      InOrderTail(key, desc, ys);
      var rest := Insert(key, desc, x, tail);
      assert Insert(key, desc, x, ys) == [ys[0]] + rest;
      InsertWithKey(key, desc, x, tail, k);
      WithKeyConsStep(key, ys[0], tail, rest, k, if key(x) == k then [x] else []);
      assert ys == [ys[0]] + tail;
    }
  }

  /** `x` going in front: no record of the list shares its key. */
  lemma InsertWithKeyFront(key: Dict -> Key, desc: bool, x: Dict, ys: seq<Dict>, k: Key)
    requires InOrder(key, desc, ys) && ys != [] && Before(key, desc, x, ys[0])
    ensures WithKey(key, Insert(key, desc, x, ys), k) ==
      WithKey(key, ys, k) + (if key(x) == k then [x] else [])
  {
    assert Insert(key, desc, x, ys) == [x] + ys;
    NoneWithKeyAfter(key, desc, x, ys, k);
    WithKeyPrepend(key, x, ys, k);
  }

  /** The same record in front of two lists keeps an equation between their keyed records. */
  lemma WithKeyConsStep(key: Dict -> Key, y: Dict, tail: seq<Dict>, rest: seq<Dict>, k: Key, mine: seq<Dict>)
    requires WithKey(key, rest, k) == WithKey(key, tail, k) + mine
    ensures WithKey(key, [y] + rest, k) == WithKey(key, [y] + tail, k) + mine
  {
    WithKeyPrepend(key, y, rest, k);
    WithKeyPrepend(key, y, tail, k);
    ConcatShift(if key(y) == k then [y] else [], WithKey(key, rest, k), WithKey(key, tail, k), mine);
  }

  lemma ConcatShift(first: seq<Dict>, a: seq<Dict>, b: seq<Dict>, mine: seq<Dict>)
    requires a == b + mine
    ensures first + a == (first + b) + mine
  {
  }

  /** When `x` goes before the first record of an ordered list, no record of the list has the key of `x`. */
  lemma NoneWithKeyAfter(key: Dict -> Key, desc: bool, x: Dict, ys: seq<Dict>, k: Key)
    requires InOrder(key, desc, ys) && ys != [] && Before(key, desc, x, ys[0])
    ensures key(x) == k ==> WithKey(key, ys, k) == []
  {
    if key(x) == k {
      forall i | 0 <= i < |ys| ensures key(ys[i]) != k {
        if i > 0 && !Before(key, desc, x, ys[i]) {
          assert !Before(key, desc, ys[i], ys[0]);
          if Before(key, desc, ys[i], x) {
            BeforeTransitive(key, desc, ys[i], x, ys[0]);
          } else {
            BeforeTotal(key, desc, x, ys[i]);
          }
        }
        if key(ys[i]) == k {
          BeforeIrreflexive(key, desc, x);
        }
      }
      WithKeyNone(key, ys, k);
    }
  }

  lemma {:induction false} WithKeyNone(key: Dict -> Key, s: seq<Dict>, k: Key)
    requires forall i :: 0 <= i < |s| ==> key(s[i]) != k
    ensures WithKey(key, s, k) == []
  {
    if s != [] {
      WithKeyNone(key, s[..|s| - 1], k);
    }
  }

  lemma {:induction false} WithKeyPrepend(key: Dict -> Key, x: Dict, s: seq<Dict>, k: Key)
    ensures WithKey(key, [x] + s, k) == (if key(x) == k then [x] else []) + WithKey(key, s, k)
    decreases |s|
  {
    if s != [] {
      var init := s[..|s| - 1];
      WithKeyPrepend(key, x, init, k);
      assert ([x] + s)[..|s|] == [x] + init;
    } else {
      assert WithKey(key, [x], k) == WithKey(key, [], k) + (if key(x) == k then [x] else []);
    }
  }

  /** The sort returns a permutation of its input. */
  lemma {:induction false} SortByPermutation(key: Dict -> Key, desc: bool, xs: seq<Dict>)
    ensures multiset(SortBy(key, desc, xs)) == multiset(xs)
  {
    if xs != [] {
      var init := xs[..|xs| - 1];
      SortByPermutation(key, desc, init);
      InsertMultiset(key, desc, xs[|xs| - 1], SortBy(key, desc, init));
      assert xs == init + [xs[|xs| - 1]];
    }
  }

  /** The sort returns its input in order. */
  lemma {:induction false} SortByInOrder(key: Dict -> Key, desc: bool, xs: seq<Dict>)
    ensures InOrder(key, desc, SortBy(key, desc, xs))
  {
    if xs != [] {
      SortByInOrder(key, desc, xs[..|xs| - 1]);
      InsertInOrder(key, desc, xs[|xs| - 1], SortBy(key, desc, xs[..|xs| - 1]));
    }
  }

  /** The sort is stable: records with equal keys keep their relative order. */
  lemma {:induction false} SortByStable(key: Dict -> Key, desc: bool, xs: seq<Dict>, k: Key)
    ensures WithKey(key, SortBy(key, desc, xs), k) == WithKey(key, xs, k)
  {
    if xs != [] {
      var init := xs[..|xs| - 1];
      SortByStable(key, desc, init, k);
      SortByInOrder(key, desc, init);
      InsertWithKey(key, desc, xs[|xs| - 1], SortBy(key, desc, init), k);
    }
  }

  // ---------------------------------------------------------------------------
  // Pages

  /** First index of a page; pages below 1 count as page 1. */
  function PageStart(page: int, pageSize: nat): nat {
    (if page - 1 > 0 then page - 1 else 0) * pageSize
  }

  /** `records[start:start + page_size]` with Python's clamping of slice bounds. */
  function Page(records: seq<Dict>, page: int, pageSize: nat): (r: seq<Dict>)
    ensures var start := PageStart(page, pageSize);
      && |r| == (if start >= |records| then 0 else Min(pageSize, |records| - start))
      && forall i :: 0 <= i < |r| ==> r[i] == records[start + i]
  {
    var start := PageStart(page, pageSize);
    var end := start + pageSize;
    if start >= |records| then [] else records[start..Min(end, |records|)]
  }

  function Min(a: int, b: int): int {
    if a < b then a else b
  }

  /** Pages 1 to `k`, one after the other. */
  function FirstPages(records: seq<Dict>, k: nat, pageSize: nat): seq<Dict> {
    if k == 0 then [] else FirstPages(records, k - 1, pageSize) + Page(records, k, pageSize)
  }

  /** Consecutive pages neither skip nor repeat a record: the first `k` of them are the first `k * page_size` records. */
  lemma {:induction false} FirstPagesPrefix(records: seq<Dict>, k: nat, pageSize: nat)
    requires pageSize >= 1
    ensures FirstPages(records, k, pageSize) == records[..Min(k * pageSize, |records|)]
  {
    if k > 0 {
      FirstPagesPrefix(records, k - 1, pageSize);
      var start := (k - 1) * pageSize;
      var end := start + pageSize;
      assert k * pageSize == end;
      assert PageStart(k, pageSize) == start;
      var page := Page(records, k, pageSize);
      if start >= |records| {
        assert page == [];
      } else {
        assert page == records[start..Min(end, |records|)];
        SliceSplit(records, start, Min(end, |records|));
      }
    }
  }

  lemma SliceSplit(records: seq<Dict>, a: nat, b: nat)
    requires a <= b <= |records|
    ensures records[..b] == records[..a] + records[a..b]
  {
  }

  /** Every page past the last record is empty, and a page below 1 is page 1. */
  lemma PageBounds(records: seq<Dict>, page: int, pageSize: nat)
    ensures (page - 1) * pageSize >= |records| ==> Page(records, page, pageSize) == []
    ensures page < 1 ==> Page(records, page, pageSize) == Page(records, 1, pageSize)
  {
  }
}
