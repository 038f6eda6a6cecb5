/**
 * Table rows and the handful of row operations every table shares: look a row
 * up by primary key, keep the rows a `WHERE` clause selects, rewrite the rows
 * with a given key, and order a result (`ORDER BY`).
 */
module Rows {
  import opened Wrappers

  /**
   * A stored row: the autoincrement primary key `id`, the `createdAt` stamp the
   * database fills in on insert (`defaultNow()`), and the row's other columns.
   */
  datatype Row<T> = Row(id: int, createdAt: int, data: T)

  /** The primary keys present in a table. */
  function Ids<T(==,!new)>(s: seq<Row<T>>): set<int> {
    set r | r in s :: r.id
  }

  /** Rows sit in insertion order, so their autoincrement keys strictly increase. */
  predicate KeysIncreasing<T(==,!new)>(s: seq<Row<T>>) {
    forall i, j :: 0 <= i < j < |s| ==> s[i].id < s[j].id
  }

  /** `SELECT ... WHERE id = ? LIMIT 1`: the first row with that key, if any. */
  function Find<T(==,!new)>(s: seq<Row<T>>, id: int): (r: Option<Row<T>>)
    ensures r.Some? ==> r.value in s && r.value.id == id
    ensures r.None? <==> id !in Ids(s)
  {
    if s == [] then None
    else if s[0].id == id then Some(s[0])
    else Find(s[1..], id)
  }

  /** Under increasing keys, the row `Find` returns is the only one with that key. */
  lemma {:induction false} FindUnique<T(!new)>(s: seq<Row<T>>, id: int, k: nat)
    requires KeysIncreasing(s)
    requires k < |s| && s[k].id == id
    ensures Find(s, id) == Some(s[k])
  {
    if k > 0 {
      assert s[0].id < s[k].id;
      FindUnique(s[1..], id, k - 1);
    }
  }

  /** The rows a `WHERE p` clause keeps, in table order. */
  function Filter<T(==,!new)>(s: seq<T>, p: T -> bool): (r: seq<T>)
    ensures |r| <= |s|
    ensures forall x :: x in r <==> x in s && p(x)
  {
    if s == [] then []
    else
      assert s == [s[0]] + s[1..];
      (if p(s[0]) then [s[0]] else []) + Filter(s[1..], p)
  }

  /** A filter keeps every copy of a row it selects and no copy of any other. */
  lemma {:induction false} FilterMultiset<T(!new)>(s: seq<T>, p: T -> bool)
    ensures forall x :: multiset(Filter(s, p))[x] == if p(x) then multiset(s)[x] else 0
  {
    if s != [] {
      var tail := s[1..];
      FilterMultiset(tail, p);
      assert s == [s[0]] + tail;
      var head := if p(s[0]) then [s[0]] else [];
      assert Filter(s, p) == head + Filter(tail, p);
      assert multiset(Filter(s, p)) == multiset(head) + multiset(Filter(tail, p));
      assert multiset(s) == multiset{s[0]} + multiset(tail);
    }
  }

  /** Filtering keeps the order of what it keeps, so keys still increase. */
  lemma {:induction false} FilterKeysIncreasing<T(!new)>(s: seq<Row<T>>, p: Row<T> -> bool)
    ensures KeysIncreasing(s) ==> KeysIncreasing(Filter(s, p))
  {
    if s != [] && KeysIncreasing(s) {
      var tail := s[1..];
      assert KeysIncreasing(tail);
      FilterKeysIncreasing(tail, p);
      if p(s[0]) {
        HeadKeyBelowFiltered(s, p);
        ConsKeysIncreasing(s[0], Filter(tail, p));
      }
    }
  }

  /** Under increasing keys, the first row's key is below every key a filter keeps from the rest. */
  lemma HeadKeyBelowFiltered<T(!new)>(s: seq<Row<T>>, p: Row<T> -> bool)
    requires s != [] && KeysIncreasing(s)
    ensures forall x :: x in Filter(s[1..], p) ==> s[0].id < x.id
  {
    var tail := s[1..];
    forall x | x in Filter(tail, p) ensures s[0].id < x.id {
      var k :| 0 <= k < |tail| && tail[k] == x;
      assert s[k + 1] == x;
    }
  }

  /** A row with a smaller key than every row of an increasing sequence can go in front of it. */
  lemma ConsKeysIncreasing<T(!new)>(x: Row<T>, rest: seq<Row<T>>)
    requires KeysIncreasing(rest)
    requires forall y :: y in rest ==> x.id < y.id
    ensures KeysIncreasing([x] + rest)
  {
    var r := [x] + rest;
    forall i, j | 0 <= i < j < |r| ensures r[i].id < r[j].id {
      assert r[j] == rest[j - 1];
      if i > 0 {
        assert r[i] == rest[i - 1];
      }
    }
  }

  /** `DELETE ... WHERE id = ?`: every row except the ones with that key. */
  function Without<T(==,!new)>(s: seq<Row<T>>, id: int): (r: seq<Row<T>>)
    ensures forall x :: x in r <==> x in s && x.id != id
    ensures id !in Ids(s) ==> r == s
    ensures KeysIncreasing(s) ==> KeysIncreasing(r)
  {
    var keep := (x: Row<T>) => x.id != id;
    FilterKeysIncreasing(s, keep);
    FilterAll(s, keep);
    Filter(s, keep)
  }

  /** Deleting a key removes exactly that key from the table's key set. */
  lemma WithoutIds<T(!new)>(s: seq<Row<T>>, id: int)
    ensures Ids(Without(s, id)) == Ids(s) - {id}
  {
    var r := Without(s, id);
    forall k | k in Ids(s) - {id} ensures k in Ids(r) {
      var row :| row in s && row.id == k;
      assert row in r;
    }
  }

  /** Filtering a concatenation filters each part and keeps them in order. */
  lemma {:induction false} FilterAppend<T(!new)>(a: seq<T>, b: seq<T>, p: T -> bool)
    ensures Filter(a + b, p) == Filter(a, p) + Filter(b, p)
  {
    if a == [] {
      assert a + b == b;
    } else {
      assert (a + b)[0] == a[0];
      assert (a + b)[1..] == a[1..] + b;
      FilterAppend(a[1..], b, p);
    }
  }

  /** A filter that no row passes keeps nothing. */
  lemma FilterNone<T(!new)>(s: seq<T>, p: T -> bool)
    ensures (forall x :: x in s ==> !p(x)) ==> Filter(s, p) == []
  {
    var r := Filter(s, p);
    if r != [] {
      assert r[0] in r;
    }
  }

  /** A filter that every row passes changes nothing. */
  lemma {:induction false} FilterAll<T(!new)>(s: seq<T>, p: T -> bool)
    ensures (forall x :: x in s ==> p(x)) ==> Filter(s, p) == s
  {
    if s != [] && forall x :: x in s ==> p(x) {
      var tail := s[1..];
      forall x | x in tail ensures p(x) {
        assert x in s;
      }
      FilterAll(tail, p);
      assert p(s[0]);
      assert Filter(s, p) == [s[0]] + tail;
      assert [s[0]] + tail == s;
    }
  }

  /**
   * `UPDATE ... SET ... WHERE id = ?`: every row with that key gets its columns
   * rewritten by `f`; keys, creation stamps and all other rows stay as they were.
   */
  function UpdateWhere<T(==,!new)>(s: seq<Row<T>>, id: int, f: T -> T): (r: seq<Row<T>>)
    ensures |r| == |s|
    ensures forall i :: 0 <= i < |s| ==> r[i].id == s[i].id && r[i].createdAt == s[i].createdAt
    ensures forall i :: 0 <= i < |s| && s[i].id != id ==> r[i] == s[i]
    ensures forall i :: 0 <= i < |s| && s[i].id == id ==> r[i].data == f(s[i].data)
  {
    if s == [] then []
    else
      var head := if s[0].id == id then s[0].(data := f(s[0].data)) else s[0];
      [head] + UpdateWhere(s[1..], id, f)
  }

  /** An update whose key matches no row leaves the table as it was. */
  lemma UpdateMissing<T(!new)>(s: seq<Row<T>>, id: int, f: T -> T)
    requires id !in Ids(s)
    ensures UpdateWhere(s, id, f) == s
  {
    var r := UpdateWhere(s, id, f);
    assert forall i :: 0 <= i < |s| ==> s[i] in s && s[i].id != id;
    assert forall i :: 0 <= i < |s| ==> r[i] == s[i];
  }

  /** An update keeps the set of keys and their order. */
  lemma UpdateKeepsKeys<T(!new)>(s: seq<Row<T>>, id: int, f: T -> T)
    ensures Ids(UpdateWhere(s, id, f)) == Ids(s)
    ensures KeysIncreasing(s) ==> KeysIncreasing(UpdateWhere(s, id, f))
  {
    var r := UpdateWhere(s, id, f);
    forall x | x in Ids(r) ensures x in Ids(s) {
      var row :| row in r && row.id == x;
      var i :| 0 <= i < |r| && r[i] == row;
      assert s[i] in s;
    }
    forall x | x in Ids(s) ensures x in Ids(r) {
      var row :| row in s && row.id == x;
      var i :| 0 <= i < |s| && s[i] == row;
      assert r[i] in r;
    }
  }

  // ---------------------------------------------------------------------------
  // ORDER BY

  /** `le` orders every pair and is transitive: what an `ORDER BY` key gives. */
  ghost predicate TotalPreorder<T(!new)>(le: (T, T) -> bool) {
    && (forall a, b :: le(a, b) || le(b, a))
    && (forall a, b, c :: le(a, b) && le(b, c) ==> le(a, c))
  }

  predicate SortedBy<T(==,!new)>(s: seq<T>, le: (T, T) -> bool) {
    forall i, j :: 0 <= i < j < |s| ==> le(s[i], s[j])
  }

  function Insert<T(==,!new)>(x: T, s: seq<T>, le: (T, T) -> bool): (r: seq<T>)
    requires TotalPreorder(le) && SortedBy(s, le)
    ensures SortedBy(r, le)
    ensures forall y :: y in r <==> y == x || y in s
    ensures multiset(r) == multiset(s) + multiset{x}
  {
    if s == [] || le(x, s[0]) then
      SortedHead(s, le);
      SortedCons(x, s, le);
      [x] + s
    else
      var tail := s[1..];
      assert SortedBy(tail, le);
      var rest := Insert(x, tail, le);
      SortedHead(s, le);
      assert le(s[0], x);
      SortedCons(s[0], rest, le);
      assert s == [s[0]] + tail;
      [s[0]] + rest
  }

  /** The head of a sorted sequence comes before every element. */
  lemma SortedHead<T(!new)>(s: seq<T>, le: (T, T) -> bool)
    requires TotalPreorder(le) && SortedBy(s, le)
    ensures s != [] ==> forall y :: y in s ==> le(s[0], y)
  {
    if s != [] {
      forall y | y in s ensures le(s[0], y) {
        var j :| 0 <= j < |s| && s[j] == y;
        if j == 0 {
          assert le(y, y) || le(y, y);
        }
      }
    }
  }

  /** An element that comes before every element of a sorted sequence can go in front of it. */
  lemma SortedCons<T(!new)>(x: T, s: seq<T>, le: (T, T) -> bool)
    requires TotalPreorder(le) && SortedBy(s, le)
    requires forall y :: y in s ==> le(x, y)
    ensures SortedBy([x] + s, le)
  {
    var r := [x] + s;
    forall i, j | 0 <= i < j < |r| ensures le(r[i], r[j]) {
      assert r[j] == s[j - 1];
      if i > 0 {
        assert r[i] == s[i - 1];
      }
    }
  }

  /**
   * The rows of `s` ordered by `le`. Rows that `le` ranks equal keep no
   * particular order, as with SQL's `ORDER BY`.
   */
  function Sort<T(==,!new)>(s: seq<T>, le: (T, T) -> bool): (r: seq<T>)
    requires TotalPreorder(le)
    ensures SortedBy(r, le)
    ensures multiset(r) == multiset(s)
  {
    if s == [] then []
    else
      assert s == [s[0]] + s[1..];
      Insert(s[0], Sort(s[1..], le), le)
  }

  /** `ORDER BY createdAt DESC`: newer rows first. */
  predicate NewerFirst<T(==,!new)>(a: Row<T>, b: Row<T>) {
    a.createdAt >= b.createdAt
  }

  lemma NewerFirstIsTotalPreorder<T(!new)>()
    ensures TotalPreorder(NewerFirst<T>)
  {
  }

  /** String order by character code (a binary collation). */
  predicate LexLe(a: string, b: string) {
    if a == [] then true
    else if b == [] then false
    else if a[0] != b[0] then a[0] < b[0]
    else LexLe(a[1..], b[1..])
  }

  lemma {:induction false} LexLeTotal(a: string, b: string)
    ensures LexLe(a, b) || LexLe(b, a)
  {
    if a != [] && b != [] && a[0] == b[0] {
      LexLeTotal(a[1..], b[1..]);
    }
  }

  lemma {:induction false} LexLeTransitive(a: string, b: string, c: string)
    requires LexLe(a, b) && LexLe(b, c)
    ensures LexLe(a, c)
  {
    if a != [] && b != [] && c != [] && a[0] == b[0] && b[0] == c[0] {
      LexLeTransitive(a[1..], b[1..], c[1..]);
    }
  }
}
