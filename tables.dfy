/**
 * Rows of a backend table and the query-builder operations the dashboards
 * issue on them: update by key, delete by key, filter, lookup, count, find
 * and order-by. A table is a sequence of rows in insertion order.
 */
module Tables {
  import opened Wrappers

  /** A primary key as the backend hands it out. */
  type Id = nat

  /** One stored row: its primary key and its other columns. */
  datatype Row<T> = Row(id: Id, val: T)

  /** The primary-key constraint: no two rows share an id. */
  ghost predicate DistinctIds<T>(rows: seq<Row<T>>)
  {
    forall i, j :: 0 <= i < j < |rows| ==> rows[i].id != rows[j].id
  }

  /** Every key is below `bound`, so `bound` is a fresh key. */
  ghost predicate IdsBelow<T>(rows: seq<Row<T>>, bound: nat)
  {
    forall i :: 0 <= i < |rows| ==> rows[i].id < bound
  }

  /** The invariant of a keyed table whose next key is `bound`. */
  ghost predicate Keyed<T>(rows: seq<Row<T>>, bound: nat)
  {
    DistinctIds(rows) && IdsBelow(rows, bound)
  }

  /** `.update(f).eq('id', id)`: every row with key `id` gets `f` applied, no other row changes. */
  function Update<T>(rows: seq<Row<T>>, id: Id, f: T -> T): (r: seq<Row<T>>)
    ensures |r| == |rows|
    ensures forall i :: 0 <= i < |rows| && rows[i].id != id ==> r[i] == rows[i]
    ensures forall i :: 0 <= i < |rows| && rows[i].id == id ==> r[i] == Row(id, f(rows[i].val))
  {
    if rows == [] then []
    else [if rows[0].id == id then Row(id, f(rows[0].val)) else rows[0]] + Update(rows[1..], id, f)
  }

  /** `.delete().eq('id', id)`: the rows with key `id` are gone, the others stay in order. */
  function Delete<T>(rows: seq<Row<T>>, id: Id): (r: seq<Row<T>>)
    ensures |r| <= |rows|
    ensures forall i :: 0 <= i < |r| ==> r[i] in rows && r[i].id != id
    ensures forall i :: 0 <= i < |rows| && rows[i].id != id ==> rows[i] in r
  {
    if rows == [] then []
    else (if rows[0].id == id then [] else [rows[0]]) + Delete(rows[1..], id)
  }

  /** A `where` clause: the elements satisfying `p`, in their original order. */
  function Filter<T>(s: seq<T>, p: T -> bool): (r: seq<T>)
    ensures |r| <= |s|
    ensures forall i :: 0 <= i < |r| ==> r[i] in s && p(r[i])
    ensures forall i :: 0 <= i < |s| && p(s[i]) ==> s[i] in r
  {
    if s == [] then []
    else (if p(s[0]) then [s[0]] else []) + Filter(s[1..], p)
  }

  /** The number of elements satisfying `p` (`.filter(p).length`). */
  function Count<T>(s: seq<T>, p: T -> bool): (n: nat)
    ensures n == |Filter(s, p)|
    ensures n <= |s|
    ensures n == 0 <==> forall i :: 0 <= i < |s| ==> !p(s[i])
    ensures n == |s| <==> forall i :: 0 <= i < |s| ==> p(s[i])
  {
    if s == [] then 0
    else (if p(s[0]) then 1 else 0) + Count(s[1..], p)
  }

  /** `Array.prototype.find`, as an index: the first position whose element satisfies `p`. */
  function FindFirst<T>(s: seq<T>, p: T -> bool): (r: Option<nat>)
    ensures r.Some? ==> r.value < |s| && p(s[r.value])
    ensures r.Some? ==> forall j :: 0 <= j < r.value ==> !p(s[j])
    ensures r.None? <==> forall j :: 0 <= j < |s| ==> !p(s[j])
  {
    if s == [] then None
    else if p(s[0]) then Some(0)
    else match FindFirst(s[1..], p)
      case None => None
      case Some(k) => Some(k + 1)
  }

  /** `.eq('id', id).single()` on a keyed table: the columns of the (first) row with that key. */
  function Lookup<T>(rows: seq<Row<T>>, id: Id): (r: Option<T>)
    ensures r.Some? ==> Row(id, r.value) in rows
    ensures r.None? <==> forall i :: 0 <= i < |rows| ==> rows[i].id != id
  {
    if rows == [] then None
    else if rows[0].id == id then Some(rows[0].val)
    else Lookup(rows[1..], id)
  }

  /** After an update by key, the lookup of that key sees the updated columns. */
  lemma {:induction false} LookupAfterUpdate<T>(rows: seq<Row<T>>, id: Id, f: T -> T)
    ensures Lookup(Update(rows, id, f), id) == match Lookup(rows, id) case None => None case Some(v) => Some(f(v))
  {
    if rows != [] {
      assert Update(rows, id, f)[1..] == Update(rows[1..], id, f);
      LookupAfterUpdate(rows[1..], id, f);
    }
  }

  /** An update by key keeps the keys, so it keeps a table keyed. */
  lemma UpdateKeepsKeyed<T>(rows: seq<Row<T>>, id: Id, f: T -> T, bound: nat)
    requires Keyed(rows, bound)
    ensures Keyed(Update(rows, id, f), bound)
  {
    var r := Update(rows, id, f);
    assert forall i :: 0 <= i < |rows| ==> r[i].id == rows[i].id;
  }

  /** The columns of each row, without the keys. */
  function Values<T>(rows: seq<Row<T>>): (r: seq<T>)
    ensures |r| == |rows|
    ensures forall i :: 0 <= i < |rows| ==> r[i] == rows[i].val
  {
    if rows == [] then [] else [rows[0].val] + Values(rows[1..])
  }

  /** `.limit(n)`: at most the first `n` elements. */
  function Limit<T>(s: seq<T>, n: nat): (r: seq<T>)
    ensures |r| == if |s| <= n then |s| else n
    ensures forall i :: 0 <= i < |r| ==> r[i] == s[i]
  {
    if |s| <= n then s else s[..n]
  }

  /** Ascending order of `key`. */
  ghost predicate SortedBy<T>(s: seq<T>, key: T -> int)
  {
    forall i, j :: 0 <= i < j < |s| ==> key(s[i]) <= key(s[j])
  }

  /** `x` placed into `s` before the first element whose key is not smaller than its own. */
  function InsertBy<T>(x: T, s: seq<T>, key: T -> int): (r: seq<T>)
    ensures multiset(r) == multiset(s) + multiset{x}
  {
    if s == [] then [x]
    else if key(x) <= key(s[0]) then [x] + s
    else
      assert s == [s[0]] + s[1..];
      [s[0]] + InsertBy(x, s[1..], key)
  }

  /** A lower bound on the keys of `x` and of `s` bounds the keys after the insertion. */
  lemma {:induction false} InsertByBounded<T>(x: T, s: seq<T>, key: T -> int, b: int)
    requires b <= key(x) && forall i :: 0 <= i < |s| ==> b <= key(s[i])
    ensures forall i :: 0 <= i < |InsertBy(x, s, key)| ==> b <= key(InsertBy(x, s, key)[i])
  {
    if s != [] && key(s[0]) < key(x) {
      InsertByBounded(x, s[1..], key, b);
    }
  }

  /** Inserting into an ascending sequence keeps it ascending. */
  lemma {:induction false} InsertBySorted<T>(x: T, s: seq<T>, key: T -> int)
    requires SortedBy(s, key)
    ensures SortedBy(InsertBy(x, s, key), key)
  {
    if s != [] && key(s[0]) < key(x) {
      InsertBySorted(x, s[1..], key);
      InsertByBounded(x, s[1..], key, key(s[0]));
    }
  }

  /** `.order(key)`: the same elements, in ascending order of `key`. */
  function SortBy<T>(s: seq<T>, key: T -> int): (r: seq<T>)
    ensures multiset(r) == multiset(s)
    ensures SortedBy(r, key)
  {
    if s == [] then []
    else
      assert s == [s[0]] + s[1..];
      InsertBySorted(s[0], SortBy(s[1..], key), key);
      InsertBy(s[0], SortBy(s[1..], key), key)
  }

  /** What `.limit(n)` leaves out of an ordered sequence sorts no earlier than anything it keeps. */
  lemma LimitOmitted<T>(s: seq<T>, key: T -> int, n: nat)
    requires SortedBy(s, key)
    ensures forall x :: x in s && x !in Limit(s, n) ==>
      forall i :: 0 <= i < |Limit(s, n)| ==> key(Limit(s, n)[i]) <= key(x)
  {
    var r := Limit(s, n);
    forall x | x in s && x !in r ensures forall i :: 0 <= i < |r| ==> key(r[i]) <= key(x) {
      var k :| 0 <= k < |s| && s[k] == x;
    }
  }

  /**
   * The filter keeps every satisfying element exactly as often as it occurs and
   * drops every other: the filtered list is the satisfying part of the input, counted.
   */
  lemma {:induction false} FilterCounts<T(!new)>(s: seq<T>, p: T -> bool)
    ensures forall x :: multiset(Filter(s, p))[x] == (if p(x) then multiset(s)[x] else 0)
  {
    if s != [] {
      FilterCounts(s[1..], p);
      assert s == [s[0]] + s[1..];
    }
  }

  /**
   * The filter distributes over concatenation and keeps or drops single elements,
   * so it keeps the satisfying elements in their original order.
   */
  lemma {:induction false} FilterAppend<T>(s: seq<T>, t: seq<T>, p: T -> bool)
    ensures Filter(s + t, p) == Filter(s, p) + Filter(t, p)
    ensures forall x :: Filter([x], p) == (if p(x) then [x] else [])
  {
    if s == [] {
      assert s + t == t;
    } else {
      assert (s + t)[0] == s[0];
      assert (s + t)[1..] == s[1..] + t;
      FilterAppend(s[1..], t, p);
    }
  }

  /** The filtered sequence holds exactly the elements that satisfy `p`. */
  lemma FilterMembers<T>(s: seq<T>, p: T -> bool)
    ensures forall x :: x in Filter(s, p) <==> x in s && p(x)
  {
    var r := Filter(s, p);
    forall x ensures x in r <==> x in s && p(x) {
      if x in r {
        var k :| 0 <= k < |r| && r[k] == x;
      }
      if x in s && p(x) {
        var k :| 0 <= k < |s| && s[k] == x;
      }
    }
  }

  /** Ordering neither adds nor drops an element. */
  lemma SortByMembers<T>(s: seq<T>, key: T -> int)
    ensures forall x :: x in SortBy(s, key) <==> x in s
  {
    var r := SortBy(s, key);
    forall x ensures x in r <==> x in s {
      assert x in r <==> x in multiset(r);
      assert x in s <==> x in multiset(s);
    }
  }

  /** Deleting by key keeps a table keyed. */
  lemma {:induction false} DeleteKeepsKeyed<T>(rows: seq<Row<T>>, id: Id, bound: nat)
    requires Keyed(rows, bound)
    ensures Keyed(Delete(rows, id), bound)
  {
    if rows != [] {
      DeleteKeepsKeyed(rows[1..], id, bound);
      var rest := Delete(rows[1..], id);
      forall x | x in rest ensures x.id != rows[0].id && x.id < bound {
        var k :| 0 <= k < |rows[1..]| && rows[1..][k] == x;
        assert rows[k + 1] == x;
      }
    }
  }

  /** Appending a row under the fresh key `bound` keeps the table keyed, with the next key `bound + 1`. */
  lemma AppendKeepsKeyed<T>(rows: seq<Row<T>>, bound: nat, v: T)
    requires Keyed(rows, bound)
    ensures Keyed(rows + [Row(bound, v)], bound + 1)
  {
  }

  /**
   * Updating the one row with key `id` so that it leaves `p` while it satisfied `p`
   * before lowers the count by exactly one.
   */
  lemma {:induction false} CountAfterUpdate<T>(rows: seq<Row<T>>, id: Id, f: T -> T, p: Row<T> -> bool, k: nat)
    requires DistinctIds(rows)
    requires k < |rows| && rows[k].id == id
    requires p(rows[k]) && !p(Row(id, f(rows[k].val)))
    ensures Count(Update(rows, id, f), p) == Count(rows, p) - 1
  {
    var r := Update(rows, id, f);
    assert r[1..] == Update(rows[1..], id, f);
    if k == 0 {
      assert r[1..] == rows[1..];
    } else {
      CountAfterUpdate(rows[1..], id, f, p, k - 1);
      assert r[0] == rows[0];
    }
  }
}
