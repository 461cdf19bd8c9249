/** The array operations the source uses on row lists (`filter`, `find`,
    `some`) and the `ORDER BY` of its queries, over sequences. */
module Seqs {
  import opened Wrappers

  /** `rows.filter(p)`: the rows satisfying `p`, in their original order. */
  function Filter<T(!new)>(rows: seq<T>, p: T -> bool): (r: seq<T>)
    ensures |r| <= |rows|
    ensures forall x :: x in r <==> x in rows && p(x)
    ensures forall i :: 0 <= i < |r| ==> p(r[i])
  {
    if rows == [] then []
    else if p(rows[0]) then [rows[0]] + Filter(rows[1..], p)
    else Filter(rows[1..], p)
  }

  /** Filtering distributes over concatenation: this is what "in input
      order" means for a filter. */
  lemma {:induction false} FilterAppend<T(!new)>(a: seq<T>, b: seq<T>, p: T -> bool)
    ensures Filter(a + b, p) == Filter(a, p) + Filter(b, p)
  {
    if a == [] {
      assert a + b == b;
    } else {
      assert (a + b)[1..] == a[1..] + b;
      FilterAppend(a[1..], b, p);
    }
  }

  /** A filter that rejects nothing is the identity. */
  lemma {:induction false} FilterKeepsAll<T(!new)>(rows: seq<T>, p: T -> bool)
    requires forall i :: 0 <= i < |rows| ==> p(rows[i])
    ensures Filter(rows, p) == rows
  {
    if rows != [] {
      FilterKeepsAll(rows[1..], p);
    }
  }

  /** A one-entry list is kept or dropped whole. */
  lemma FilterSingle<T(!new)>(x: T, p: T -> bool)
    ensures Filter([x], p) == if p(x) then [x] else []
  {
    assert [x][1..] == [];
  }

  /** A filter keeps exactly the occurrences that satisfy `p` and drops the rest. */
  lemma {:induction false} FilterMultiset<T(!new)>(rows: seq<T>, p: T -> bool, x: T)
    ensures multiset(Filter(rows, p))[x] == if p(x) then multiset(rows)[x] else 0
  {
    if rows != [] {
      FilterMultiset(rows[1..], p, x);
      assert rows == [rows[0]] + rows[1..];
    }
  }

  /** `rows.map(f)` */
  function Map<A, B>(rows: seq<A>, f: A -> B): (r: seq<B>)
    ensures |r| == |rows|
    ensures forall i :: 0 <= i < |rows| ==> r[i] == f(rows[i])
  {
    seq(|rows|, i requires 0 <= i < |rows| => f(rows[i]))
  }

  /** Mapping distributes over concatenation. */
  lemma MapAppend<A, B>(a: seq<A>, b: seq<A>, f: A -> B)
    ensures Map(a + b, f) == Map(a, f) + Map(b, f)
  {
    var l, r := Map(a + b, f), Map(a, f) + Map(b, f);
    assert |l| == |r|;
    forall i | 0 <= i < |l| ensures l[i] == r[i] {
      if i < |a| { assert (a + b)[i] == a[i]; } else { assert (a + b)[i] == b[i - |a|]; }
    }
  }

  /** `rows.find(p)`: the first row satisfying `p`, or undefined. */
  function FindFirst<T>(rows: seq<T>, p: T -> bool): (r: Option<T>)
    ensures r.None? <==> forall i :: 0 <= i < |rows| ==> !p(rows[i])
    ensures r.Some? ==> exists k :: 0 <= k < |rows| && rows[k] == r.value && p(rows[k])
                          && forall i :: 0 <= i < k ==> !p(rows[i])
  {
    if rows == [] then None
    else if p(rows[0]) then Some(rows[0])
    else
      var r := FindFirst(rows[1..], p);
      assert r.Some? ==> exists k :: 0 <= k < |rows| && rows[k] == r.value && p(rows[k])
                           && forall i :: 0 <= i < k ==> !p(rows[i]) by {
        if r.Some? {
          var k :| 0 <= k < |rows[1..]| && rows[1..][k] == r.value && p(rows[1..][k])
                   && forall i :: 0 <= i < k ==> !p(rows[1..][i]);
          assert rows[k + 1] == r.value && forall i :: 0 <= i < k + 1 ==> !p(rows[i]);
        }
      }
      r
  }

  /** `rows.some(p)`. */
  function Any<T>(rows: seq<T>, p: T -> bool): (r: bool)
    ensures r <==> exists i :: 0 <= i < |rows| && p(rows[i])
  {
    if rows == [] then false
    else p(rows[0]) || Any(rows[1..], p)
  }

  /** `le` is a total preorder: what an `ORDER BY` column comparison is. */
  ghost predicate TotalPreorder<T(!new)>(le: (T, T) -> bool) {
    && (forall a, b :: le(a, b) || le(b, a))
    && (forall a, b, c :: le(a, b) && le(b, c) ==> le(a, c))
  }

  ghost predicate Sorted<T>(s: seq<T>, le: (T, T) -> bool) {
    forall i, j :: 0 <= i < j < |s| ==> le(s[i], s[j])
  }

  /** Places `x` before the first element it is ordered before. */
  function Insert<T>(x: T, s: seq<T>, le: (T, T) -> bool): (r: seq<T>)
    ensures multiset(r) == multiset(s) + multiset{x}
  {
    if s == [] then [x]
    else if le(x, s[0]) then [x] + s
    else
      assert s == [s[0]] + s[1..];
      [s[0]] + Insert(x, s[1..], le)
  }

  /** The order a query with `ORDER BY` returns its rows in. Rows with equal
      keys stay in their stored order here; the contracts below promise only
      what SQL promises (sorted, same rows). */
  function SortBy<T>(s: seq<T>, le: (T, T) -> bool): (r: seq<T>)
    ensures multiset(r) == multiset(s)
  {
    if s == [] then []
    else
      assert s == [s[0]] + s[1..];
      Insert(s[0], SortBy(s[1..], le), le)
  }

  lemma {:induction false} InsertSorted<T(!new)>(x: T, s: seq<T>, le: (T, T) -> bool)
    requires TotalPreorder(le)
    requires Sorted(s, le)
    ensures Sorted(Insert(x, s, le), le)
  {
    if s != [] && !le(x, s[0]) {
      var t := Insert(x, s[1..], le);
      InsertSorted(x, s[1..], le);
      var r := [s[0]] + t;
      forall j | 0 < j < |r| ensures le(s[0], r[j]) {
        assert r[j] in multiset(t);
        assert r[j] == x || r[j] in multiset(s[1..]);
        if r[j] != x {
          var k :| 0 <= k < |s[1..]| && s[1..][k] == r[j];
          assert s[k + 1] == r[j];
        }
      }
    }
  }

  /** An `ORDER BY` result is sorted by its comparison. */
  lemma {:induction false} SortBySorted<T(!new)>(s: seq<T>, le: (T, T) -> bool)
    requires TotalPreorder(le)
    ensures Sorted(SortBy(s, le), le)
  {
    if s != [] {
      SortBySorted(s[1..], le);
      InsertSorted(s[0], SortBy(s[1..], le), le);
    }
  }

  /** What a listing query promises: the rows of `table` that satisfy its
      `WHERE` clause `p`, each as often as stored, ordered by `le`. */
  ghost predicate OrderedSelection<T(!new)>(r: seq<T>, table: seq<T>, p: T -> bool, le: (T, T) -> bool) {
    && Sorted(r, le)
    && multiset(r) == multiset(Filter(table, p))
  }

  /** `SELECT ... WHERE p ORDER BY le`. */
  function Select<T(!new)>(table: seq<T>, p: T -> bool, le: (T, T) -> bool): (r: seq<T>)
    requires TotalPreorder(le)
    ensures OrderedSelection(r, table, p, le)
    ensures forall x :: x in r <==> x in table && p(x)
  {
    SortBySorted(Filter(table, p), le);
    var r := SortBy(Filter(table, p), le);
    assert forall x :: x in r <==> x in multiset(Filter(table, p));
    r
  }
}
