/** The storage side of the paged listings: rows are enumerated by id, ordered by one
    column (`ORDER BY column ASC|DESC`) and cut to one page (`OFFSET skip LIMIT take`). */
module Listing {
  import opened Common
  import opened Calendar

  datatype Order = Asc | Desc

  /** The value a row holds in the sort column. `NullValue` is SQL null, which
      PostgreSQL places after every other value in ascending order. */
  datatype SortValue = Text(s: string) | Time(t: int) | Flag(b: bool) | NullValue

  /** The sort value of a nullable text column. */
  function NullableText(n: Nullable<string>): SortValue {
    if n.Null? then NullValue else Text(n.value)
  }

  /** The sort value of a nullable timestamp column. */
  function NullableTime(n: Nullable<Date>): SortValue {
    if n.Null? then NullValue else Time(Instant(n.value))
  }

  /** Code-point order on strings (shorter prefix first). */
  predicate TextLess(a: string, b: string)
    decreases |a|
  {
    if a == [] then b != []
    else if b == [] then false
    else if a[0] == b[0] then TextLess(a[1..], b[1..])
    else a[0] < b[0]
  }

  lemma {:induction false} TextLessIrreflexive(a: string)
    ensures !TextLess(a, a)
    decreases |a|
  {
    if a != [] {
      TextLessIrreflexive(a[1..]);
    }
  }

  lemma {:induction false} TextLessTransitive(a: string, b: string, c: string)
    requires TextLess(a, b) && TextLess(b, c)
    ensures TextLess(a, c)
    decreases |a|
  {
    if a != [] && b != [] && c != [] && a[0] == b[0] && b[0] == c[0] {
      TextLessTransitive(a[1..], b[1..], c[1..]);
    }
  }

  lemma {:induction false} TextLessTotal(a: string, b: string)
    ensures a == b || TextLess(a, b) || TextLess(b, a)
    decreases |a|
  {
    if a != [] && b != [] && a[0] == b[0] {
      TextLessTotal(a[1..], b[1..]);
      if a[1..] == b[1..] {
        assert a == [a[0]] + a[1..] && b == [b[0]] + b[1..];
      }
    }
  }

  function Rank(v: SortValue): int {
    match v
    case Text(_) => 0
    case Time(_) => 1
    case Flag(_) => 2
    case NullValue => 3
  }

  /** Strict order on column values: text by code point, timestamps by instant,
      `false` before `true`, null last. */
  predicate ValueLess(a: SortValue, b: SortValue) {
    if a.Text? && b.Text? then TextLess(a.s, b.s)
    else if a.Time? && b.Time? then a.t < b.t
    else if a.Flag? && b.Flag? then !a.b && b.b
    else Rank(a) < Rank(b)
  }

  lemma ValueLessIrreflexive(a: SortValue)
    ensures !ValueLess(a, a)
  {
    if a.Text? {
      TextLessIrreflexive(a.s);
    }
  }

  lemma ValueLessTransitive(a: SortValue, b: SortValue, c: SortValue)
    requires ValueLess(a, b) && ValueLess(b, c)
    ensures ValueLess(a, c)
  {
    if a.Text? && b.Text? && c.Text? {
      TextLessTransitive(a.s, b.s, c.s);
    }
  }

  lemma ValueLessTotal(a: SortValue, b: SortValue)
    ensures a == b || ValueLess(a, b) || ValueLess(b, a)
  {
    if a.Text? && b.Text? {
      TextLessTotal(a.s, b.s);
    }
  }

  /** `a` may stand before `b` in a listing ordered by `order`. */
  predicate Precedes(a: SortValue, b: SortValue, order: Order) {
    if order == Asc then !ValueLess(b, a) else !ValueLess(a, b)
  }

  lemma PrecedesTotal(a: SortValue, b: SortValue, order: Order)
    ensures Precedes(a, b, order) || Precedes(b, a, order)
  {
    ValueLessTotal(a, b);
    if a == b {
      ValueLessIrreflexive(a);
    } else if ValueLess(a, b) && ValueLess(b, a) {
      ValueLessTransitive(a, b, a);
      ValueLessIrreflexive(a);
    }
  }

  lemma PrecedesTransitive(a: SortValue, b: SortValue, c: SortValue, order: Order)
    requires Precedes(a, b, order) && Precedes(b, c, order)
    ensures Precedes(a, c, order)
  {
    ValueLessTotal(a, b);
    ValueLessTotal(b, c);
    if order == Asc {
      if ValueLess(c, a) {
        if ValueLess(a, b) {
          ValueLessTransitive(c, a, b);
        }
      }
    } else {
      if ValueLess(a, c) {
        if ValueLess(c, b) {
          ValueLessTransitive(a, c, b);
        }
      }
    }
  }

  /** A row of a listing: its value in the sort column and its position in the
      enumeration of the table (which follows the ids). */
  datatype Entry = Entry(value: SortValue, row: int)

  /** Every row may stand before every later row. */
  predicate SortedBy(s: seq<Entry>, order: Order) {
    forall i, j :: 0 <= i < j < |s| ==> Precedes(s[i].value, s[j].value, order)
  }

  /** Insert `e` before the first row it may precede. */
  function Insert(e: Entry, s: seq<Entry>, order: Order): (r: seq<Entry>)
    ensures multiset(r) == multiset(s) + multiset{e}
    ensures forall x :: x in r ==> x == e || x in s
  {
    if s == [] then [e]
    else if Precedes(e.value, s[0].value, order) then [e] + s
    else
      assert s == [s[0]] + s[1..];
      [s[0]] + Insert(e, s[1..], order)
  }

  /** In a sorted listing the first row may precede every other row. */
  lemma HeadPrecedesRest(s: seq<Entry>, order: Order)
    requires s != [] && SortedBy(s, order)
    ensures forall x :: x in s[1..] ==> Precedes(s[0].value, x.value, order)
  {
    forall x | x in s[1..]
      ensures Precedes(s[0].value, x.value, order)
    {
      var k :| 0 <= k < |s[1..]| && s[1..][k] == x;
      assert s[k + 1] == x;
    }
  }

  /** A row that may precede every row of a sorted listing can be put in front of it. */
  lemma SortedCons(a: Entry, t: seq<Entry>, order: Order)
    requires SortedBy(t, order)
    requires forall x :: x in t ==> Precedes(a.value, x.value, order)
    ensures SortedBy([a] + t, order)
  {
    var r := [a] + t;
    forall i, j | 0 <= i < j < |r|
      ensures Precedes(r[i].value, r[j].value, order)
    {
      if i == 0 {
        assert r[j] == t[j - 1];
      } else {
        assert r[i] == t[i - 1] && r[j] == t[j - 1];
      }
    }
  }

  /** Inserting into a sorted listing keeps it sorted. */
  lemma {:induction false} InsertSorted(e: Entry, s: seq<Entry>, order: Order)
    requires SortedBy(s, order)
    ensures SortedBy(Insert(e, s, order), order)
  {
    if s == [] {
    } else if Precedes(e.value, s[0].value, order) {
      HeadPrecedesRest(s, order);
      forall x | x in s
        ensures Precedes(e.value, x.value, order)
      {
        if x != s[0] {
          assert s == [s[0]] + s[1..];
          PrecedesTransitive(e.value, s[0].value, x.value, order);
        }
      }
      SortedCons(e, s, order);
    } else {
      PrecedesTotal(e.value, s[0].value, order);
      HeadPrecedesRest(s, order);
      var t := Insert(e, s[1..], order);
      InsertSorted(e, s[1..], order);
      assert SortedBy(s[1..], order) by {
        forall i, j | 0 <= i < j < |s[1..]|
          ensures Precedes(s[1..][i].value, s[1..][j].value, order)
        {
          assert s[1..][i] == s[i + 1] && s[1..][j] == s[j + 1];
        }
      }
      SortedCons(s[0], t, order);
    }
  }

  /** Insertion sort of a listing by its sort column. */
  function SortEntries(s: seq<Entry>, order: Order): (r: seq<Entry>)
    ensures multiset(r) == multiset(s)
  {
    if s == [] then []
    else
      assert s == [s[0]] + s[1..];
      Insert(s[0], SortEntries(s[1..], order), order)
  }

  /** The sorted listing is ordered by the column. */
  lemma {:induction false} SortEntriesSorted(s: seq<Entry>, order: Order)
    ensures SortedBy(SortEntries(s, order), order)
  {
    if s != [] {
      SortEntriesSorted(s[1..], order);
      InsertSorted(s[0], SortEntries(s[1..], order), order);
    }
  }

  function Min(a: int, b: int): int {
    if a <= b then a else b
  }

  /** `OFFSET skip LIMIT take`: the rows from position `skip` on, at most `take` of them. */
  function Paginate<T>(s: seq<T>, skip: nat, take: nat): (r: seq<T>)
    ensures |r| == if skip >= |s| then 0 else Min(take, |s| - skip)
    ensures forall i :: 0 <= i < |r| ==> r[i] == s[skip + i]
  {
    if skip >= |s| then [] else s[skip..skip + Min(take, |s| - skip)]
  }

  /** The offset of page `page` (counted from 1) of `pageSize` rows. */
  function Offset(page: int, pageSize: int): (skip: nat)
    requires page >= 1 && pageSize >= 1
    ensures skip == (page - 1) * pageSize
    ensures page == 1 ==> skip == 0
  {
    (page - 1) * pageSize
  }

  /** Pages of the same size do not overlap: page `p + 1` starts where page `p` ends. */
  lemma ConsecutivePages(page: int, pageSize: int)
    requires page >= 1 && pageSize >= 1
    ensures Offset(page + 1, pageSize) == Offset(page, pageSize) + pageSize
  {
  }

  /** The rows of a table a `WHERE` clause keeps, in table order. */
  function Where<T(!new)>(rows: seq<T>, keep: T -> bool): (r: seq<T>)
    ensures forall x :: x in r <==> x in rows && keep(x)
    ensures |r| <= |rows|
  {
    if rows == [] then []
    else if keep(rows[0]) then [rows[0]] + Where(rows[1..], keep)
    else Where(rows[1..], keep)
  }

  /** Appending a row adds it at the end of the kept rows exactly when it is kept, so the
      kept rows are in table order, one entry per kept row. */
  lemma {:induction false} WhereAppend<T(!new)>(rows: seq<T>, x: T, keep: T -> bool)
    ensures Where(rows + [x], keep) == Where(rows, keep) + (if keep(x) then [x] else [])
  {
    if rows != [] {
      assert (rows + [x])[1..] == rows[1..] + [x];
      WhereAppend(rows[1..], x, keep);
    }
  }

  /** The entries of a table enumerated in its order, valued by the sort column. */
  function Enumerate<T>(rows: seq<T>, value: T -> SortValue): (r: seq<Entry>)
    ensures |r| == |rows|
    ensures forall i :: 0 <= i < |r| ==> r[i] == Entry(value(rows[i]), i)
  {
    seq(|rows|, i requires 0 <= i < |rows| => Entry(value(rows[i]), i))
  }

  lemma EnumerateMember<T>(rows: seq<T>, value: T -> SortValue, e: Entry)
    requires e in multiset(Enumerate(rows, value))
    ensures 0 <= e.row < |rows| && e.value == value(rows[e.row])
  {
    var r := Enumerate(rows, value);
    assert e in r;
  }

  /** A sequence without repeated elements holds each value at most once. */
  lemma {:induction false} DistinctCount<T>(s: seq<T>, x: T)
    requires forall i, j :: 0 <= i < j < |s| ==> s[i] != s[j]
    ensures multiset(s)[x] <= 1
  {
    if s != [] {
      assert s == [s[0]] + s[1..];
      DistinctCount(s[1..], x);
      if x == s[0] {
        assert x !in s[1..] by {
          forall k | 0 <= k < |s[1..]|
            ensures s[1..][k] != x
          {
            assert s[1..][k] == s[k + 1];
          }
        }
      }
    }
  }

  /** A value at two positions is counted at least twice. */
  lemma RepeatCount<T>(s: seq<T>, i: nat, j: nat)
    requires i < j < |s| && s[i] == s[j]
    ensures multiset(s)[s[i]] >= 2
  {
    assert s == s[..j] + s[j..];
    assert s[i] in s[..j];
    assert s[j..][0] == s[j];
  }

  /** A permutation of the enumeration of a table names every row exactly once. */
  lemma PermutedRowsDistinct<T>(rows: seq<T>, value: T -> SortValue, s: seq<Entry>)
    requires multiset(s) == multiset(Enumerate(rows, value))
    ensures forall i, j :: 0 <= i < j < |s| ==> s[i].row != s[j].row
    ensures forall k :: 0 <= k < |rows| ==> Entry(value(rows[k]), k) in s
  {
    var e := Enumerate(rows, value);
    forall i, j | 0 <= i < j < |s|
      ensures s[i].row != s[j].row
    {
      assert s[i] in multiset(s) && s[j] in multiset(s);
      EnumerateMember(rows, value, s[i]);
      EnumerateMember(rows, value, s[j]);
      if s[i].row == s[j].row {
        RepeatCount(s, i, j);
        DistinctCount(e, s[i]);
        assert false;
      }
    }
    forall k | 0 <= k < |rows|
      ensures Entry(value(rows[k]), k) in s
    {
      assert e[k] in multiset(e);
    }
  }

  /** The entries of a table sorted by the column: a permutation of the table's
      enumeration, so each row of the table appears exactly once, carrying that row's
      value, and the entries are in the requested order. */
  function SortedListing<T>(rows: seq<T>, value: T -> SortValue, order: Order): (s: seq<Entry>)
    ensures |s| == |rows|
    ensures multiset(s) == multiset(Enumerate(rows, value))
    ensures SortedBy(s, order)
    ensures forall i :: 0 <= i < |s| ==> 0 <= s[i].row < |rows| && s[i].value == value(rows[s[i].row])
    ensures forall i, j :: 0 <= i < j < |s| ==> s[i].row != s[j].row
  {
    var entries := Enumerate(rows, value);
    var sorted := SortEntries(entries, order);
    SortEntriesSorted(entries, order);
    assert |sorted| == |entries| by {
      assert |multiset(sorted)| == |multiset(entries)|;
    }
    assert forall i :: 0 <= i < |sorted| ==> 0 <= sorted[i].row < |rows| && sorted[i].value == value(rows[sorted[i].row]) by {
      forall i | 0 <= i < |sorted|
        ensures 0 <= sorted[i].row < |rows| && sorted[i].value == value(rows[sorted[i].row])
      {
        assert sorted[i] in multiset(sorted);
        EnumerateMember(rows, value, sorted[i]);
      }
    }
    PermutedRowsDistinct(rows, value, sorted);
    sorted
  }

  /** Every entry names a row of a table with `n` rows. */
  predicate RowsIn(es: seq<Entry>, n: int) {
    forall e :: e in es ==> 0 <= e.row < n
  }

  /** The rows the entries name, in the entries' order. */
  function RowsAt<T>(rows: seq<T>, es: seq<Entry>): (r: seq<T>)
    requires RowsIn(es, |rows|)
    ensures |r| == |es|
    ensures forall i :: 0 <= i < |r| ==> r[i] == rows[es[i].row]
  {
    seq(|es|, i requires 0 <= i < |es| => rows[es[i].row])
  }

  /** Taking one copy of `x` out of two equal multisets leaves equal multisets. */
  lemma MultisetCancel<T>(x: T, rest: seq<T>, b1: seq<T>, b2: seq<T>)
    requires multiset([x] + rest) == multiset(b1 + [x] + b2)
    ensures multiset(rest) == multiset(b1 + b2)
  {
    assert multiset([x] + rest) == multiset{x} + multiset(rest);
    assert multiset(b1 + [x] + b2) == multiset(b1) + multiset{x} + multiset(b2);
    assert multiset(b1 + b2) == multiset(b1) + multiset(b2);
    forall y
      ensures multiset(rest)[y] == multiset(b1 + b2)[y]
    {
      assert multiset([x] + rest)[y] == multiset(b1 + [x] + b2)[y];
    }
  }

  /** The rows of concatenated entries are the concatenated rows. */
  lemma RowsAtConcat<T>(rows: seq<T>, a: seq<Entry>, b: seq<Entry>)
    requires RowsIn(a, |rows|) && RowsIn(b, |rows|)
    ensures RowsIn(a + b, |rows|)
    ensures RowsAt(rows, a + b) == RowsAt(rows, a) + RowsAt(rows, b)
  {
    assert forall i :: 0 <= i < |a + b| ==> (a + b)[i] == if i < |a| then a[i] else b[i - |a|];
  }

  /** Putting one entry in front of some entries and between others keeps the rows they
      name equal as multisets. */
  lemma RowsAtStep<T>(rows: seq<T>, x: Entry, rest: seq<Entry>, b1: seq<Entry>, b2: seq<Entry>)
    requires 0 <= x.row < |rows| && RowsIn(rest, |rows|) && RowsIn(b1, |rows|) && RowsIn(b2, |rows|)
    requires multiset(RowsAt(rows, rest)) == multiset(RowsAt(rows, b1 + b2))
    ensures RowsIn([x] + rest, |rows|) && RowsIn(b1 + [x] + b2, |rows|)
    ensures multiset(RowsAt(rows, [x] + rest)) == multiset(RowsAt(rows, b1 + [x] + b2))
  {
    var y := RowsAt(rows, [x]);
    var ra, r1, r2 := RowsAt(rows, rest), RowsAt(rows, b1), RowsAt(rows, b2);
    RowsAtConcat(rows, [x], rest);
    RowsAtConcat(rows, b1, b2);
    RowsAtConcat(rows, b1, [x]);
    RowsAtConcat(rows, b1 + [x], b2);
    calc {
      multiset(RowsAt(rows, [x] + rest));
      multiset(y + ra);
      multiset(y) + multiset(ra);
      multiset(y) + multiset(r1 + r2);
      multiset(r1) + multiset(y) + multiset(r2);
      multiset(r1 + y + r2);
      multiset(RowsAt(rows, b1 + [x] + b2));
    }
  }

  /** Entries that are a permutation of each other name the same rows, the same number
      of times each. */
  lemma {:induction false} RowsAtPermutation<T>(rows: seq<T>, a: seq<Entry>, b: seq<Entry>)
    requires RowsIn(a, |rows|) && RowsIn(b, |rows|)
    requires multiset(a) == multiset(b)
    ensures multiset(RowsAt(rows, a)) == multiset(RowsAt(rows, b))
    decreases |a|
  {
    if a == [] {
      assert |multiset(b)| == 0;
    } else {
      var x := a[0];
      assert x in multiset(b) by { assert x in multiset(a); }
      var k :| 0 <= k < |b| && b[k] == x;
      var rest, b1, b2 := a[1..], b[..k], b[k + 1..];
      assert b == b1 + [x] + b2;
      assert a == [x] + rest;
      MultisetCancel(x, rest, b1, b2);
      RowsAtPermutation(rows, rest, b1 + b2);
      RowsAtStep(rows, x, rest, b1, b2);
    }
  }

  /** `ORDER BY column order OFFSET skip LIMIT take` over the rows of a table: the rows
      of the sorted listing from position `skip` on, at most `take` of them. */
  function Page<T>(rows: seq<T>, value: T -> SortValue, order: Order, skip: nat, take: nat): (r: seq<T>)
    ensures |r| == if skip >= |rows| then 0 else Min(take, |rows| - skip)
    ensures forall i :: 0 <= i < |r| ==> r[i] in rows
    ensures forall i :: 0 <= i < |r| ==> skip + i < |rows| && r[i] == rows[SortedListing(rows, value, order)[skip + i].row]
    ensures forall i, j :: 0 <= i < j < |r| ==> Precedes(value(r[i]), value(r[j]), order)
  {
    var sorted := SortedListing(rows, value, order);
    var p := Paginate(sorted, skip, take);
    var r := RowsAt(rows, p);
    assert forall i, j :: 0 <= i < j < |r| ==> Precedes(value(r[i]), value(r[j]), order) by {
      forall i, j | 0 <= i < j < |r|
        ensures Precedes(value(r[i]), value(r[j]), order)
      {
        assert p[i] == sorted[skip + i] && p[j] == sorted[skip + j];
      }
    }
    r
  }

  /** One page holding the whole table lists every row exactly as often as the table
      holds it: the sort neither repeats nor drops a row. */
  lemma PageAll<T>(rows: seq<T>, value: T -> SortValue, order: Order, take: nat)
    requires take >= |rows|
    ensures multiset(Page(rows, value, order, 0, take)) == multiset(rows)
  {
    var e := Enumerate(rows, value);
    var sorted := SortedListing(rows, value, order);
    assert RowsAt(rows, e) == rows;
    assert Page(rows, value, order, 0, take) == RowsAt(rows, sorted);
    RowsAtPermutation(rows, sorted, e);
  }

  /** Consecutive slices of a sequence make up the slice that spans both. */
  lemma PaginateTile<T>(s: seq<T>, skip: nat, a: nat, b: nat)
    ensures Paginate(s, skip, a) + Paginate(s, skip + a, b) == Paginate(s, skip, a + b)
  {
    if skip < |s| && skip + a < |s| {
      assert s[skip..skip + Min(a + b, |s| - skip)]
        == s[skip..skip + a] + s[skip + a..skip + a + Min(b, |s| - skip - a)];
    }
  }

  /** Two consecutive pages make up the page that spans both: no row is repeated across
      them, and none is skipped between them. */
  lemma PagesTile<T>(rows: seq<T>, value: T -> SortValue, order: Order, skip: nat, a: nat, b: nat)
    ensures Page(rows, value, order, skip, a) + Page(rows, value, order, skip + a, b)
      == Page(rows, value, order, skip, a + b)
  {
    var sorted := SortedListing(rows, value, order);
    var p1, p2 := Paginate(sorted, skip, a), Paginate(sorted, skip + a, b);
    PaginateTile(sorted, skip, a, b);
    assert RowsIn(p1, |rows|) && RowsIn(p2, |rows|) by {
      assert forall e :: e in p1 ==> e in sorted;
      assert forall e :: e in p2 ==> e in sorted;
      assert RowsIn(sorted, |rows|);
    }
    RowsAtConcat(rows, p1, p2);
  }
}
