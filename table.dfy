/** SQL tables as sequences of rows in primary-key order. Every table has an
    AUTO_INCREMENT `id`; `Keyed(t, next)` is the invariant the handlers keep:
    ids are positive, strictly ascending and below the next id to hand out.
    The operations are the four statement shapes the handlers issue:
    INSERT (one or many rows), UPDATE ... WHERE, DELETE ... WHERE and
    SELECT ... WHERE (LIMIT 1). */
module Table {
  import opened Js

  datatype Row<D> = Row(id: int, data: D)

  ghost predicate Ascending<D>(t: seq<Row<D>>) {
    forall i, j :: 0 <= i < j < |t| ==> t[i].id < t[j].id
  }

  ghost predicate Keyed<D>(t: seq<Row<D>>, next: int) {
    Ascending(t) && forall i :: 0 <= i < |t| ==> 0 < t[i].id < next
  }

  predicate HasId<D>(t: seq<Row<D>>, id: int) {
    exists i | 0 <= i < |t| :: t[i].id == id
  }

  /** The rows an INSERT of `ds` appends: consecutive fresh ids from `next`. */
  function Numbered<D>(next: int, ds: seq<D>): (r: seq<Row<D>>)
    ensures |r| == |ds|
    ensures forall i :: 0 <= i < |ds| ==> r[i] == Row(next + i, ds[i])
  {
    seq(|ds|, i requires 0 <= i < |ds| => Row(next + i, ds[i]))
  }

  /** Inserting `a` and then `b` numbers the rows as inserting `a + b`. */
  lemma NumberedAppend<D>(next: int, a: seq<D>, b: seq<D>)
    ensures Numbered(next, a + b) == Numbered(next, a) + Numbered(next + |a|, b)
  {
  }

  /** An INSERT keeps the table keyed and hands out ids from `next` on. */
  lemma InsertKeyed<D>(t: seq<Row<D>>, next: int, ds: seq<D>)
    requires Keyed(t, next) && next > 0
    ensures Keyed(t + Numbered(next, ds), next + |ds|)
  {
  }

  /** The rows a `SELECT ... WHERE keep` returns, in table order; also what a
      `DELETE ... WHERE !keep` leaves behind. */
  function Where<D(==)>(t: seq<Row<D>>, keep: Row<D> -> bool): (r: seq<Row<D>>)
    ensures |r| <= |t|
    ensures forall i :: 0 <= i < |r| ==> r[i] in t && keep(r[i])
    ensures forall i :: 0 <= i < |t| && keep(t[i]) ==> t[i] in r
  {
    if t == [] then []
    else (if keep(t[0]) then [t[0]] else []) + Where(t[1..], keep)
  }

  lemma {:induction false} WhereAppend<D>(a: seq<Row<D>>, b: seq<Row<D>>, keep: Row<D> -> bool)
    ensures Where(a + b, keep) == Where(a, keep) + Where(b, keep)
  {
    if a == [] {
      assert a + b == b;
    } else {
      assert (a + b)[1..] == a[1..] + b;
      WhereAppend(a[1..], b, keep);
    }
  }

  lemma {:induction false} WhereAll<D>(t: seq<Row<D>>, keep: Row<D> -> bool)
    requires forall i :: 0 <= i < |t| ==> keep(t[i])
    ensures Where(t, keep) == t
  {
    if t != [] {
      WhereAll(t[1..], keep);
    }
  }

  /** Filtering twice by the same condition is filtering once. */
  lemma WhereIdempotent<D>(t: seq<Row<D>>, keep: Row<D> -> bool)
    ensures Where(Where(t, keep), keep) == Where(t, keep)
  {
    WhereAll(Where(t, keep), keep);
  }

  lemma {:induction false} WhereNone<D>(t: seq<Row<D>>, keep: Row<D> -> bool)
    requires forall i :: 0 <= i < |t| ==> !keep(t[i])
    ensures Where(t, keep) == []
  {
    if t != [] {
      WhereNone(t[1..], keep);
    }
  }

  /** A `DELETE ... WHERE !keep` removes no row exactly when every row is
      kept: `affectedRows === 0`. */
  lemma {:induction false} WhereKeepsAll<D>(t: seq<Row<D>>, keep: Row<D> -> bool)
    ensures |Where(t, keep)| == |t| <==> forall i :: 0 <= i < |t| ==> keep(t[i])
  {
    if t != [] {
      WhereKeepsAll(t[1..], keep);
      if forall i :: 0 <= i < |t[1..]| ==> keep(t[1..][i]) {
        forall i | 1 <= i < |t| ensures keep(t[i]) {
          assert t[i] == t[1..][i - 1];
        }
      }
    }
  }

  /** When the filter picks rows of one id, a keyed table has only one
      such row. */
  lemma {:induction false} WhereOnly<D>(t: seq<Row<D>>, next: int, keep: Row<D> -> bool, i: int)
    requires Keyed(t, next) && 0 <= i < |t| && keep(t[i])
    requires forall j :: 0 <= j < |t| && keep(t[j]) ==> t[j].id == t[i].id
    ensures Where(t, keep) == [t[i]]
  {
    TailKeyed(t, next);
    var tail := t[1..];
    if i == 0 {
      forall j | 0 <= j < |tail| ensures !keep(tail[j]) {
        assert tail[j] == t[j + 1];
      }
      WhereNone(tail, keep);
    } else {
      assert !keep(t[0]);
      forall j | 0 <= j < |tail| && keep(tail[j]) ensures tail[j].id == tail[i - 1].id {
        assert tail[j] == t[j + 1];
      }
      WhereOnly(tail, next, keep, i - 1);
    }
  }

  /** A DELETE keeps the table keyed: what remains is a subsequence. */
  lemma {:induction false} WhereKeyed<D>(t: seq<Row<D>>, next: int, keep: Row<D> -> bool)
    requires Keyed(t, next)
    ensures Keyed(Where(t, keep), next)
  {
    if t != [] {
      var tail := t[1..];
      TailKeyed(t, next);
      WhereKeyed(tail, next, keep);
      var rest := Where(tail, keep);
      if keep(t[0]) {
        WhereAbove(tail, t[0].id, keep);
        ConsKeyed(t[0], rest, next);
      }
    }
  }

  lemma TailKeyed<D>(t: seq<Row<D>>, next: int)
    requires Keyed(t, next) && t != []
    ensures Keyed(t[1..], next)
    ensures forall i :: 0 <= i < |t[1..]| ==> t[0].id < t[1..][i].id
  {
    var tail := t[1..];
    forall i, j | 0 <= i < j < |tail| ensures tail[i].id < tail[j].id {
      assert tail[i] == t[i + 1] && tail[j] == t[j + 1];
    }
    forall i | 0 <= i < |tail| ensures t[0].id < tail[i].id {
      assert tail[i] == t[i + 1];
    }
  }

  lemma {:induction false} WhereAbove<D>(t: seq<Row<D>>, lo: int, keep: Row<D> -> bool)
    requires forall i :: 0 <= i < |t| ==> lo < t[i].id
    ensures forall i :: 0 <= i < |Where(t, keep)| ==> lo < Where(t, keep)[i].id
  {
    if t != [] {
      WhereAbove(t[1..], lo, keep);
      var rest := Where(t[1..], keep);
      var head := if keep(t[0]) then [t[0]] else [];
      assert Where(t, keep) == head + rest;
    }
  }

  lemma ConsKeyed<D>(x: Row<D>, rest: seq<Row<D>>, next: int)
    requires Keyed(rest, next) && 0 < x.id < next
    requires forall i :: 0 <= i < |rest| ==> x.id < rest[i].id
    ensures Keyed([x] + rest, next)
  {
    var r := [x] + rest;
    forall i, j | 0 <= i < j < |r| ensures r[i].id < r[j].id {
      assert r[j] == rest[j - 1];
      if i > 0 { assert r[i] == rest[i - 1]; }
    }
  }

  /** The table after `UPDATE ... SET f WHERE pick`: same ids, same order. */
  function Modify<D>(t: seq<Row<D>>, pick: Row<D> -> bool, f: D -> D): (r: seq<Row<D>>)
    ensures |r| == |t|
    ensures forall i :: 0 <= i < |t| ==> r[i].id == t[i].id
  {
    seq(|t|, i requires 0 <= i < |t| => if pick(t[i]) then Row(t[i].id, f(t[i].data)) else t[i])
  }

  lemma ModifyAt<D>(t: seq<Row<D>>, pick: Row<D> -> bool, f: D -> D, i: int)
    requires 0 <= i < |t|
    ensures Modify(t, pick, f)[i] == if pick(t[i]) then Row(t[i].id, f(t[i].data)) else t[i]
  {
  }

  lemma ModifyKeyed<D>(t: seq<Row<D>>, next: int, pick: Row<D> -> bool, f: D -> D)
    requires Keyed(t, next)
    ensures Keyed(Modify(t, pick, f), next)
  {
  }

  /** An UPDATE whose WHERE matches no row changes nothing. */
  lemma ModifyNothing<D>(t: seq<Row<D>>, pick: Row<D> -> bool, f: D -> D)
    requires forall i :: 0 <= i < |t| ==> !pick(t[i])
    ensures Modify(t, pick, f) == t
  {
  }

  /** Rows from index `lo` on that the WHERE does not pick stay as they are. */
  lemma ModifySuffix<D>(t: seq<Row<D>>, lo: int, pick: Row<D> -> bool, f: D -> D)
    requires 0 <= lo <= |t|
    requires forall i :: lo <= i < |t| ==> !pick(t[i])
    ensures Modify(t, pick, f)[lo..] == t[lo..]
  {
  }

  /** The ids of the rows, in table order. */
  function IdsOf<D>(t: seq<Row<D>>): (r: seq<int>)
    ensures |r| == |t| && forall i :: 0 <= i < |t| ==> r[i] == t[i].id
  {
    seq(|t|, i requires 0 <= i < |t| => t[i].id)
  }

  /** The first row a `SELECT ... WHERE pick` returns (`rows[0]`). */
  function First<D(==)>(t: seq<Row<D>>, pick: Row<D> -> bool): (r: Option<Row<D>>)
    ensures r.None? <==> forall i :: 0 <= i < |t| ==> !pick(t[i])
    ensures r.Some? ==> r.value in t && pick(r.value)
  {
    if t == [] then None
    else if pick(t[0]) then Some(t[0])
    else First(t[1..], pick)
  }

  /** `First` picks the earliest matching row. */
  lemma {:induction false} FirstIsEarliest<D>(t: seq<Row<D>>, pick: Row<D> -> bool)
    requires First(t, pick).Some?
    ensures exists i :: 0 <= i < |t| && t[i] == First(t, pick).value &&
                        forall j :: 0 <= j < i ==> !pick(t[j])
  {
    if !pick(t[0]) {
      FirstIsEarliest(t[1..], pick);
      var i :| 0 <= i < |t[1..]| && t[1..][i] == First(t[1..], pick).value &&
               forall j :: 0 <= j < i ==> !pick(t[1..][j]);
      assert t[i + 1] == First(t, pick).value;
      forall j | 0 <= j < i + 1 ensures !pick(t[j]) {
        if j > 0 { assert t[j] == t[1..][j - 1]; }
      }
    }
  }

  /** A row that matches, with none matching before it, is the one
      `First` returns. */
  lemma {:induction false} FirstAt<D>(t: seq<Row<D>>, pick: Row<D> -> bool, k: int)
    requires 0 <= k < |t| && pick(t[k])
    requires forall j :: 0 <= j < k ==> !pick(t[j])
    ensures First(t, pick) == Some(t[k])
  {
    if k > 0 {
      FirstAt(t[1..], pick, k - 1);
    }
  }

  /** In a keyed table a row is determined by its id. */
  lemma KeyedUnique<D>(t: seq<Row<D>>, next: int, i: int, j: int)
    requires Keyed(t, next) && 0 <= i < |t| && 0 <= j < |t| && t[i].id == t[j].id
    ensures i == j
  {
  }

  // ---------------------------------------------------------------------
  // A table together with its AUTO_INCREMENT counter

  datatype Store<D> = Store(rows: seq<Row<D>>, next: int)

  ghost predicate WellKeyed<D>(s: Store<D>) {
    s.next > 0 && Keyed(s.rows, s.next)
  }

  /** `INSERT` of one row: it gets the next id. */
  function Insert<D>(s: Store<D>, d: D): (r: Store<D>)
    ensures r.rows == s.rows + [Row(s.next, d)] && r.next == s.next + 1
    ensures WellKeyed(s) ==> WellKeyed(r)
  {
    var r := Store(s.rows + [Row(s.next, d)], s.next + 1);
    assert WellKeyed(s) ==> WellKeyed(r) by {
      if WellKeyed(s) {
        assert [Row(s.next, d)] == Numbered(s.next, [d]);
        InsertKeyed(s.rows, s.next, [d]);
      }
    }
    r
  }

  /** `INSERT` of several rows, one statement after the other. */
  function InsertAll<D>(s: Store<D>, ds: seq<D>): (r: Store<D>)
    ensures r.rows == s.rows + Numbered(s.next, ds) && r.next == s.next + |ds|
    ensures WellKeyed(s) ==> WellKeyed(r)
  {
    var r := Store(s.rows + Numbered(s.next, ds), s.next + |ds|);
    assert WellKeyed(s) ==> WellKeyed(r) by {
      if WellKeyed(s) { InsertKeyed(s.rows, s.next, ds); }
    }
    r
  }

  /** The row filter `id = ?` ... */
  function IdEq<D>(id: int): Row<D> -> bool {
    (r: Row<D>) => r.id == id
  }

  /** ... and its negation, the rows a `DELETE ... WHERE id = ?` leaves. */
  function IdNe<D>(id: int): Row<D> -> bool {
    (r: Row<D>) => r.id != id
  }

  /** `SELECT ... LIMIT 1` without `ORDER BY`: the first row in key order. */
  function Head<D>(t: seq<Row<D>>): (r: Option<Row<D>>)
    ensures r.None? <==> t == []
    ensures r.Some? ==> r.value == t[0]
  {
    if t == [] then None else Some(t[0])
  }

  /** Deleting the first row by its id removes exactly that row. */
  lemma DeleteFirst<D>(t: seq<Row<D>>, next: int)
    requires Keyed(t, next) && t != []
    ensures Where(t, IdNe(t[0].id)) == t[1..]
  {
    TailKeyed(t, next);
    WhereAll(t[1..], IdNe(t[0].id));
    assert t == [t[0]] + t[1..];
  }

  /** Updating a row by its id changes exactly that row. */
  lemma ModifyById<D>(t: seq<Row<D>>, next: int, k: int, f: D -> D)
    requires Keyed(t, next) && 0 <= k < |t|
    ensures Modify(t, IdEq(t[k].id), f) == t[k := Row(t[k].id, f(t[k].data))]
  {
    var m := Modify(t, IdEq(t[k].id), f);
    forall j | 0 <= j < |t| && j != k ensures m[j] == t[j] {
      if t[j].id == t[k].id {
        KeyedUnique(t, next, j, k);
      }
    }
  }

  /** Updating the first row by its id changes exactly that row. */
  lemma UpdateFirst<D>(t: seq<Row<D>>, next: int, f: D -> D)
    requires Keyed(t, next) && t != []
    ensures Modify(t, IdEq(t[0].id), f) == [Row(t[0].id, f(t[0].data))] + t[1..]
  {
    var m := Modify(t, IdEq(t[0].id), f);
    var e := [Row(t[0].id, f(t[0].data))] + t[1..];
    forall i | 0 <= i < |t| ensures m[i] == e[i] {
      if i > 0 {
        assert t[i].id != t[0].id;
        assert e[i] == t[i];
      }
    }
  }

  /** `DELETE ... WHERE id = ?` with the id of the first row. */
  function DeleteHead<D(==)>(s: Store<D>): (r: Store<D>)
    requires s.rows != []
    ensures r.next == s.next
    ensures WellKeyed(s) ==> r.rows == s.rows[1..] && WellKeyed(r)
  {
    var rows := Where(s.rows, IdNe(s.rows[0].id));
    assert WellKeyed(s) ==> rows == s.rows[1..] && Keyed(rows, s.next) by {
      if WellKeyed(s) {
        DeleteFirst(s.rows, s.next);
        WhereKeyed(s.rows, s.next, IdNe(s.rows[0].id));
      }
    }
    Store(rows, s.next)
  }

  /** `UPDATE ... SET f WHERE id = ?` with the id of the first row. */
  function UpdateHead<D>(s: Store<D>, f: D -> D): (r: Store<D>)
    requires s.rows != []
    ensures r.next == s.next && |r.rows| == |s.rows|
    ensures WellKeyed(s) ==>
      r.rows == [Row(s.rows[0].id, f(s.rows[0].data))] + s.rows[1..] && WellKeyed(r)
  {
    var rows := Modify(s.rows, IdEq(s.rows[0].id), f);
    assert WellKeyed(s) ==>
      rows == [Row(s.rows[0].id, f(s.rows[0].data))] + s.rows[1..] && Keyed(rows, s.next) by {
      if WellKeyed(s) {
        UpdateFirst(s.rows, s.next, f);
        ModifyKeyed(s.rows, s.next, IdEq(s.rows[0].id), f);
      }
    }
    Store(rows, s.next)
  }

  // ---------------------------------------------------------------------
  // ORDER BY <timestamp> DESC

  predicate NewestFirstOrder<D>(t: seq<Row<D>>, stamp: D -> int) {
    forall i, j :: 0 <= i < j < |t| ==> stamp(t[i].data) >= stamp(t[j].data)
  }

  function InsertByStamp<D>(x: Row<D>, t: seq<Row<D>>, stamp: D -> int): (r: seq<Row<D>>)
    requires NewestFirstOrder(t, stamp)
    ensures NewestFirstOrder(r, stamp)
    ensures multiset(r) == multiset(t) + multiset{x}
    ensures |r| == |t| + 1
  {
    if t == [] || stamp(x.data) >= stamp(t[0].data) then
      InsertInFront(x, t, stamp);
      [x] + t
    else
      var rest := InsertByStamp(x, t[1..], stamp);
      InsertBehind(x, t, rest, stamp);
      [t[0]] + rest
  }

  /** A row no older than the head of a newest-first list goes in front. */
  lemma InsertInFront<D>(x: Row<D>, t: seq<Row<D>>, stamp: D -> int)
    requires NewestFirstOrder(t, stamp)
    requires t == [] || stamp(x.data) >= stamp(t[0].data)
    ensures NewestFirstOrder([x] + t, stamp)
  {
    forall k | 0 <= k < |t| ensures stamp(t[k].data) <= stamp(x.data) {
      if k > 0 { assert stamp(t[0].data) >= stamp(t[k].data); }
    }
    ConsNewestFirst(x, t, stamp);
  }

  /** A row older than the head of a newest-first list goes behind it. */
  lemma InsertBehind<D>(x: Row<D>, t: seq<Row<D>>, rest: seq<Row<D>>, stamp: D -> int)
    requires NewestFirstOrder(t, stamp) && t != [] && stamp(x.data) < stamp(t[0].data)
    requires NewestFirstOrder(rest, stamp)
    requires multiset(rest) == multiset(t[1..]) + multiset{x}
    ensures NewestFirstOrder([t[0]] + rest, stamp)
    ensures multiset([t[0]] + rest) == multiset(t) + multiset{x}
  {
    assert t == [t[0]] + t[1..];
    forall k | 0 <= k < |t[1..]| ensures stamp(t[1..][k].data) <= stamp(t[0].data) {
      assert t[1..][k] == t[k + 1];
    }
    StampsBounded(rest, t[1..], x, stamp(t[0].data), stamp);
    ConsNewestFirst(t[0], rest, stamp);
  }

  /** A row no older than any of a newest-first list goes in front of it. */
  lemma ConsNewestFirst<D>(h: Row<D>, t: seq<Row<D>>, stamp: D -> int)
    requires NewestFirstOrder(t, stamp)
    requires forall k :: 0 <= k < |t| ==> stamp(t[k].data) <= stamp(h.data)
    ensures NewestFirstOrder([h] + t, stamp)
  {
    var r := [h] + t;
    forall i, j | 0 <= i < j < |r| ensures stamp(r[i].data) >= stamp(r[j].data) {
      assert r[j] == t[j - 1];
      if i > 0 { assert r[i] == t[i - 1]; }
    }
  }

  /** A permutation of rows no newer than `bound` is no newer than `bound`. */
  lemma StampsBounded<D>(rest: seq<Row<D>>, t: seq<Row<D>>, x: Row<D>, bound: int, stamp: D -> int)
    requires multiset(rest) == multiset(t) + multiset{x}
    requires stamp(x.data) <= bound
    requires forall k :: 0 <= k < |t| ==> stamp(t[k].data) <= bound
    ensures forall i :: 0 <= i < |rest| ==> stamp(rest[i].data) <= bound
  {
    forall i | 0 <= i < |rest| ensures stamp(rest[i].data) <= bound {
      assert rest[i] in multiset(rest);
      if rest[i] != x {
        assert rest[i] in multiset(t);
        var k :| 0 <= k < |t| && t[k] == rest[i];
      }
    }
  }

  /** A row the WHERE picks is somewhere in the sorted result. */
  lemma SortedHas<D>(t: seq<Row<D>>, k: int, keep: Row<D> -> bool, stamp: D -> int) returns (i: nat)
    requires 0 <= k < |t| && keep(t[k])
    ensures i < |NewestFirst(Where(t, keep), stamp)| && NewestFirst(Where(t, keep), stamp)[i] == t[k]
  {
    var matching := Where(t, keep);
    assert t[k] in matching;
    var sorted := NewestFirst(matching, stamp);
    assert t[k] in multiset(sorted);
    i :| 0 <= i < |sorted| && sorted[i] == t[k];
  }

  /** The rows sorted newest first by `stamp`: all of them, each as often as
      in `t`. Rows with equal stamps come in table order, one of the orders
      the database may choose. */
  function NewestFirst<D>(t: seq<Row<D>>, stamp: D -> int): (r: seq<Row<D>>)
    ensures NewestFirstOrder(r, stamp)
    ensures multiset(r) == multiset(t)
    ensures |r| == |t|
  {
    if t == [] then []
    else
      assert t == [t[0]] + t[1..];
      InsertByStamp(t[0], NewestFirst(t[1..], stamp), stamp)
  }
}
