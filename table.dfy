/** The `movimentacoes` table (app.py's `CREATE TABLE`): an id column that
    is `INTEGER PRIMARY KEY AUTOINCREMENT` and six other columns, with the
    effect of the four statements the handlers run on it. */
module Movements {

  import opened Wrappers
  import opened Sql
  import opened ListQuery

  /** The six columns other than `id`. `quantidade` has REAL affinity, so
      an INTEGER is stored as its real value. */
  datatype Columns = Columns(
    tipo: SqlValue,
    data: SqlValue,
    produto: SqlValue,
    quantidade: real,
    destino: SqlValue,
    timestamp: string)

  datatype Row = Row(id: int, cols: Columns)

  /** Rows are kept in rowid order, which AUTOINCREMENT makes increasing. */
  predicate IdsIncreasing(rows: seq<Row>)
  {
    forall i, j :: 0 <= i < j < |rows| ==> rows[i].id < rows[j].id
  }

  function Ids(rows: seq<Row>): set<int>
  {
    set i | 0 <= i < |rows| :: rows[i].id
  }

  /** The number of rows `WHERE id = ?` matches: the cursor's `rowcount`. */
  function CountId(rows: seq<Row>, id: int): nat
  {
    if rows == [] then 0 else (if rows[0].id == id then 1 else 0) + CountId(rows[1..], id)
  }

  /** With unique ids a statement `WHERE id = ?` touches one row or none. */
  lemma {:induction false} CountIdUnique(rows: seq<Row>, id: int)
    requires IdsIncreasing(rows)
    ensures CountId(rows, id) == if id in Ids(rows) then 1 else 0
  {
    if rows != [] {
      CountIdUnique(rows[1..], id);
      assert Ids(rows) == {rows[0].id} + Ids(rows[1..]) by {
        forall k | k in Ids(rows) ensures k in {rows[0].id} + Ids(rows[1..]) {
          var i :| 0 <= i < |rows| && rows[i].id == k;
          if i > 0 { assert rows[1..][i - 1] == rows[i]; }
        }
      }
      if rows[0].id == id {
        assert id !in Ids(rows[1..]);
      }
    }
  }

  /** `UPDATE ... SET <six columns> WHERE id = ?`. */
  function ReplaceCols(rows: seq<Row>, id: int, cols: Columns): (r: seq<Row>)
    ensures |r| == |rows|
    ensures forall i :: 0 <= i < |rows| ==> r[i] == if rows[i].id == id then Row(id, cols) else rows[i]
  {
    if rows == [] then []
    else [if rows[0].id == id then Row(id, cols) else rows[0]] + ReplaceCols(rows[1..], id, cols)
  }

  /** `DELETE FROM movimentacoes WHERE id = ?`. */
  function RemoveId(rows: seq<Row>, id: int): (r: seq<Row>)
    ensures forall x :: x in r <==> x in rows && x.id != id
    ensures |r| == |rows| - CountId(rows, id)
    ensures IdsIncreasing(rows) ==> IdsIncreasing(r)
  {
    if rows == [] then []
    else if rows[0].id == id then RemoveId(rows[1..], id)
    else
      var rest := RemoveId(rows[1..], id);
      assert IdsIncreasing(rows) ==> forall x :: x in rest ==> rows[0].id < x.id by {
        if IdsIncreasing(rows) {
          forall x | x in rest ensures rows[0].id < x.id {
            var k :| 0 <= k < |rows[1..]| && rows[1..][k] == x;
            assert rows[k + 1] == x;
          }
        }
      }
      [rows[0]] + rest
  }

  /** A second delete of the same id matches nothing and changes nothing. */
  lemma {:induction false} RemoveIdTwice(rows: seq<Row>, id: int)
    ensures CountId(RemoveId(rows, id), id) == 0
    ensures RemoveId(RemoveId(rows, id), id) == RemoveId(rows, id)
  {
    if rows != [] {
      RemoveIdTwice(rows[1..], id);
    }
  }

  /** A statement on an id no row has leaves the table as it was. */
  lemma AbsentIdUntouched(rows: seq<Row>, id: int, cols: Columns)
    requires id !in Ids(rows)
    ensures ReplaceCols(rows, id, cols) == rows
  {
  }

  lemma {:induction false} RemoveAbsent(rows: seq<Row>, id: int)
    requires id !in Ids(rows)
    ensures RemoveId(rows, id) == rows
  {
    if rows != [] {
      assert rows[0].id in Ids(rows);
      assert Ids(rows[1..]) <= Ids(rows) by {
        forall k | k in Ids(rows[1..]) ensures k in Ids(rows) {
          var i :| 0 <= i < |rows[1..]| && rows[1..][i].id == k;
          assert rows[i + 1].id == k;
        }
      }
      RemoveAbsent(rows[1..], id);
    }
  }

  /** The `WHERE` clause. */
  function Filter(rows: seq<Row>, cs: seq<Clause>): (r: seq<Row>)
    ensures forall x :: x in r <==> x in rows && Satisfies(x.cols.data, cs)
    ensures multiset(r) <= multiset(rows)
  {
    if rows == [] then []
    else
      assert rows == [rows[0]] + rows[1..];
      (if Satisfies(rows[0].cols.data, cs) then [rows[0]] else []) + Filter(rows[1..], cs)
  }

  lemma TailIncreasing(rows: seq<Row>)
    requires |rows| > 0 && IdsIncreasing(rows)
    ensures IdsIncreasing(rows[1..])
    ensures forall x :: x in rows[1..] ==> rows[0].id < x.id
  {
    forall x | x in rows[1..] ensures rows[0].id < x.id {
      var k :| 0 <= k < |rows[1..]| && rows[1..][k] == x;
      assert rows[k + 1] == x;
    }
  }

  lemma ConsIncreasing(h: Row, rest: seq<Row>)
    requires IdsIncreasing(rest)
    requires forall x :: x in rest ==> h.id < x.id
    ensures IdsIncreasing([h] + rest)
  {
    var r := [h] + rest;
    forall i, j | 0 <= i < j < |r| ensures r[i].id < r[j].id {
      assert r[j] == rest[j - 1];
      if i > 0 { assert r[i] == rest[i - 1]; }
    }
  }

  /** The `WHERE` clause keeps the relative order of the rows, so rows in
      rowid order stay in rowid order. */
  lemma {:induction false} FilterKeepsOrder(rows: seq<Row>, cs: seq<Clause>)
    requires IdsIncreasing(rows)
    ensures IdsIncreasing(Filter(rows, cs))
  {
    if rows != [] {
      var rest := Filter(rows[1..], cs);
      TailIncreasing(rows);
      FilterKeepsOrder(rows[1..], cs);
      if Satisfies(rows[0].cols.data, cs) {
        assert Filter(rows, cs) == [rows[0]] + rest;
        ConsIncreasing(rows[0], rest);
      } else {
        assert Filter(rows, cs) == rest;
      }
    }
  }

  /** The `timestamp` column of a listing, in order. */
  function Timestamps(rows: seq<Row>): seq<string>
  {
    seq(|rows|, i requires 0 <= i < |rows| => rows[i].cols.timestamp)
  }

  /** Texts in non-increasing order. */
  predicate Descending(ts: seq<string>)
  {
    forall i, j :: 0 <= i < j < |ts| ==> TextLe(ts[j], ts[i])
  }

  /** `ORDER BY timestamp DESC`: newer (text-greater) timestamps first;
      the order among equal timestamps is not fixed. */
  predicate NewestFirst(rows: seq<Row>)
  {
    Descending(Timestamps(rows))
  }

  /** Taking one element out of a sequence takes it out of its multiset. */
  lemma RemoveAtMultiset<T>(s: seq<T>, k: int)
    requires 0 <= k < |s|
    ensures multiset(s[..k] + s[k + 1..]) == multiset(s) - multiset{s[k]}
    ensures multiset(s) == multiset(s[..k] + s[k + 1..]) + multiset{s[k]}
  {
    assert s == s[..k] + [s[k]] + s[k + 1..];
  }

  lemma HeadTail<T>(s: seq<T>, t: seq<T>)
    requires |s| > 0 && |t| > 0 && s[0] == t[0] && s[1..] == t[1..]
    ensures s == t
  {
    assert s == [s[0]] + s[1..] && t == [t[0]] + t[1..];
  }

  /** Taking a row out of a listing takes its timestamp out of the
      listing's timestamps. */
  lemma TimestampsRemoveAt(b: seq<Row>, k: int)
    requires 0 <= k < |b|
    ensures multiset(Timestamps(b)) == multiset(Timestamps(b[..k] + b[k + 1..])) + multiset{b[k].cols.timestamp}
  {
    var tb := Timestamps(b);
    assert Timestamps(b[..k] + b[k + 1..]) == tb[..k] + tb[k + 1..];
    RemoveAtMultiset(tb, k);
  }

  lemma TimestampsCons(a: seq<Row>)
    requires |a| > 0
    ensures multiset(Timestamps(a)) == multiset(Timestamps(a[1..])) + multiset{a[0].cols.timestamp}
  {
    assert Timestamps(a) == [a[0].cols.timestamp] + Timestamps(a[1..]);
  }

  lemma DropFirstMultiset<T>(s: seq<T>)
    requires |s| > 0
    ensures multiset(s[1..]) == multiset(s) - multiset{s[0]}
  {
    assert s == [s[0]] + s[1..];
  }

  /** Where the first element of `a` sits in a permutation `b` of it. */
  lemma Locate<T>(a: seq<T>, b: seq<T>) returns (k: int)
    requires |a| > 0 && multiset(a) == multiset(b)
    ensures 0 <= k < |b| && b[k] == a[0]
    ensures multiset(a[1..]) == multiset(b[..k] + b[k + 1..])
  {
    assert a[0] in multiset(b);
    k :| 0 <= k < |b| && b[k] == a[0];
    DropFirstMultiset(a);
    RemoveAtMultiset(b, k);
  }

  lemma {:induction false} TimestampsPermute(a: seq<Row>, b: seq<Row>)
    requires multiset(a) == multiset(b)
    ensures multiset(Timestamps(a)) == multiset(Timestamps(b))
  {
    if a == [] {
      assert |b| == |multiset(b)| == 0;
    } else {
      var k := Locate(a, b);
      TimestampsPermute(a[1..], b[..k] + b[k + 1..]);
      TimestampsRemoveAt(b, k);
      TimestampsCons(a);
    }
  }

  /** Two descending arrangements of the same texts start with the same one. */
  lemma DescendingHeads(s: seq<string>, t: seq<string>)
    requires |s| > 0 && multiset(s) == multiset(t)
    requires Descending(s) && Descending(t)
    ensures |t| > 0 && s[0] == t[0]
  {
    assert s[0] in multiset(t) && |t| > 0;
    assert t[0] in multiset(s);
    var k :| 0 <= k < |t| && t[k] == s[0];
    var m :| 0 <= m < |s| && s[m] == t[0];
    if k == 0 { TextLeReflexive(t[0]); }
    if m == 0 { TextLeReflexive(s[0]); }
    TextLeAntisymmetric(s[0], t[0]);
  }

  lemma TailsPermute<T>(s: seq<T>, t: seq<T>)
    requires |s| > 0 && |t| > 0 && s[0] == t[0] && multiset(s) == multiset(t)
    ensures multiset(s[1..]) == multiset(t[1..])
  {
    RemoveAtMultiset(s, 0);
    RemoveAtMultiset(t, 0);
    assert s[..0] + s[1..] == s[1..];
    assert t[..0] + t[1..] == t[1..];
  }

  /** A descending sequence of texts is fixed by its multiset. */
  lemma {:induction false} DescendingDetermined(s: seq<string>, t: seq<string>)
    requires multiset(s) == multiset(t)
    requires Descending(s) && Descending(t)
    ensures s == t
  {
    if s == [] {
      assert |t| == |multiset(t)| == 0;
    } else {
      DescendingHeads(s, t);
      TailsPermute(s, t);
      DescendingDetermined(s[1..], t[1..]);
      HeadTail(s, t);
    }
  }

  /** Rows with distinct ids occur once each. */
  lemma {:induction false} IncreasingOnce(rows: seq<Row>)
    requires IdsIncreasing(rows)
    ensures forall x :: x in rows ==> multiset(rows)[x] == 1
  {
    if rows != [] {
      TailIncreasing(rows);
      IncreasingOnce(rows[1..]);
      assert rows == [rows[0]] + rows[1..];
      assert rows[0] !in rows[1..];
    }
  }

  /** Over a table in rowid order the `WHERE` clause yields each matching
      row exactly once. */
  lemma FilterOnce(rows: seq<Row>, cs: seq<Clause>)
    requires IdsIncreasing(rows)
    ensures forall x :: x in Filter(rows, cs) <==> x in rows && Satisfies(x.cols.data, cs)
    ensures forall x :: x in Filter(rows, cs) ==> multiset(Filter(rows, cs))[x] == 1
  {
    FilterKeepsOrder(rows, cs);
    IncreasingOnce(Filter(rows, cs));
  }

  /** `ORDER BY timestamp DESC` fixes the listing up to the order of rows
      with equal timestamps: two newest-first arrangements of the same rows
      have the same timestamp at every position. */
  lemma NewestFirstListingsAgree(a: seq<Row>, b: seq<Row>)
    requires multiset(a) == multiset(b)
    requires NewestFirst(a) && NewestFirst(b)
    ensures Timestamps(a) == Timestamps(b)
  {
    TimestampsPermute(a, b);
    DescendingDetermined(Timestamps(a), Timestamps(b));
  }

  function InsertNewest(x: Row, rows: seq<Row>): (r: seq<Row>)
    ensures multiset(r) == multiset(rows) + multiset{x}
  {
    if rows == [] then [x]
    else if TextLe(rows[0].cols.timestamp, x.cols.timestamp) then [x] + rows
    else
      assert rows == [rows[0]] + rows[1..];
      [rows[0]] + InsertNewest(x, rows[1..])
  }

  /** `NewestFirst` position by position. */
  lemma NewestFirstAt(rows: seq<Row>)
    ensures NewestFirst(rows) <==>
              forall i, j :: 0 <= i < j < |rows| ==> TextLe(rows[j].cols.timestamp, rows[i].cols.timestamp)
  {
    var ts := Timestamps(rows);
    assert forall i :: 0 <= i < |rows| ==> ts[i] == rows[i].cols.timestamp;
  }

  /** The newest row of a newest-first list comes first, and the rest is
      newest-first too. */
  lemma NewestFirstHead(rows: seq<Row>)
    requires |rows| > 0 && NewestFirst(rows)
    ensures NewestFirst(rows[1..])
    ensures forall j :: 0 <= j < |rows| ==> TextLe(rows[j].cols.timestamp, rows[0].cols.timestamp)
  {
    NewestFirstAt(rows);
    NewestFirstAt(rows[1..]);
    TextLeReflexive(rows[0].cols.timestamp);
  }

  /** A row at least as new as every row of a newest-first list can go first. */
  lemma NewestFirstCons(h: Row, tail: seq<Row>)
    requires NewestFirst(tail)
    requires forall j :: 0 <= j < |tail| ==> TextLe(tail[j].cols.timestamp, h.cols.timestamp)
    ensures NewestFirst([h] + tail)
  {
    var r := [h] + tail;
    NewestFirstAt(tail);
    NewestFirstAt(r);
    forall i, j | 0 <= i < j < |r| ensures TextLe(r[j].cols.timestamp, r[i].cols.timestamp) {
      assert r[j] == tail[j - 1];
      if i > 0 { assert r[i] == tail[i - 1]; }
    }
  }

  lemma {:induction false} InsertNewestOrdered(x: Row, rows: seq<Row>)
    requires NewestFirst(rows)
    ensures NewestFirst(InsertNewest(x, rows))
  {
    if rows == [] {
      NewestFirstCons(x, []);
      assert [x] + [] == [x];
    } else {
      NewestFirstHead(rows);
      if TextLe(rows[0].cols.timestamp, x.cols.timestamp) {
        forall j | 0 <= j < |rows| ensures TextLe(rows[j].cols.timestamp, x.cols.timestamp) {
          TextLeTransitive(rows[j].cols.timestamp, rows[0].cols.timestamp, x.cols.timestamp);
        }
        NewestFirstCons(x, rows);
      } else {
        TextLeTotal(rows[0].cols.timestamp, x.cols.timestamp);
        var tail := InsertNewest(x, rows[1..]);
        InsertNewestOrdered(x, rows[1..]);
        forall j | 0 <= j < |tail| ensures TextLe(tail[j].cols.timestamp, rows[0].cols.timestamp) {
          var y := tail[j];
          assert y in multiset(tail);
          assert y in multiset(rows[1..]) + multiset{x};
          if y != x {
            assert y in rows[1..];
            var k :| 0 <= k < |rows[1..]| && rows[1..][k] == y;
            assert rows[k + 1] == y;
          }
        }
        NewestFirstCons(rows[0], tail);
      }
    }
  }

  /** An insertion sort standing for SQLite's sorter. */
  function SortNewest(rows: seq<Row>): (r: seq<Row>)
    ensures multiset(r) == multiset(rows)
    ensures NewestFirst(r)
  {
    if rows == [] then []
    else
      var rest := SortNewest(rows[1..]);
      InsertNewestOrdered(rows[0], rest);
      assert rows == [rows[0]] + rows[1..];
      InsertNewest(rows[0], rest)
  }

  /** The list statement: the rows that meet the conditions, newest first. */
  function Query(rows: seq<Row>, cs: seq<Clause>): (r: seq<Row>)
    ensures forall x :: x in r <==> x in rows && Satisfies(x.cols.data, cs)
    ensures multiset(r) == multiset(Filter(rows, cs))
    ensures NewestFirst(r)
  {
    var r := SortNewest(Filter(rows, cs));
    assert forall x :: x in r <==> x in multiset(Filter(rows, cs));
    r
  }

  /** The table, with the `sqlite_sequence` entry AUTOINCREMENT keeps for it. */
  class MovementTable {
    var rows: seq<Row>
    /** The largest id ever handed out; SQLite never hands it out again. */
    var lastId: int
    /** Every id ever handed out, including the ids of deleted rows. */
    ghost var issued: set<int>

    ghost predicate Valid()
      reads this
    {
      && 0 <= lastId <= MaxInt64
      && IdsIncreasing(rows)
      && Ids(rows) <= issued
      && (forall id :: id in issued ==> 0 < id <= lastId)
    }

    /** The statement left every column of every row, and the sequence, as they were. */
    twostate predicate Untouched()
      reads this
    {
      rows == old(rows) && lastId == old(lastId) && issued == old(issued)
    }

    constructor ()
      ensures Valid()
      ensures rows == [] && lastId == 0 && issued == {}
    {
      rows := [];
      lastId := 0;
      issued := {};
    }

    /** `INSERT`: the new row gets the id after the largest id ever used, or
        the statement fails with SQLITE_FULL when that id is the largest
        64-bit integer. */
    method Insert(cols: Columns) returns (id: Option<int>)
      requires Valid()
      modifies this
      ensures Valid()
      ensures id.None? <==> old(lastId) == MaxInt64
      ensures id.None? ==> rows == old(rows) && lastId == old(lastId) && issued == old(issued)
      ensures id.Some? ==>
                && id.value == old(lastId) + 1
                && id.value !in old(issued)
                && (forall k :: k in old(issued) ==> k < id.value)
                && rows == old(rows) + [Row(id.value, cols)]
                && lastId == id.value
                && issued == old(issued) + {id.value}
    {
      if lastId == MaxInt64 {
        return None;
      }
      forall i | 0 <= i < |rows| ensures rows[i].id <= lastId {
        assert rows[i].id in Ids(rows);
      }
      lastId := lastId + 1;
      issued := issued + {lastId};
      rows := rows + [Row(lastId, cols)];
      assert Ids(rows) == Ids(old(rows)) + {lastId} by {
        forall k | k in Ids(rows) ensures k in Ids(old(rows)) + {lastId} {
          var i :| 0 <= i < |rows| && rows[i].id == k;
          if i < |old(rows)| { assert rows[i] == old(rows)[i]; }
        }
        forall k | k in Ids(old(rows)) ensures k in Ids(rows) {
          var i :| 0 <= i < |old(rows)| && old(rows)[i].id == k;
          assert rows[i] == old(rows)[i];
        }
        assert rows[|rows| - 1].id == lastId;
      }
      id := Some(lastId);
    }

    /** `UPDATE`: overwrites the six columns of the row with that id and
        returns the row count. */
    method Update(id: int, cols: Columns) returns (count: nat)
      requires Valid()
      modifies this
      ensures Valid()
      ensures count == CountId(old(rows), id)
      ensures count == if id in Ids(old(rows)) then 1 else 0
      ensures rows == ReplaceCols(old(rows), id, cols)
      ensures lastId == old(lastId) && issued == old(issued)
    {
      CountIdUnique(rows, id);
      count := CountId(rows, id);
      rows := ReplaceCols(rows, id, cols);
      assert Ids(rows) == Ids(old(rows)) by {
        forall k | k in Ids(rows) ensures k in Ids(old(rows)) {
          var i :| 0 <= i < |rows| && rows[i].id == k;
          assert old(rows)[i].id == k;
        }
        forall k | k in Ids(old(rows)) ensures k in Ids(rows) {
          var i :| 0 <= i < |old(rows)| && old(rows)[i].id == k;
          assert rows[i].id == k;
        }
      }
    }

    /** `DELETE`: removes the row with that id and returns the row count. */
    method Delete(id: int) returns (count: nat)
      requires Valid()
      modifies this
      ensures Valid()
      ensures count == CountId(old(rows), id)
      ensures count == if id in Ids(old(rows)) then 1 else 0
      ensures rows == RemoveId(old(rows), id)
      ensures lastId == old(lastId) && issued == old(issued)
    {
      CountIdUnique(rows, id);
      count := CountId(rows, id);
      rows := RemoveId(rows, id);
      assert Ids(rows) <= Ids(old(rows)) by {
        forall k | k in Ids(rows) ensures k in Ids(old(rows)) {
          var i :| 0 <= i < |rows| && rows[i].id == k;
          assert rows[i] in old(rows);
        }
      }
    }

    /** `SELECT * ... WHERE <conditions> ORDER BY timestamp DESC`. */
    method Select(cs: seq<Clause>) returns (result: seq<Row>)
      ensures forall x :: x in result <==> x in rows && Satisfies(x.cols.data, cs)
      ensures multiset(result) == multiset(Filter(rows, cs))
      ensures NewestFirst(result)
    {
      result := Query(rows, cs);
    }
  }

}
