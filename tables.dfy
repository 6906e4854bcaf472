/**
 * One SQL table with an `INTEGER PRIMARY KEY AUTOINCREMENT` id: its rows in
 * rowid order and the id the next insert receives.
 */
module Tables {
  import opened Basics

  /** AUTOINCREMENT ids start at 1. */
  type RowId = x: int | x >= 1 witness 1

  datatype Row<R> = Row(id: RowId, fields: R)

  datatype Table<R> = Table(rows: seq<Row<R>>, nextId: RowId)

  function EmptyTable<R>(): Table<R> {
    Table([], 1)
  }

  /** Ids strictly increase along the rows and stay below the next id. */
  ghost predicate ValidTable<R>(t: Table<R>) {
    && (forall i :: 0 <= i < |t.rows| ==> t.rows[i].id < t.nextId)
    && Ordered(t.rows)
  }

  ghost predicate Ordered<R>(rows: seq<Row<R>>) {
    forall i, j :: 0 <= i < j < |rows| ==> rows[i].id < rows[j].id
  }

  predicate HasId<R>(t: Table<R>, id: int) {
    exists i :: 0 <= i < |t.rows| && t.rows[i].id == id
  }

  /** An INSERT: the new row gets the next id. */
  function Insert<R>(t: Table<R>, fields: R): (r: Table<R>)
    ensures r.rows == t.rows + [Row(t.nextId, fields)]
    ensures r.nextId == t.nextId + 1
  {
    Table(t.rows + [Row(t.nextId, fields)], t.nextId + 1)
  }

  /** An insert keeps the table valid and its id is one no row had. */
  lemma InsertValid<R>(t: Table<R>, fields: R)
    requires ValidTable(t)
    ensures ValidTable(Insert(t, fields))
    ensures !HasId(t, t.nextId)
  {
  }

  /** The first row, in rowid order, whose columns satisfy `p`. */
  function FindFirst<R>(rows: seq<Row<R>>, p: R -> bool): (r: Option<RowId>)
    ensures r.None? <==> forall i :: 0 <= i < |rows| ==> !p(rows[i].fields)
    ensures r.Some? ==> exists i :: 0 <= i < |rows| && rows[i].id == r.value && p(rows[i].fields)
                          && forall j :: 0 <= j < i ==> !p(rows[j].fields)
  {
    if rows == [] then None
    else if p(rows[0].fields) then Some(rows[0].id)
    else
      var r := FindFirst(rows[1..], p);
      assert r.Some? ==> exists i :: 0 <= i < |rows[1..]| && rows[1..][i].id == r.value && p(rows[1..][i].fields)
                          && forall j :: 0 <= j < i ==> !p(rows[1..][j].fields);
      r
  }

  /** An UPDATE ... WHERE id = ?: the row with that id gets new columns. */
  function Update<R>(rows: seq<Row<R>>, id: int, fields: R): (r: seq<Row<R>>)
    ensures |r| == |rows|
    ensures forall i :: 0 <= i < |rows| ==> r[i].id == rows[i].id
    ensures forall i :: 0 <= i < |rows| ==> r[i].fields == (if rows[i].id == id then fields else rows[i].fields)
  {
    if rows == [] then []
    else [if rows[0].id == id then Row(rows[0].id, fields) else rows[0]] + Update(rows[1..], id, fields)
  }

  /** A DELETE ... WHERE id = ?: every other row stays, in order. */
  function Delete<R>(rows: seq<Row<R>>, id: int): (r: seq<Row<R>>)
    ensures forall i :: 0 <= i < |r| ==> r[i] in rows && r[i].id != id
    ensures forall i :: 0 <= i < |rows| && rows[i].id != id ==> rows[i] in r
    ensures |r| <= |rows|
  {
    if rows == [] then []
    else if rows[0].id == id then Delete(rows[1..], id)
    else [rows[0]] + Delete(rows[1..], id)
  }

  lemma {:induction false} DeleteOrdered<R>(rows: seq<Row<R>>, id: int)
    requires Ordered(rows)
    ensures Ordered(Delete(rows, id))
  {
    if rows != [] {
      assert Ordered(rows[1..]) by {
        forall i, j | 0 <= i < j < |rows[1..]| ensures rows[1..][i].id < rows[1..][j].id {
          assert rows[1..][i] == rows[i + 1] && rows[1..][j] == rows[j + 1];
        }
      }
      DeleteOrdered(rows[1..], id);
      if rows[0].id != id {
        DeleteAbove(rows[1..], id, rows[0].id);
        ConsOrdered(rows[0], Delete(rows[1..], id));
      }
    }
  }

  /** Deleting keeps every remaining id above a bound the rows were above. */
  lemma {:induction false} DeleteAbove<R>(rows: seq<Row<R>>, id: int, lo: int)
    requires forall i :: 0 <= i < |rows| ==> lo < rows[i].id
    ensures forall i :: 0 <= i < |Delete(rows, id)| ==> lo < Delete(rows, id)[i].id
  {
    if rows != [] {
      DeleteAbove(rows[1..], id, lo);
    }
  }

  lemma ConsOrdered<R>(row: Row<R>, rest: seq<Row<R>>)
    requires Ordered(rest)
    requires forall k :: 0 <= k < |rest| ==> row.id < rest[k].id
    ensures Ordered([row] + rest)
  {
    var r := [row] + rest;
    forall i, j | 0 <= i < j < |r| ensures r[i].id < r[j].id {
      assert r[j] == rest[j - 1];
      if i > 0 {
        assert r[i] == rest[i - 1];
      }
    }
  }

  /** An update keeps ids, so a valid table stays valid. */
  lemma UpdateValid<R>(t: Table<R>, id: int, fields: R)
    requires ValidTable(t)
    ensures ValidTable(Table(Update(t.rows, id, fields), t.nextId))
  {
  }

  /** A delete only drops rows, so a valid table stays valid and the id is gone. */
  lemma DeleteValid<R>(t: Table<R>, id: int)
    requires ValidTable(t)
    ensures ValidTable(Table(Delete(t.rows, id), t.nextId))
    ensures !HasId(Table(Delete(t.rows, id), t.nextId), id)
  {
    DeleteOrdered(t.rows, id);
    var r := Delete(t.rows, id);
    forall i | 0 <= i < |r| ensures r[i].id < t.nextId && r[i].id != id {
      assert r[i] in t.rows;
    }
  }
}
