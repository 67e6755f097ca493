/** The `partidas` table of NSC.db as an abstract append-only store
    (App.py: init_db, guardar_resultado and the `ORDER BY id DESC` read). */
module Store {
  import opened Wrappers
  import Seqs

  /** The largest value SQLite gives an INTEGER PRIMARY KEY (2^63 - 1). */
  const MaxRowId: int := 0x7FFF_FFFF_FFFF_FFFF

  /** One row: id, timestamp text, sales, errors and the stored score. */
  datatype Record = Record(id: int, fecha: string, ventas: int, errores: int, puntaje: int)

  /** The rows in insertion order, and the AUTOINCREMENT high-water mark
      (the largest id ever handed out, 0 before the first insert). */
  datatype Table = Table(rows: seq<Record>, lastId: int)

  /** The database file either lacks the table or holds it. */
  datatype Db = Missing | Present(table: Table)

  /** The driver errors the model covers: the table does not exist, or the
      AUTOINCREMENT id space is exhausted (the id-space case of SQLITE_FULL).
      Failures to open or write the file itself are not modelled. */
  datatype Error = NoSuchTable | Full

  /** Ids are positive, strictly increasing in insertion order and bounded by
      the high-water mark, which is the last row's id because no row is ever
      deleted. */
  predicate Valid(t: Table) {
    && 0 <= t.lastId <= MaxRowId
    && (forall i :: 0 <= i < |t.rows| ==> 1 <= t.rows[i].id <= t.lastId)
    && (forall i, j :: 0 <= i < j < |t.rows| ==> t.rows[i].id < t.rows[j].id)
    && t.lastId == (if |t.rows| == 0 then 0 else t.rows[|t.rows| - 1].id)
  }

  /** A database state the application can be in. */
  predicate ValidDb(db: Db) {
    db.Present? ==> Valid(db.table)
  }

  /** Ids strictly decreasing from front to back: newest first. */
  predicate IdsDecreasing(s: seq<Record>) {
    forall i, j :: 0 <= i < j < |s| ==> s[i].id > s[j].id
  }

  /** `after` is `before` with exactly `rec` added at the end and nothing else
      changed. */
  predicate AppendsOne(before: Table, after: Table, rec: Record) {
    && |after.rows| == |before.rows| + 1
    && after.rows[..|before.rows|] == before.rows
    && after.rows[|before.rows|] == rec
  }

  /** init_db: CREATE TABLE IF NOT EXISTS. An existing table is left alone;
      a missing one is created empty. */
  function InitDb(db: Db): (r: Db)
    ensures r.Present? && (ValidDb(db) ==> Valid(r.table))
    ensures db.Present? ==> r == db
    ensures db.Missing? ==> r.Present? && r.table.rows == [] && Valid(r.table)
  {
    match db
    case Missing => Present(Table([], 0))
    case Present(_) => db
  }

  /** guardar_resultado: insert one row with the given timestamp and values;
      the id comes from the AUTOINCREMENT counter. */
  function Save(db: Db, fecha: string, ventas: int, errores: int, puntaje: int): (r: Result<Db, Error>)
    ensures db.Missing? <==> r == Err(NoSuchTable)
    ensures db.Present? && db.table.lastId >= MaxRowId <==> r == Err(Full)
    ensures r.Ok? ==>
      && r.value.Present?
      && r.value.table.lastId == db.table.lastId + 1
      && AppendsOne(db.table, r.value.table,
                    Record(db.table.lastId + 1, fecha, ventas, errores, puntaje))
    ensures r.Ok? && Valid(db.table) ==>
      && Valid(r.value.table)
      && forall rec :: rec in db.table.rows ==> rec.id < r.value.table.lastId
  {
    match db
    case Missing => Err(NoSuchTable)
    case Present(t) =>
      if t.lastId >= MaxRowId then Err(Full)
      else
        var id := t.lastId + 1;
        Ok(Present(Table(t.rows + [Record(id, fecha, ventas, errores, puntaje)], id)))
  }

  /** SELECT * FROM partidas ORDER BY id DESC: every stored row exactly once,
      newest first. */
  function ListNewestFirst(db: Db): (r: Result<seq<Record>, Error>)
    ensures db.Missing? <==> r == Err(NoSuchTable)
    ensures r.Ok? ==> |r.value| == |db.table.rows| && multiset(r.value) == multiset(db.table.rows)
    ensures r.Ok? && Valid(db.table) ==> IdsDecreasing(r.value)
  {
    match db
    case Missing => Err(NoSuchTable)
    case Present(t) =>
      Seqs.ReversePermutes(t.rows);
      Ok(Seqs.Reverse(t.rows))
  }

  /** In a sequence with decreasing ids, the front row has the largest id of
      the whole sequence and no other row shares it. */
  lemma FrontIsNewest(s: seq<Record>, x: Record)
    requires IdsDecreasing(s) && x in s
    ensures x.id <= s[0].id
    ensures x.id == s[0].id ==> x == s[0]
  {
  }

  /** Dropping the front row of a newest-first sequence leaves one. */
  lemma TailDecreasing(s: seq<Record>)
    requires |s| > 0 && IdsDecreasing(s)
    ensures IdsDecreasing(s[1..])
  {
  }

  /** Two newest-first arrangements of the same rows start with the same
      row: the one with the largest id. */
  lemma FrontsAgree(a: seq<Record>, b: seq<Record>)
    requires multiset(a) == multiset(b) && |a| > 0
    requires IdsDecreasing(a) && IdsDecreasing(b)
    ensures |b| > 0 && a[0] == b[0]
  {
    assert a[0] in multiset(b);
    assert |b| > 0;
    assert b[0] in multiset(a);
    FrontIsNewest(a, b[0]);
    FrontIsNewest(b, a[0]);
  }

  /** ORDER BY id DESC determines the answer: two listings with the same rows
      and decreasing ids are the same listing. */
  lemma {:induction false} DecreasingPermutationUnique(a: seq<Record>, b: seq<Record>)
    requires multiset(a) == multiset(b)
    requires IdsDecreasing(a) && IdsDecreasing(b)
    ensures a == b
  {
    if |a| == 0 {
      assert |b| == |multiset(b)| == 0;
    } else {
      FrontsAgree(a, b);
      Seqs.MultisetTail(a);
      Seqs.MultisetTail(b);
      TailDecreasing(a);
      TailDecreasing(b);
      DecreasingPermutationUnique(a[1..], b[1..]);
      assert a == [a[0]] + a[1..];
      assert b == [b[0]] + b[1..];
    }
  }

  /** The listing is the one answer ORDER BY id DESC admits: any arrangement
      of the stored rows with decreasing ids equals it. */
  lemma ListingIsOrderByIdDesc(db: Db, s: seq<Record>)
    requires db.Present? && Valid(db.table)
    requires multiset(s) == multiset(db.table.rows) && IdsDecreasing(s)
    ensures ListNewestFirst(db) == Ok(s)
  {
    DecreasingPermutationUnique(ListNewestFirst(db).value, s);
  }

  /** Reading right after an insert: the new row heads the listing, followed by
      the listing from before. Its id is one more than the previous largest id,
      or 1 on an empty table. */
  lemma SaveThenList(db: Db, fecha: string, ventas: int, errores: int, puntaje: int)
    requires ValidDb(db)
    requires Save(db, fecha, ventas, errores, puntaje).Ok?
    ensures var db' := Save(db, fecha, ventas, errores, puntaje).value;
      var rows := db.table.rows;
      var newId := if |rows| == 0 then 1 else rows[|rows| - 1].id + 1;
      ListNewestFirst(db') ==
        Ok([Record(newId, fecha, ventas, errores, puntaje)] + ListNewestFirst(db).value)
  {
    var t := db.table;
    var rec := Record(t.lastId + 1, fecha, ventas, errores, puntaje);
    var t' := Save(db, fecha, ventas, errores, puntaje).value.table;
    assert t'.rows == t.rows + [rec] by {
      assert t'.rows == t'.rows[..|t.rows|] + [t'.rows[|t.rows|]];
    }
    assert rec.id == (if |t.rows| == 0 then 1 else t.rows[|t.rows| - 1].id + 1);
    Seqs.ReverseSnoc(t.rows, rec);
  }

  /** init_db can run on every rerun: a second call changes nothing. */
  lemma InitDbIdempotent(db: Db)
    ensures InitDb(InitDb(db)) == InitDb(db)
  {
  }
}
