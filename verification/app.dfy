/** One Streamlit rerun of App.py's main(), with the UI reduced to what it
    decides: whether a session is simulated and saved, and what page is shown. */
module App {
  import opened Wrappers
  import opened Scoring
  import opened Store
  import opened Kpis
  import Seqs

  /** A click on "Simular partida nueva": the clock reading taken when the row
      is saved and the two random draws of simular_partida. */
  datatype Press = Press(fecha: string, ventas: int, errores: int)

  /** A click whose draws are ones the generator can produce. */
  predicate ValidPress(p: Press) {
    InSimRange(p.ventas, p.errores)
  }

  /** A rerun that either has no click or a click with valid draws. */
  predicate ValidInput(press: Option<Press>) {
    press.Some? ==> ValidPress(press.value)
  }

  /** The main area: the "empty database" notice, or the metrics row over the
      listing that feeds the chart and the raw table. */
  datatype Page = EmptyNotice | Dashboard(kpi: Kpi, historial: seq<Record>)

  /** The database after a rerun and the page it shows. */
  datatype Rerun = Rerun(db: Db, page: Page)

  /** A row written by the simulate path: draws in range and the score of
      those draws. */
  predicate FromSimulation(rec: Record) {
    InSimRange(rec.ventas, rec.errores) && rec.puntaje == Score(rec.ventas, rec.errores)
  }

  /** The record a click appends to a table. */
  function PressRecord(t: Table, p: Press): Record {
    Record(t.lastId + 1, p.fecha, p.ventas, p.errores, Score(p.ventas, p.errores))
  }

  /** The sidebar button (App.py lines 55-59): on a click, simulate a session
      and save it; without one, leave the database alone. On a present table
      the only failure is an exhausted id space. */
  function ApplyClick(db: Db, press: Option<Press>): (r: Result<Db, Error>)
    requires db.Present? && ValidInput(press)
    ensures r.Err? <==> press.Some? && db.table.lastId >= MaxRowId
    ensures r.Err? ==> r.error == Full
    ensures r.Ok? ==> r.value.Present?
    ensures press.None? ==> r == Ok(db)
    ensures r.Ok? && press.Some? ==>
      AppendsOne(db.table, r.value.table, PressRecord(db.table, press.value))
    ensures r.Ok? && Valid(db.table) ==> Valid(r.value.table)
  {
    match press
    case None => Ok(db)
    case Some(p) =>
      var play := SimulatedPlay(p.ventas, p.errores);
      Save(db, p.fecha, play.ventas, play.errores, play.puntaje)
  }

  /** The dashboard faithfully reports the stored rows: the listing holds
      each of them once, the count is their number, the total is the sum of
      their sales and the record is their best score. */
  predicate DashboardOf(kpi: Kpi, historial: seq<Record>, rows: seq<Record>) {
    && multiset(historial) == multiset(rows)
    && kpi.partidas == |rows|
    && kpi.totalVentas == TotalVentas(rows)
    && (forall i :: 0 <= i < |rows| ==> rows[i].puntaje <= kpi.bestPuntaje)
    && (exists i :: 0 <= i < |rows| && rows[i].puntaje == kpi.bestPuntaje)
  }

  /** The read and the main area (App.py lines 63-81): the notice when the
      table is empty, otherwise the metrics over the newest-first listing. */
  function Render(db: Db): (page: Page)
    requires db.Present?
    ensures page.EmptyNotice? <==> |db.table.rows| == 0
    ensures page.Dashboard? ==> DashboardOf(page.kpi, page.historial, db.table.rows)
    ensures page.Dashboard? && Valid(db.table) ==> IdsDecreasing(page.historial)
  {
    var df := ListNewestFirst(db).value;
    if |df| == 0 then EmptyNotice
    else
      SummarizeReverse(db.table.rows);
      Dashboard(Summarize(df), df)
  }

  /** main(): init_db, then on a click simular_partida and guardar_resultado,
      then the newest-first read, and the metrics only when it is not empty.
      Of the store's failures only an exhausted id space is modelled, and a
      click is the only thing that can meet it. */
  function Main(db: Db, press: Option<Press>): (r: Result<Rerun, Error>)
    requires ValidInput(press)
    ensures r.Err? <==> press.Some? && InitDb(db).table.lastId >= MaxRowId
    ensures r.Err? ==> r.error == Full
    ensures r.Ok? ==> r.value.db.Present?
    ensures press.None? ==> r.Ok? && r.value.db == InitDb(db)
    ensures r.Ok? && press.Some? ==>
      AppendsOne(InitDb(db).table, r.value.db.table, PressRecord(InitDb(db).table, press.value))
    ensures r.Ok? && ValidDb(db) ==> Valid(r.value.db.table)
    ensures r.Ok? ==> (r.value.page.EmptyNotice? <==> |r.value.db.table.rows| == 0)
    ensures r.Ok? && r.value.page.Dashboard? ==>
      DashboardOf(r.value.page.kpi, r.value.page.historial, r.value.db.table.rows)
    ensures r.Ok? && r.value.page.Dashboard? && ValidDb(db) ==>
      IdsDecreasing(r.value.page.historial)
  {
    var db1 := InitDb(db);
    match ApplyClick(db1, press)
    case Err(e) => Err(e)
    case Ok(db2) => Ok(Rerun(db2, Render(db2)))
  }

  /** Number of reruns that carried a click. */
  function Clicks(presses: seq<Option<Press>>): nat
  {
    if |presses| == 0 then 0
    else (if presses[0].Some? then 1 else 0) + Clicks(presses[1..])
  }

  /** A browser session: reruns one after another, each starting from the
      database the previous one left; stops at the first failure. */
  function Replay(db: Db, presses: seq<Option<Press>>): Result<Db, Error>
    requires forall i :: 0 <= i < |presses| ==> ValidInput(presses[i])
    decreases |presses|
  {
    if |presses| == 0 then Ok(db)
    else
      match Main(db, presses[0])
      case Err(e) => Err(e)
      case Ok(rr) => Replay(rr.db, presses[1..])
  }

  /** What every table grown only by the simulate path looks like: ids
      1, 2, ..., n in order and every row scored from in-range draws. */
  predicate SimulatedTable(t: Table) {
    && Valid(t)
    && t.lastId == |t.rows|
    && (forall i :: 0 <= i < |t.rows| ==> t.rows[i].id == i + 1)
    && (forall i :: 0 <= i < |t.rows| ==> FromSimulation(t.rows[i]))
  }

  /** Appending the next simulated row keeps a table simulated. */
  lemma AppendKeepsSimulated(t0: Table, t: Table, rec: Record)
    requires SimulatedTable(t0) && Valid(t)
    requires AppendsOne(t0, t, rec) && FromSimulation(rec) && rec.id == t0.lastId + 1
    ensures SimulatedTable(t)
  {
  }

  /** One rerun keeps a simulated table simulated and grows it by the number
      of clicks it carried, as long as the id space is not exhausted. */
  lemma MainKeepsSimulated(db: Db, press: Option<Press>)
    requires ValidInput(press)
    requires db.Present? ==> SimulatedTable(db.table) && |db.table.rows| < MaxRowId
    ensures Main(db, press).Ok?
    ensures var t := Main(db, press).value.db.table;
      && SimulatedTable(t)
      && |t.rows| == (if db.Present? then |db.table.rows| else 0) + (if press.Some? then 1 else 0)
  {
    var t0 := InitDb(db).table;
    assert SimulatedTable(t0);
    var r := Main(db, press);
    assert r.Ok?;
    var t := r.value.db.table;
    if press.Some? {
      var rec := PressRecord(t0, press.value);
      assert FromSimulation(rec);
      AppendKeepsSimulated(t0, t, rec);
    }
  }

  /** Any sequence of reruns from a file without the table: no rerun fails,
      one row per click, ids 1 to n, and every row holds the score of its own
      in-range draws. */
  lemma {:induction false} ReplayFromScratch(presses: seq<Option<Press>>)
    requires forall i :: 0 <= i < |presses| ==> ValidInput(presses[i])
    requires |presses| <= MaxRowId
    ensures Replay(Missing, presses).Ok?
    ensures var db := Replay(Missing, presses).value;
      && (|presses| > 0 ==> db.Present?)
      && (db.Present? ==> SimulatedTable(db.table) && |db.table.rows| == Clicks(presses))
  {
    ReplayKeepsSimulated(Missing, presses);
  }

  /** The induction behind ReplayFromScratch, from any simulated state. */
  lemma {:induction false} ReplayKeepsSimulated(db: Db, presses: seq<Option<Press>>)
    requires forall i :: 0 <= i < |presses| ==> ValidInput(presses[i])
    requires db.Present? ==> SimulatedTable(db.table)
    requires (if db.Present? then |db.table.rows| else 0) + |presses| <= MaxRowId
    decreases |presses|
    ensures Replay(db, presses).Ok?
    ensures var db' := Replay(db, presses).value;
      && (db'.Present? || (db' == db && |presses| == 0))
      && (db'.Present? ==> SimulatedTable(db'.table))
      && (db'.Present? ==>
            |db'.table.rows| == (if db.Present? then |db.table.rows| else 0) + Clicks(presses))
  {
    if |presses| > 0 {
      MainKeepsSimulated(db, presses[0]);
      var rr := Main(db, presses[0]).value;
      ReplayKeepsSimulated(rr.db, presses[1..]);
    }
  }

  /** Sales over simulated rows: between 5 and 50 per row. */
  lemma {:induction false} TotalVentasBounds(df: seq<Record>)
    requires forall i :: 0 <= i < |df| ==> FromSimulation(df[i])
    ensures SalesMin * |df| <= TotalVentas(df) <= SalesMax * |df|
  {
    if |df| > 0 {
      TotalVentasBounds(df[1..]);
    }
  }

  /** The page of a table grown only by the simulate path: the notice
      exactly when it is empty; otherwise one game per row, a record in
      [0, 5000] and a sales total between 5 and 50 per game. */
  lemma SimulatedPage(t: Table)
    requires SimulatedTable(t)
    ensures var page, n := Render(Present(t)), |t.rows|;
      && (page.EmptyNotice? <==> n == 0)
      && (page.Dashboard? ==>
            && page.kpi.partidas == n
            && 0 <= page.kpi.bestPuntaje <= MaxSimulatedScore
            && SalesMin * n <= page.kpi.totalVentas <= SalesMax * n)
  {
    var page := Render(Present(t));
    if page.Dashboard? {
      assert DashboardOf(page.kpi, page.historial, t.rows);
      TotalVentasBounds(t.rows);
      var j :| 0 <= j < |t.rows| && t.rows[j].puntaje == page.kpi.bestPuntaje;
      assert FromSimulation(t.rows[j]);
    }
  }

  /** The page after any session from scratch: the notice exactly when nobody
      clicked; otherwise one game per click, a record in [0, 5000] and a
      sales total between 5 and 50 per game. */
  lemma PageAfterSession(presses: seq<Option<Press>>)
    requires forall i :: 0 <= i < |presses| ==> ValidInput(presses[i])
    requires |presses| <= MaxRowId
    ensures Replay(Missing, presses).Ok?
    ensures var db := Replay(Missing, presses).value;
      Main(db, None).Ok? &&
      var page := Main(db, None).value.page;
      var n := Clicks(presses);
      && (page.EmptyNotice? <==> n == 0)
      && (page.Dashboard? ==>
            && page.kpi.partidas == n
            && 0 <= page.kpi.bestPuntaje <= MaxSimulatedScore
            && SalesMin * n <= page.kpi.totalVentas <= SalesMax * n)
  {
    ReplayKeepsSimulated(Missing, presses);
    var db := Replay(Missing, presses).value;
    var t := InitDb(db).table;
    assert |t.rows| == Clicks(presses) && SimulatedTable(t) by {
      if db.Missing? {
        assert |presses| == 0;
      }
    }
    assert Main(db, None) == Ok(Rerun(Present(t), Render(Present(t))));
    SimulatedPage(t);
  }
}
