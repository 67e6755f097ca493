# Night Shift Chaos telemetry dashboard — scoring and session log

A Dafny model of the logic in `App.py`, a Streamlit dashboard that simulates
"game sessions", stores each one in the `partidas` table of the SQLite file
`NSC.db`, and shows three KPIs over the stored sessions:

- **Scoring** (`scoring.dfy`): `simular_partida` draws `ventas` from [5, 50]
  and `errores` from [0, 10] and scores them as `ventas*100 - errores*50`,
  clamped at 0. On the simulated range the clamp never fires and the score
  lies in [0, 5000].
- **Session log** (`store.dfy`, helper `seqs.dfy`): the table is a sequence of
  rows `(id, fecha, ventas, errores, puntaje)` in insertion order, plus the
  AUTOINCREMENT high-water mark (the largest id ever handed out). `init_db` is
  `CREATE TABLE IF NOT EXISTS`. `guardar_resultado` appends one row with the
  next id. `SELECT * ... ORDER BY id DESC` returns every row once, newest first.
  A file without the table (`NoSuchTable`) and an exhausted id space
  (`SQLITE_FULL` once id 2^63-1 was used) are error results. Failures to
  open or write `NSC.db` itself are not modelled (see "Left out").
- **KPIs** (`kpis.dfy`): over a non-empty listing, the number of sessions,
  the highest score and the total sales. Pure folds, plus a one-pass loop
  proved equal to them.
- **One rerun of `main()`** (`app.dfy`): `init_db`, then on a click simulate
  and save, then read, then the metrics only when the table is not empty.
  `Replay` chains reruns; the lemmas cover any session that starts from a
  file without the table.

The randomness of `random.randint` and the clock reading of `datetime.now()`
are parameters: a click (`App.Press`) carries the timestamp text and the two
draws, constrained to the generator's ranges. `Scoring.SimulatePlay` shows
the draw as a nondeterministic choice instead.

App.py has no actor column, no reset and no manual-entry form; `errores` is
drawn from [0, 10] (App.py:26).

## Model

| member | source | states |
|---|---|---|
| Scoring.Score | App.py:28-30 | the score is the larger of 0 and `ventas*100 - errores*50`; it is never negative; it is 0 exactly when `2*ventas <= errores`; it is always a multiple of 50 |
| Scoring.SimulatedPlay | App.py:23-32 | for draws in [5,50]×[0,10] the returned triple keeps the draws, the clamp is a no-op (score equals the raw formula) and the score is in [0, 5000] |
| Scoring.SimulatePlay | App.py:23-32 | simular_partida with nondeterministic draws: the draws are in range, the score is the score of those draws and lies in [0, 5000] |
| Scoring.ScoreMonotone | App.py:29-30 | more sales never lower the score, more errors never raise it |
| Scoring.SimulatedRangeIsTight | App.py:25-30 | both ends of [0, 5000] are reached by in-range draws: (5, 10) scores 0 and (50, 0) scores 5000 |
| Scoring.ScoreExamples | App.py:29-30 | worked values: (0,0)→0, (10,0)→1000, (5,20)→0 (clamped), (5,9)→50 |
| Store.InitDb | App.py:9-20 | afterwards the table exists; an existing table is left exactly as it was; a missing one is created empty and valid |
| Store.InitDbIdempotent | App.py:13-18 | running init_db twice is the same as running it once |
| Store.Save | App.py:34-41 | of the modelled failures: fails with NoSuchTable exactly when the table is missing and with Full exactly when the id space is used up; otherwise appends exactly one row carrying the given values with id one past the high-water mark, leaves every earlier row unchanged, keeps the table valid, and the new id is larger than every stored id |
| Store.ListNewestFirst | App.py:63-65 | fails exactly when the table is missing; otherwise returns every stored row with its multiplicity and, on a valid table, in strictly decreasing id order |
| Store.DecreasingPermutationUnique | App.py:64 | two listings of the same rows that both have strictly decreasing ids are equal, so ORDER BY id DESC has one answer |
| Store.ListingIsOrderByIdDesc | App.py:64 | any arrangement of the stored rows with strictly decreasing ids equals the listing |
| Store.SaveThenList | App.py:34-64 | after a save the listing is the new row followed by the old listing; the new row's id is the previous largest id plus one, or 1 on an empty table |
| Kpis.BestScore | App.py:71 | the maximum of the puntaje column: no row's score exceeds it and some row attains it |
| Kpis.Summarize | App.py:67-72 | the metrics row: count equals the number of rows, the record bounds every score and is attained, the total is the sum of ventas |
| Kpis.ComputeKpis | App.py:69-72 | a single pass with a running count, maximum and sum gives exactly the metrics row |
| Kpis.TotalVentasReverse | App.py:72 | the sales total is the same whether the rows are read newest first or in insertion order |
| Kpis.SummarizeReverse | App.py:63-72 | all three metrics over the newest-first listing equal those over the rows in insertion order |
| Kpis.SummarizeAfterSave | App.py:58-72 | one more session adds 1 to the count, makes the record the larger of the old record and the new score, and adds its sales to the total |
| App.ApplyClick | App.py:55-59 | on a present table: without a click the database is unchanged; with a click, of the modelled failures, it fails exactly when the id space is used up (Full), and otherwise appends exactly the row holding the click's timestamp, draws and their score with the next id, keeping the table valid |
| App.Render | App.py:63-81 | the notice is shown exactly when the table is empty; otherwise the listing holds every stored row once (newest first on a valid table), the count is the number of rows, the total is their sales sum and the record is their attained best score |
| App.Main | App.py:44-81 | with file-level storage failures not modelled, a rerun fails only when a click meets an exhausted id space; without a click the database is only init_db'd; a click appends exactly the row holding its draws and their score; validity is kept; the empty-table notice is shown exactly when the table is empty; otherwise the page lists the stored rows newest first and its metrics count the rows, bound and attain the best score and sum the sales |
| App.MainKeepsSimulated | App.py:51-59 | a rerun on a table grown only by simulated clicks succeeds, keeps ids 1..n with every row scored from in-range draws, and adds one row per click |
| App.ReplayFromScratch | App.py:51-64 | any sequence of reruns from a file without the table never fails, leaves one row per click with ids 1..n, and every row's puntaje is the score of its own in-range ventas and errores |
| App.TotalVentasBounds | App.py:25-72 | over simulated rows the sales total lies between 5 and 50 times the number of rows |
| App.SimulatedPage | App.py:67-81 | on a table grown only by simulated clicks the notice shows exactly when it is empty; otherwise the count is the number of rows, the record lies in [0, 5000] and the sales total lies between 5 and 50 per row |
| App.PageAfterSession | App.py:51-81 | after any session from scratch the page shows the notice exactly when nobody clicked; otherwise the count equals the clicks, the record lies in [0, 5000] and total sales lie between 5 and 50 per game |

## Left out

- Streamlit page setup, title, sidebar button, spinner, success message, line chart and data table (App.py:45-48, 54, 56-57, 60, 75-79): presentation only. The page keeps the listing that feeds them. The button condition and the simulate-and-save (App.py:55, 58-59) are modelled by `App.ApplyClick`, and the empty-database notice (App.py:80-81) by `App.Render`.
- `time.sleep(1)` (App.py:57): latency only.
- sqlite3 connect, commit and close and pandas `read_sql_query` (App.py:10, 19-20, 35, 40-41, 63-65): replaced by the `Store.Db` value. A file that `connect` creates empty is `Store.Missing`.
- `datetime.now().strftime(...)` (App.py:37): the timestamp text is an opaque string carried by the click.
- `random.randint` (App.py:25-26): only its inclusive ranges are modelled.
- Store.Save: does not model the driver rejecting integers outside 64 bits, because the only caller passes simulated values of at most 5000.
- Kpis.TotalVentas: does not model 64-bit wrap-around of the pandas sum, which would need more than 10^17 stored sessions.
- App.Replay: stops at the first failed rerun, where Streamlit would show the error and keep serving later reruns. From a file without the table no rerun fails before 2^63-1 clicks, so the session lemmas are unaffected.
- Several browser sessions writing `NSC.db` at once: Streamlit runs one script thread per session, so two tabs can run main() concurrently; only the reruns of one session, which are serialized, are modelled.
- Store.Save: failures to open or write `NSC.db` are not modelled: an unopenable or read-only file, a disk I/O error, a database locked by another writer past the driver's 5-second timeout, or a full disk. `Store.Full` is only the id-space case of SQLITE_FULL. These depend on the file system, not on the program's logic.
- Store.ListNewestFirst: the same open and read failures of `sqlite3.connect` and `read_sql_query` are not modelled; the only modelled error is the missing table.
- App.Main: a rerun can also fail through any of those storage failures in init_db, the insert or the read; the model's promise that a rerun fails only on an exhausted id space holds only with them excluded.
