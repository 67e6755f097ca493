/** The three metrics shown above the charts when the table is not empty
    (App.py main: "Partidas jugadas", "Récord de puntaje", "Total ventas"). */
module Kpis {
  import opened Store
  import Seqs

  /** Number of sessions ("Partidas jugadas"), best score ("Récord de
      puntaje") and total sales ("Total ventas"). */
  datatype Kpi = Kpi(partidas: nat, bestPuntaje: int, totalVentas: int)

  /** Sum of the ventas column. */
  function TotalVentas(df: seq<Record>): int {
    if |df| == 0 then 0 else df[0].ventas + TotalVentas(df[1..])
  }

  /** Maximum of the puntaje column of a non-empty listing: no score exceeds
      it, and some row reaches it. */
  function BestScore(df: seq<Record>): (m: int)
    requires |df| > 0
    ensures forall i :: 0 <= i < |df| ==> df[i].puntaje <= m
    ensures exists i :: 0 <= i < |df| && df[i].puntaje == m
  {
    if |df| == 1 then df[0].puntaje
    else
      var rest := BestScore(df[1..]);
      if df[0].puntaje >= rest then df[0].puntaje else rest
  }

  /** The metrics row of a non-empty listing. */
  function Summarize(df: seq<Record>): (k: Kpi)
    requires |df| > 0
    ensures k.partidas == |df|
    ensures forall i :: 0 <= i < |df| ==> df[i].puntaje <= k.bestPuntaje
    ensures exists i :: 0 <= i < |df| && df[i].puntaje == k.bestPuntaje
    ensures k.totalVentas == TotalVentas(df)
  {
    Kpi(|df|, BestScore(df), TotalVentas(df))
  }

  /** Adding a row at the back adds its sales to the total. */
  lemma {:induction false} TotalVentasSnoc(df: seq<Record>, x: Record)
    ensures TotalVentas(df + [x]) == TotalVentas(df) + x.ventas
  {
    if |df| > 0 {
      assert (df + [x])[1..] == df[1..] + [x];
      TotalVentasSnoc(df[1..], x);
    }
  }

  /** The total does not depend on the order the rows are read in. */
  lemma {:induction false} TotalVentasReverse(df: seq<Record>)
    ensures TotalVentas(Seqs.Reverse(df)) == TotalVentas(df)
  {
    if |df| > 0 {
      TotalVentasReverse(df[1..]);
      assert Seqs.Reverse(df) == Seqs.Reverse(df[1..]) + [df[0]];
      TotalVentasSnoc(Seqs.Reverse(df[1..]), df[0]);
    }
  }

  /** The same metrics computed in a single pass over the listing, with a
      running count, running maximum and running sum. */
  method ComputeKpis(df: seq<Record>) returns (k: Kpi)
    requires |df| > 0
    ensures k == Summarize(df)
  {
    var count: nat := 1;
    var best := df[0].puntaje;
    ghost var at := 0;
    var total := df[0].ventas;
    assert df[..1] == [df[0]];
    while count < |df|
      invariant 1 <= count <= |df|
      invariant 0 <= at < count && df[at].puntaje == best
      invariant forall i :: 0 <= i < count ==> df[i].puntaje <= best
      invariant total == TotalVentas(df[..count])
    {
      if df[count].puntaje > best {
        best := df[count].puntaje;
        at := count;
      }
      assert df[..count + 1] == df[..count] + [df[count]];
      TotalVentasSnoc(df[..count], df[count]);
      total := total + df[count].ventas;
      count := count + 1;
    }
    assert df[..count] == df;
    k := Kpi(count, best, total);
    MaxUnique(df, best, BestScore(df));
  }

  /** Two values that both bound a column from above and are both reached in
      it are equal. */
  lemma MaxUnique(df: seq<Record>, m1: int, m2: int)
    requires forall i :: 0 <= i < |df| ==> df[i].puntaje <= m1 && df[i].puntaje <= m2
    requires exists i :: 0 <= i < |df| && df[i].puntaje == m1
    requires exists i :: 0 <= i < |df| && df[i].puntaje == m2
    ensures m1 == m2
  {
  }

  /** The metrics of a listing do not depend on its order: read newest first
      they equal those of the rows in insertion order. */
  lemma SummarizeReverse(df: seq<Record>)
    requires |df| > 0
    ensures Summarize(Seqs.Reverse(df)) == Summarize(df)
  {
    var a, b := Summarize(Seqs.Reverse(df)), Summarize(df);
    TotalVentasReverse(df);
    var r := Seqs.Reverse(df);
    forall i | 0 <= i < |df|
      ensures df[i].puntaje <= a.bestPuntaje
    {
      assert df[i] == r[|df| - 1 - i];
    }
    var j :| 0 <= j < |r| && r[j].puntaje == a.bestPuntaje;
    assert r[j] == df[|df| - 1 - j];
    MaxUnique(df, a.bestPuntaje, b.bestPuntaje);
  }

  /** What one more session does to the metrics: one more game, the record
      becomes the larger of the old record and the new score, and the new
      sales join the total. */
  lemma SummarizeAfterSave(df: seq<Record>, x: Record)
    requires |df| > 0
    ensures var k, k' := Summarize(df), Summarize([x] + df);
      && k'.partidas == k.partidas + 1
      && k'.bestPuntaje == (if x.puntaje >= k.bestPuntaje then x.puntaje else k.bestPuntaje)
      && k'.totalVentas == k.totalVentas + x.ventas
  {
  }
}
