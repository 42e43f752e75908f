/**
 The multi-month report: for each requested month, in list order, the sales
 rows dated in that month are linked by their normalized client name to the
 waybill table, and the month-tagged rows are concatenated.
 */
module MonthlyReport {
  import opened Cells
  import opened Normalization
  import opened Matching
  import opened Seqs

  /** A sales row; its date has already been parsed, `None` where parsing failed. */
  datatype Venta = Venta(fecha: Option<Date>, cliente: Option<string>, envio: Cell)

  /** A row of the report. */
  datatype MonthRow = MonthRow(mes: Period, fechaVenta: Option<Date>, cliente: string, envio: Cell, found: MatchFields)

  /** The date is present and falls in month `m`. */
  predicate InMonth(d: Option<Date>, m: Period) {
    d.Some? && PeriodOf(d.value) == m
  }

  /** The sales of month `m`, in their original order. */
  function MonthSales(ventas: seq<Venta>, m: Period): seq<Venta> {
    if ventas == [] then []
    else (if InMonth(ventas[0].fecha, m) then [ventas[0]] else []) + MonthSales(ventas[1..], m)
  }

  /** A sale is kept iff its date exists and falls in month `m`; undated sales never qualify. */
  lemma {:induction false} MonthSalesSelects(ventas: seq<Venta>, m: Period)
    ensures |MonthSales(ventas, m)| <= |ventas|
    ensures forall v :: v in MonthSales(ventas, m) ==> v in ventas && InMonth(v.fecha, m)
    ensures forall v :: v in ventas && InMonth(v.fecha, m) ==> v in MonthSales(ventas, m)
  {
    if ventas != [] {
      MonthSalesSelects(ventas[1..], m);
      assert ventas == [ventas[0]] + ventas[1..];
    }
  }

  /** Filtering by month distributes over concatenation, so it keeps the relative order of rows. */
  lemma {:induction false} MonthSalesAppend(a: seq<Venta>, b: seq<Venta>, m: Period)
    ensures MonthSales(a + b, m) == MonthSales(a, m) + MonthSales(b, m)
  {
    if a == [] {
      assert a + b == b;
    } else {
      assert (a + b)[1..] == a[1..] + b;
      MonthSalesAppend(a[1..], b, m);
    }
  }

  /** An independent count of the sales of month `m`. */
  function CountInMonth(ventas: seq<Venta>, m: Period): nat {
    if ventas == [] then 0 else (if InMonth(ventas[0].fecha, m) then 1 else 0) + CountInMonth(ventas[1..], m)
  }

  lemma {:induction false} MonthSalesCount(ventas: seq<Venta>, m: Period)
    ensures |MonthSales(ventas, m)| == CountInMonth(ventas, m)
  {
    if ventas != [] {
      MonthSalesCount(ventas[1..], m);
    }
  }

  /** The report row of one sale of month `m`: the client shown is the normalized one. */
  function SaleRow(v: Venta, gs: seq<Guia>, sim: Similarity, m: Period): MonthRow {
    MonthRow(m, v.fecha, NameKey(v.cliente), v.envio, Link(NameKey(v.cliente), gs, sim))
  }

  /** The row shows sale `v`: its sale date, its normalized client and its shipment. */
  predicate RowOf(row: MonthRow, v: Venta) {
    && row.fechaVenta == v.fecha
    && row.cliente == NameKey(v.cliente)
    && row.envio == v.envio
  }

  /**
   A well-formed report row: its sale date lies in its month, its client is
   normalized, and its match columns come from linking that client.
   */
  predicate Reported(row: MonthRow, gs: seq<Guia>, sim: Similarity) {
    && InMonth(row.fechaVenta, row.mes)
    && IsNormal(row.cliente)
    && row.found == Link(row.cliente, gs, sim)
  }

  /** The rows of one month: each sale of the month, in order, turned into a report row. */
  function ReportMonth(ventas: seq<Venta>, gs: seq<Guia>, sim: Similarity, m: Period): seq<MonthRow> {
    Map((v: Venta) => SaleRow(v, gs, sim, m), MonthSales(ventas, m))
  }

  /** A month yields one row per sale dated in it, each tagged with the month and well formed. */
  lemma ReportMonthRows(ventas: seq<Venta>, gs: seq<Guia>, sim: Similarity, m: Period)
    ensures |ReportMonth(ventas, gs, sim, m)| == CountInMonth(ventas, m)
    ensures |ReportMonth(ventas, gs, sim, m)| == |MonthSales(ventas, m)|
    ensures forall i :: 0 <= i < |MonthSales(ventas, m)| ==>
              RowOf(ReportMonth(ventas, gs, sim, m)[i], MonthSales(ventas, m)[i])
    ensures forall i :: 0 <= i < |ReportMonth(ventas, gs, sim, m)| ==>
              && ReportMonth(ventas, gs, sim, m)[i].mes == m
              && Reported(ReportMonth(ventas, gs, sim, m)[i], gs, sim)
  {
    MonthSalesCount(ventas, m);
    MonthSalesSelects(ventas, m);
  }

  /** A single sale yields its own row in its month, with its match, and no row in any other month. */
  lemma ReportMonthSingle(v: Venta, gs: seq<Guia>, sim: Similarity, m: Period)
    ensures ReportMonth([v], gs, sim, m) ==
              if InMonth(v.fecha, m)
              then [MonthRow(m, v.fecha, NameKey(v.cliente), v.envio, Link(NameKey(v.cliente), gs, sim))]
              else []
  {
    assert MonthSales([v], m) == (if InMonth(v.fecha, m) then [v] else []) + MonthSales([], m);
  }

  /** Within a month the rows follow the sales order: splitting the sales splits the rows. */
  lemma ReportMonthAppend(a: seq<Venta>, b: seq<Venta>, gs: seq<Guia>, sim: Similarity, m: Period)
    ensures ReportMonth(a + b, gs, sim, m) == ReportMonth(a, gs, sim, m) + ReportMonth(b, gs, sim, m)
  {
    MonthSalesAppend(a, b, m);
    MapAppend((v: Venta) => SaleRow(v, gs, sim, m), MonthSales(a, m), MonthSales(b, m));
  }

  /** The rows that month `m` contributes. */
  function MonthRows(ventas: seq<Venta>, gs: seq<Guia>, sim: Similarity): Period -> seq<MonthRow> {
    (m: Period) => ReportMonth(ventas, gs, sim, m)
  }

  /** The months in list order, each contributing its rows. */
  function ReportMonths(ventas: seq<Venta>, gs: seq<Guia>, sim: Similarity, months: seq<Period>): seq<MonthRow> {
    FlatMap(MonthRows(ventas, gs, sim), months)
  }

  /** Every row carries the month of the iteration that produced it. */
  lemma ReportMonthsTagged(ventas: seq<Venta>, gs: seq<Guia>, sim: Similarity, months: seq<Period>)
    ensures forall i :: 0 <= i < |ReportMonths(ventas, gs, sim, months)| ==>
              ReportMonths(ventas, gs, sim, months)[i].mes in months
  {
    var f := MonthRows(ventas, gs, sim);
    forall k | 0 <= k < |months|
      ensures forall j :: 0 <= j < |f(months[k])| ==> f(months[k])[j].mes in months
    {
      ReportMonthRows(ventas, gs, sim, months[k]);
    }
    FlatMapAll(f, months, (row: MonthRow) => row.mes in months);
  }

  /** Every row has a sale date in its month, a normalized client, and the match for that client. */
  lemma ReportMonthsReported(ventas: seq<Venta>, gs: seq<Guia>, sim: Similarity, months: seq<Period>)
    ensures forall i :: 0 <= i < |ReportMonths(ventas, gs, sim, months)| ==>
              Reported(ReportMonths(ventas, gs, sim, months)[i], gs, sim)
  {
    var f := MonthRows(ventas, gs, sim);
    forall k | 0 <= k < |months|
      ensures forall j :: 0 <= j < |f(months[k])| ==> Reported(f(months[k])[j], gs, sim)
    {
      ReportMonthRows(ventas, gs, sim, months[k]);
    }
    FlatMapAll(f, months, (row: MonthRow) => Reported(row, gs, sim));
  }

  /** The row shows some sale of the table that is dated in the row's month. */
  ghost predicate FromSale(row: MonthRow, ventas: seq<Venta>) {
    exists k :: 0 <= k < |ventas| && InMonth(ventas[k].fecha, row.mes) && RowOf(row, ventas[k])
  }

  /** Every row shows a sale of the table dated in the row's month. */
  lemma ReportMonthsFromSales(ventas: seq<Venta>, gs: seq<Guia>, sim: Similarity, months: seq<Period>)
    ensures forall i :: 0 <= i < |ReportMonths(ventas, gs, sim, months)| ==>
              FromSale(ReportMonths(ventas, gs, sim, months)[i], ventas)
  {
    var f := MonthRows(ventas, gs, sim);
    forall k | 0 <= k < |months|
      ensures forall j :: 0 <= j < |f(months[k])| ==> FromSale(f(months[k])[j], ventas)
    {
      var m := months[k];
      var sales := MonthSales(ventas, m);
      ReportMonthRows(ventas, gs, sim, m);
      MonthSalesSelects(ventas, m);
      forall j | 0 <= j < |f(m)|
        ensures FromSale(f(m)[j], ventas)
      {
        assert sales[j] in sales;
        var n :| 0 <= n < |ventas| && ventas[n] == sales[j];
        assert InMonth(ventas[n].fecha, f(m)[j].mes) && RowOf(f(m)[j], ventas[n]);
      }
    }
    FlatMapAll(f, months, (row: MonthRow) => FromSale(row, ventas));
  }

  /** A one-month list gives exactly that month's rows, in sales order. */
  lemma ReportMonthsSingle(ventas: seq<Venta>, gs: seq<Guia>, sim: Similarity, m: Period)
    ensures ReportMonths(ventas, gs, sim, [m]) == ReportMonth(ventas, gs, sim, m)
  {
    var f := MonthRows(ventas, gs, sim);
    assert [m][1..] == [];
    assert FlatMap(f, [m]) == f(m) + FlatMap(f, []);
  }

  /** Output order is month-list order: the report of a split list is the two reports joined. */
  lemma ReportMonthsAppend(ventas: seq<Venta>, gs: seq<Guia>, sim: Similarity, ms1: seq<Period>, ms2: seq<Period>)
    ensures ReportMonths(ventas, gs, sim, ms1 + ms2) == ReportMonths(ventas, gs, sim, ms1) + ReportMonths(ventas, gs, sim, ms2)
  {
    FlatMapAppend(MonthRows(ventas, gs, sim), ms1, ms2);
  }

  /** The number of sales over the month list, a month counted once per occurrence. */
  function TotalInMonths(ventas: seq<Venta>, months: seq<Period>): nat {
    if months == [] then 0 else CountInMonth(ventas, months[0]) + TotalInMonths(ventas, months[1..])
  }

  /** The report has one row per (month occurrence, sale of that month). */
  lemma {:induction false} ReportMonthsLength(ventas: seq<Venta>, gs: seq<Guia>, sim: Similarity, months: seq<Period>)
    ensures |ReportMonths(ventas, gs, sim, months)| == TotalInMonths(ventas, months)
  {
    if months != [] {
      ReportMonthRows(ventas, gs, sim, months[0]);
      ReportMonthsLength(ventas, gs, sim, months[1..]);
    }
  }

  /** A sale whose date could not be parsed is dropped from every month. */
  lemma UndatedSaleDropped(a: seq<Venta>, v: Venta, b: seq<Venta>, m: Period)
    requires v.fecha.None?
    ensures MonthSales(a + [v] + b, m) == MonthSales(a + b, m)
  {
    MonthSalesAppend(a + [v], b, m);
    MonthSalesAppend(a, [v], m);
    MonthSalesAppend(a, b, m);
    assert MonthSales([v], m) == [];
  }

  /** A sale whose date could not be parsed changes nothing in the report. */
  lemma UndatedSaleIgnored(a: seq<Venta>, v: Venta, b: seq<Venta>, gs: seq<Guia>, sim: Similarity, months: seq<Period>)
    requires v.fecha.None?
    ensures ReportMonths(a + [v] + b, gs, sim, months) == ReportMonths(a + b, gs, sim, months)
  {
    var f := MonthRows(a + [v] + b, gs, sim);
    var g := MonthRows(a + b, gs, sim);
    forall k | 0 <= k < |months|
      ensures f(months[k]) == g(months[k])
    {
      UndatedSaleDropped(a, v, b, months[k]);
    }
    FlatMapCongruent(f, g, months);
  }

  /** The row is matched iff some normalized recipient scores at least the threshold against its client. */
  ghost predicate LinkedToRaw(row: MonthRow, guias: seq<GuiaRow>, sim: Similarity) {
    row.found.similitud.Some? <==>
      exists j :: 0 <= j < |guias| && sim(row.cliente, NameKey(guias[j].destinatario)) >= Threshold
  }

  /** The whole report on raw waybill rows, which are normalized once up front. */
  function Report(ventas: seq<Venta>, guias: seq<GuiaRow>, sim: Similarity, months: seq<Period>): seq<MonthRow> {
    ReportMonths(ventas, PrepareGuias(guias), sim, months)
  }

  /**
   The report over raw waybill rows has one row per (month occurrence, sale of
   that month); each row's month is requested and the row shows a sale dated in it.
   */
  lemma ReportRows(ventas: seq<Venta>, guias: seq<GuiaRow>, sim: Similarity, months: seq<Period>)
    ensures |Report(ventas, guias, sim, months)| == TotalInMonths(ventas, months)
    ensures forall i :: 0 <= i < |Report(ventas, guias, sim, months)| ==>
              && Report(ventas, guias, sim, months)[i].mes in months
              && FromSale(Report(ventas, guias, sim, months)[i], ventas)
  {
    var gs := PrepareGuias(guias);
    ReportMonthsLength(ventas, gs, sim, months);
    ReportMonthsTagged(ventas, gs, sim, months);
    ReportMonthsFromSales(ventas, gs, sim, months);
  }

  /**
   Over raw waybill rows, a one-month report is that month's rows against the
   normalized waybill table; with the append lemmas this fixes the whole report.
   */
  lemma ReportOneMonth(ventas: seq<Venta>, guias: seq<GuiaRow>, sim: Similarity, m: Period)
    ensures Report(ventas, guias, sim, [m]) == ReportMonth(ventas, PrepareGuias(guias), sim, m)
  {
    ReportMonthsSingle(ventas, PrepareGuias(guias), sim, m);
  }

  /** The report over a split month list is the two reports joined. */
  lemma ReportAppend(ventas: seq<Venta>, guias: seq<GuiaRow>, sim: Similarity, ms1: seq<Period>, ms2: seq<Period>)
    ensures Report(ventas, guias, sim, ms1 + ms2) == Report(ventas, guias, sim, ms1) + Report(ventas, guias, sim, ms2)
  {
    ReportMonthsAppend(ventas, PrepareGuias(guias), sim, ms1, ms2);
  }

  /**
   Each row of the report over raw waybill rows has a normalized client, and it
   is matched iff some normalized recipient is close enough to that client.
   */
  lemma ReportRowsLinked(ventas: seq<Venta>, guias: seq<GuiaRow>, sim: Similarity, months: seq<Period>)
    ensures forall i :: 0 <= i < |Report(ventas, guias, sim, months)| ==>
              && IsNormal(Report(ventas, guias, sim, months)[i].cliente)
              && LinkedToRaw(Report(ventas, guias, sim, months)[i], guias, sim)
  {
    var gs := PrepareGuias(guias);
    var r := ReportMonths(ventas, gs, sim, months);
    ReportMonthsReported(ventas, gs, sim, months);
    forall i | 0 <= i < |r|
      ensures LinkedToRaw(r[i], guias, sim)
    {
      LinkOnRawRows(r[i].cliente, guias, sim);
    }
  }

  /** With an empty waybill table every reported row is unmatched, all match columns empty. */
  lemma EmptyGuiasAllUnmatched(ventas: seq<Venta>, sim: Similarity, months: seq<Period>)
    ensures forall i :: 0 <= i < |Report(ventas, [], sim, months)| ==> Report(ventas, [], sim, months)[i].found == NoMatch
  {
    assert PrepareGuias([]) == [];
    var r := ReportMonths(ventas, [], sim, months);
    assert Report(ventas, [], sim, months) == r;
    ReportMonthsReported(ventas, [], sim, months);
    forall i | 0 <= i < |r|
      ensures r[i].found == NoMatch
    {
      EmptyGuiasNoMatch(r[i].cliente, sim);
    }
  }
}
