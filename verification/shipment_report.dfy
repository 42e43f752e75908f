/**
 The single-sheet report: every shipment (envío) row of one sheet is
 classified, then linked by its shipment name to the waybill table, giving one
 comparison row per shipment in sheet order.
 */
module ShipmentReport {
  import opened Cells
  import opened Normalization
  import opened Classification
  import opened Matching

  /** A row of the shipments sheet, with the columns the report reads. */
  datatype Envio = Envio(fecha: Cell, nombreEnvio: Option<string>, co: Option<string>, recargo: Option<real>)

  /** A row of the classified echo sheet: the shipment row and its label. */
  datatype ClassifiedEnvio = ClassifiedEnvio(envio: Envio, clasificacion: Label)

  /** A row of the comparison sheet. */
  datatype ComparisonRow = ComparisonRow(fecha: Cell, nombreEnvio: Option<string>, clasificacion: Label, found: MatchFields)

  /** Adds the classification column: one labelled row per shipment, in order. */
  function ClassifyAll(envios: seq<Envio>): (r: seq<ClassifiedEnvio>)
    ensures |r| == |envios|
    ensures forall i :: 0 <= i < |envios| ==>
              r[i].envio == envios[i] && r[i].clasificacion == Classify(envios[i].co, envios[i].recargo)
  {
    if envios == [] then []
    else [ClassifiedEnvio(envios[0], Classify(envios[0].co, envios[0].recargo))] + ClassifyAll(envios[1..])
  }

  /** The comparison row of one shipment: raw date and name shown, normalized name matched. */
  function CompareRow(e: Envio, gs: seq<Guia>, sim: Similarity): ComparisonRow {
    ComparisonRow(e.fecha, e.nombreEnvio, Classify(e.co, e.recargo), Link(NameKey(e.nombreEnvio), gs, sim))
  }

  /**
   One comparison row per shipment, in sheet order. Each keeps the shipment's
   raw date, raw name and label, and its match columns come from linking the
   name's normalized form.
   */
  function Compare(envios: seq<Envio>, gs: seq<Guia>, sim: Similarity): (r: seq<ComparisonRow>)
    ensures |r| == |envios|
    ensures forall i :: 0 <= i < |envios| ==>
              && r[i].fecha == envios[i].fecha
              && r[i].nombreEnvio == envios[i].nombreEnvio
              && r[i].clasificacion == Classify(envios[i].co, envios[i].recargo)
              && r[i].found == Link(NameKey(envios[i].nombreEnvio), gs, sim)
  {
    if envios == [] then []
    else [CompareRow(envios[0], gs, sim)] + Compare(envios[1..], gs, sim)
  }

  /**
   The comparison row of shipment `e` is matched iff some waybill's normalized
   recipient scores at least the threshold against the shipment's normalized
   name, and an unmatched row has every match column empty.
   */
  ghost predicate RowLinked(e: Envio, guias: seq<GuiaRow>, sim: Similarity, row: ComparisonRow) {
    && (row.found.similitud.Some? <==>
          exists j :: 0 <= j < |guias| && sim(NameKey(e.nombreEnvio), NameKey(guias[j].destinatario)) >= Threshold)
    && (row.found.similitud.None? ==> row.found == NoMatch)
  }

  /**
   The whole report on raw waybill rows: the recipients are normalized once,
   and a shipment is matched iff some waybill's normalized recipient scores at
   least the threshold against the shipment's normalized name.
   */
  function CompareShipments(envios: seq<Envio>, guias: seq<GuiaRow>, sim: Similarity): (r: seq<ComparisonRow>)
    ensures |r| == |envios|
    ensures forall i :: 0 <= i < |envios| ==> RowLinked(envios[i], guias, sim, r[i])
  {
    var gs := PrepareGuias(guias);
    var r := Compare(envios, gs, sim);
    assert forall i :: 0 <= i < |envios| ==> RowLinked(envios[i], guias, sim, r[i]) by {
      forall i | 0 <= i < |envios|
        ensures RowLinked(envios[i], guias, sim, r[i])
      {
        LinkOnRawRows(NameKey(envios[i].nombreEnvio), guias, sim);
        LinkCharacterised(NameKey(envios[i].nombreEnvio), gs, sim);
      }
    }
    r
  }
}
