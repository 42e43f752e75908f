/**
 The shipment classifier of the single-sheet report: an ordered, first-match-wins
 rule set over the carrier code `CO` and the surcharge `Recargo 4%`.
 */
module Classification {
  import opened Cells

  datatype Label = Forza | Mensajero | Cargo | Unknown

  /** The carrier code that marks a Forza shipment. */
  const ForzaCode: string := "F"

  /**
   Rules, tried in order: a `CO` of "F" gives Forza; no `CO` and no or zero
   surcharge gives Mensajero; no `CO` and a positive surcharge gives Cargo;
   everything else is Unknown. Each label is characterised by its inputs, so the
   four cases are disjoint and cover every input.
   */
  function Classify(co: Option<string>, recargo: Option<real>): (l: Label)
    ensures l == Forza <==> co == Some(ForzaCode)
    ensures l == Mensajero <==> co.None? && (recargo.None? || recargo.value == 0.0)
    ensures l == Cargo <==> co.None? && recargo.Some? && recargo.value > 0.0
    ensures l == Unknown <==> (co.Some? && co.value != ForzaCode) || (co.None? && recargo.Some? && recargo.value < 0.0)
  {
    if co.Some? && co.value == ForzaCode then Forza
    else if co.None? && (recargo.None? || recargo.value == 0.0) then Mensajero
    else if co.None? && recargo.Some? && recargo.value > 0.0 then Cargo
    else Unknown
  }
}
