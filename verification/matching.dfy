/**
 The record-linkage core shared by both reports: for one normalized name, an
 exhaustive scan over the waybill (guía) rows keeps the best similarity seen so
 far, replacing it only on a strictly greater score, and the best row is
 accepted when its similarity reaches the fixed threshold.
 */
module Matching {
  import opened Cells
  import opened Normalization

  /** A waybill row as read from the waybill workbook. */
  datatype GuiaRow = GuiaRow(destinatario: Option<string>, fecha: Cell, referencia1: Cell, referencia2: Cell, estado: Cell)

  /** A waybill row whose recipient has been normalized. */
  datatype Guia = Guia(destinatario: string, fecha: Cell, referencia1: Cell, referencia2: Cell, estado: Cell)

  /**
   The similarity ratio of two strings (difflib's `SequenceMatcher.ratio`),
   supplied by the caller; nothing about it is assumed unless a lemma says so.
   */
  type Similarity = (string, string) -> real

  /** A similarity that stays within [0, 1], as difflib's ratio does. */
  ghost predicate Bounded(sim: Similarity) {
    forall a: string, b: string :: 0.0 <= sim(a, b) <= 1.0
  }

  /** The acceptance threshold: 60%. */
  const Threshold: real := 0.6

  /**
   Normalizes the recipient column once for the whole waybill table; every
   other column is kept as it is.
   */
  function PrepareGuias(rows: seq<GuiaRow>): (gs: seq<Guia>)
    ensures |gs| == |rows|
    ensures forall i :: 0 <= i < |rows| ==>
              && IsNormal(gs[i].destinatario)
              && gs[i].destinatario == NameKey(rows[i].destinatario)
              && gs[i].fecha == rows[i].fecha
              && gs[i].referencia1 == rows[i].referencia1
              && gs[i].referencia2 == rows[i].referencia2
              && gs[i].estado == rows[i].estado
  {
    seq(|rows|, i requires 0 <= i < |rows| =>
      Guia(NameKey(rows[i].destinatario), rows[i].fecha, rows[i].referencia1, rows[i].referencia2, rows[i].estado))
  }

  /** The scan's running state: `best_similarity`, `best_match` and the index of `best_row`. */
  datatype Best = Best(similarity: real, name: Option<string>, row: Option<nat>)

  /** The state before any waybill has been looked at. */
  const Start: Best := Best(0.0, None, None)

  /** The similarity of `key` to the recipient of waybill `j`. */
  function ScoreAt(key: string, gs: seq<Guia>, sim: Similarity, j: nat): real
    requires j < |gs|
  {
    sim(key, gs[j].destinatario)
  }

  /**
   `b` is what the scan holds once the first `n` waybills have been seen: its
   similarity is the largest score so far, or 0 when none is positive; its row
   is the first one reaching that score, or none when the score is 0.
   */
  ghost predicate BestOf(key: string, gs: seq<Guia>, sim: Similarity, n: nat, b: Best)
    requires n <= |gs|
  {
    && 0.0 <= b.similarity
    && (forall j :: 0 <= j < n ==> ScoreAt(key, gs, sim, j) <= b.similarity)
    && match b.row
       case None => b.similarity == 0.0 && b.name.None?
       case Some(k) =>
         && k < n
         && b.name == Some(gs[k].destinatario)
         && ScoreAt(key, gs, sim, k) == b.similarity
         && 0.0 < b.similarity
         && forall j :: 0 <= j < k ==> ScoreAt(key, gs, sim, j) < b.similarity
  }

  /** The scan loop from waybill `i` onwards, starting from the state `acc`. */
  function ScanFrom(key: string, gs: seq<Guia>, sim: Similarity, i: nat, acc: Best): (b: Best)
    requires i <= |gs|
    requires BestOf(key, gs, sim, i, acc)
    ensures BestOf(key, gs, sim, |gs|, b)
    decreases |gs| - i
  {
    if i == |gs| then acc
    else
      var s := sim(key, gs[i].destinatario);
      var next := if s > acc.similarity then Best(s, Some(gs[i].destinatario), Some(i)) else acc;
      ScanFrom(key, gs, sim, i + 1, next)
  }

  /** The whole scan for one name. */
  function Scan(key: string, gs: seq<Guia>, sim: Similarity): (b: Best)
    ensures BestOf(key, gs, sim, |gs|, b)
  {
    ScanFrom(key, gs, sim, 0, Start)
  }

  /** At most one state fits the description of a finished scan. */
  lemma BestOfUnique(key: string, gs: seq<Guia>, sim: Similarity, b1: Best, b2: Best)
    requires BestOf(key, gs, sim, |gs|, b1)
    requires BestOf(key, gs, sim, |gs|, b2)
    ensures b1 == b2
  {
  }

  /** The scan's result is exactly the state that fits the description. */
  lemma ScanCharacterised(key: string, gs: seq<Guia>, sim: Similarity, b: Best)
    ensures Scan(key, gs, sim) == b <==> BestOf(key, gs, sim, |gs|, b)
  {
    if BestOf(key, gs, sim, |gs|, b) {
      BestOfUnique(key, gs, sim, Scan(key, gs, sim), b);
    }
  }

  /** The larger of two scores. */
  function Max(a: real, b: real): (m: real)
    ensures m >= a && m >= b
    ensures m == a || m == b
  {
    if a >= b then a else b
  }

  /** An independent definition of the best score: max(0, every waybill's score). */
  function MaxScore(key: string, gs: seq<Guia>, sim: Similarity): real {
    if gs == [] then 0.0 else Max(sim(key, gs[0].destinatario), MaxScore(key, gs[1..], sim))
  }

  /** `MaxScore` is at least 0 and every score, and it is 0 or one of the scores. */
  lemma {:induction false} MaxScoreBounds(key: string, gs: seq<Guia>, sim: Similarity)
    ensures 0.0 <= MaxScore(key, gs, sim)
    ensures forall j :: 0 <= j < |gs| ==> ScoreAt(key, gs, sim, j) <= MaxScore(key, gs, sim)
    ensures MaxScore(key, gs, sim) == 0.0 || exists j :: 0 <= j < |gs| && ScoreAt(key, gs, sim, j) == MaxScore(key, gs, sim)
  {
    if gs != [] {
      MaxScoreBounds(key, gs[1..], sim);
      assert forall j :: 1 <= j < |gs| ==> ScoreAt(key, gs, sim, j) == ScoreAt(key, gs[1..], sim, j - 1);
      if MaxScore(key, gs, sim) != 0.0 && MaxScore(key, gs, sim) != ScoreAt(key, gs, sim, 0) {
        var j :| 0 <= j < |gs[1..]| && ScoreAt(key, gs[1..], sim, j) == MaxScore(key, gs[1..], sim);
        assert ScoreAt(key, gs, sim, j + 1) == MaxScore(key, gs, sim);
      }
    }
  }

  /** The scan ends with `best_similarity` equal to max(0, the largest score). */
  lemma ScanScoreIsMax(key: string, gs: seq<Guia>, sim: Similarity)
    ensures Scan(key, gs, sim).similarity == MaxScore(key, gs, sim)
  {
    MaxScoreBounds(key, gs, sim);
    var b := Scan(key, gs, sim);
    var m := MaxScore(key, gs, sim);
    if m != 0.0 {
      var j :| 0 <= j < |gs| && ScoreAt(key, gs, sim, j) == m;
      assert m <= b.similarity;
    }
    if b.row.Some? {
      assert ScoreAt(key, gs, sim, b.row.value) <= m;
    }
  }

  /** Waybill `k` reaches the best score and no earlier waybill does. */
  ghost predicate FirstMax(key: string, gs: seq<Guia>, sim: Similarity, k: nat)
    requires k < |gs|
  {
    && (forall j :: 0 <= j < |gs| ==> ScoreAt(key, gs, sim, j) <= ScoreAt(key, gs, sim, k))
    && (forall j :: 0 <= j < k ==> ScoreAt(key, gs, sim, j) < ScoreAt(key, gs, sim, k))
  }

  /** The first waybill with the largest, positive score is the one the scan keeps. */
  lemma FirstMaxWins(key: string, gs: seq<Guia>, sim: Similarity, k: nat)
    requires k < |gs| && FirstMax(key, gs, sim, k)
    requires 0.0 < ScoreAt(key, gs, sim, k)
    ensures Scan(key, gs, sim) == Best(ScoreAt(key, gs, sim, k), Some(gs[k].destinatario), Some(k))
  {
    ScanCharacterised(key, gs, sim, Best(ScoreAt(key, gs, sim, k), Some(gs[k].destinatario), Some(k)));
  }

  /** Of two waybills tied on the largest positive score, the later one is never kept. */
  lemma TieGoesToFirst(key: string, gs: seq<Guia>, sim: Similarity, i: nat, j: nat)
    requires i < j < |gs|
    requires ScoreAt(key, gs, sim, i) == ScoreAt(key, gs, sim, j)
    requires forall k :: 0 <= k < |gs| ==> ScoreAt(key, gs, sim, k) <= ScoreAt(key, gs, sim, j)
    requires 0.0 < ScoreAt(key, gs, sim, j)
    ensures Scan(key, gs, sim).row != Some(j)
    ensures Scan(key, gs, sim).row.Some? && Scan(key, gs, sim).row.value <= i
  {
    var b := Scan(key, gs, sim);
    assert ScoreAt(key, gs, sim, j) <= b.similarity;
  }

  /** When no score is positive (in particular with no waybills) nothing is kept. */
  lemma NoPositiveScoreKeepsNothing(key: string, gs: seq<Guia>, sim: Similarity)
    requires forall j :: 0 <= j < |gs| ==> ScoreAt(key, gs, sim, j) <= 0.0
    ensures Scan(key, gs, sim) == Start
  {
    ScanCharacterised(key, gs, sim, Start);
  }

  /** The six match columns of a result row; all empty when nothing was accepted. */
  datatype MatchFields = MatchFields(
    destinatario: Option<string>,
    similitud: Option<real>,
    fecha: Cell,
    referencia1: Cell,
    referencia2: Cell,
    estado: Cell)

  const NoMatch: MatchFields := MatchFields(None, None, None, None, None, None)

  /** The match columns filled from waybill `g` with similarity `s`. */
  function FieldsOf(g: Guia, s: real): MatchFields {
    MatchFields(Some(g.destinatario), Some(s), g.fecha, g.referencia1, g.referencia2, g.estado)
  }

  /**
   Scans the waybills for `key` and applies the threshold: the scan's best
   waybill fills the six match columns when its similarity reaches the
   threshold, and they are all empty otherwise. Each waybill column keeps the
   source's `if best_row is not None` guard.
   */
  function Link(key: string, gs: seq<Guia>, sim: Similarity): MatchFields
  {
    var b := Scan(key, gs, sim);
    if b.similarity >= Threshold then
      MatchFields(
        b.name,
        Some(b.similarity),
        if b.row.Some? then gs[b.row.value].fecha else None,
        if b.row.Some? then gs[b.row.value].referencia1 else None,
        if b.row.Some? then gs[b.row.value].referencia2 else None,
        if b.row.Some? then gs[b.row.value].estado else None)
    else
      NoMatch
  }

  /**
   A row is matched iff some waybill scores at least the threshold. A match
   carries the fields of the first waybill with the largest score; a non-match
   has every match column empty.
   */
  lemma LinkCharacterised(key: string, gs: seq<Guia>, sim: Similarity)
    ensures Link(key, gs, sim).similitud.Some? <==> exists j :: 0 <= j < |gs| && ScoreAt(key, gs, sim, j) >= Threshold
    ensures Link(key, gs, sim).similitud.None? ==> Link(key, gs, sim) == NoMatch
    ensures Link(key, gs, sim).similitud.Some? ==>
              exists k :: 0 <= k < |gs| && FirstMax(key, gs, sim, k) && Link(key, gs, sim) == FieldsOf(gs[k], ScoreAt(key, gs, sim, k))
  {
    var b := Scan(key, gs, sim);
    if b.similarity >= Threshold {
      var k := b.row.value;
      assert FirstMax(key, gs, sim, k);
      assert Link(key, gs, sim) == FieldsOf(gs[k], ScoreAt(key, gs, sim, k));
    } else {
      assert forall j :: 0 <= j < |gs| ==> ScoreAt(key, gs, sim, j) < Threshold;
    }
  }

  /**
   The same on raw waybill rows: once the recipients are normalized, a name is
   matched iff some normalized recipient scores at least the threshold against it.
   */
  lemma LinkOnRawRows(key: string, guias: seq<GuiaRow>, sim: Similarity)
    ensures Link(key, PrepareGuias(guias), sim).similitud.Some? <==>
              exists j :: 0 <= j < |guias| && sim(key, NameKey(guias[j].destinatario)) >= Threshold
  {
    var gs := PrepareGuias(guias);
    LinkCharacterised(key, gs, sim);
    assert forall j :: 0 <= j < |guias| ==> ScoreAt(key, gs, sim, j) == sim(key, NameKey(guias[j].destinatario));
  }

  /** Once the threshold is met a row has been kept, so the `best_row is not None` guards never fire. */
  lemma AcceptedHasRow(key: string, gs: seq<Guia>, sim: Similarity)
    ensures Scan(key, gs, sim).similarity >= Threshold ==> Scan(key, gs, sim).row.Some?
  {
  }

  /** With a bounded similarity an accepted score lies between the threshold and 1. */
  lemma MatchedScoreInRange(key: string, gs: seq<Guia>, sim: Similarity)
    requires Bounded(sim)
    ensures Link(key, gs, sim).similitud.Some? ==> Threshold <= Link(key, gs, sim).similitud.value <= 1.0
  {
    LinkCharacterised(key, gs, sim);
  }

  /** With an empty waybill table nothing is ever matched. */
  lemma EmptyGuiasNoMatch(key: string, sim: Similarity)
    ensures Link(key, [], sim) == NoMatch
  {
  }
}
